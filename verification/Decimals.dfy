/** Canonical decimal text: printing without exponent, the accepted grammar, and reading back. */
module Decimals {
  import opened Common

  /** A finite decimal as the standard library holds it: sign, coefficient and exponent. */
  datatype Decimal = Decimal(neg: bool, coefficient: nat, exponent: int)

  // ---------------------------------------------------------------------
  // Digits
  // ---------------------------------------------------------------------

  predicate IsDigit(c: char) {
    '0' <= c <= '9'
  }

  predicate AllDigits(s: string) {
    forall i :: 0 <= i < |s| ==> IsDigit(s[i])
  }

  function DigitValue(c: char): (d: nat)
    requires IsDigit(c)
    ensures d < 10
  {
    c as int - '0' as int
  }

  function DigitChar(d: nat): (c: char)
    requires d < 10
    ensures IsDigit(c) && DigitValue(c) == d
  {
    (d + '0' as int) as char
  }

  function ParseNat(s: string): nat
    requires AllDigits(s)
  {
    if s == "" then 0 else 10 * ParseNat(s[..|s| - 1]) + DigitValue(s[|s| - 1])
  }

  function PrintNat(n: nat): (s: string)
    ensures AllDigits(s) && s != ""
  {
    if n < 10 then [DigitChar(n)] else PrintNat(n / 10) + [DigitChar(n % 10)]
  }

  function Zeros(k: nat): (s: string)
    ensures |s| == k && AllDigits(s) && forall i :: 0 <= i < k ==> s[i] == '0'
  {
    seq(k, _ => '0')
  }

  function Pow10(k: nat): (p: nat)
    ensures p > 0
  {
    if k == 0 then 1 else 10 * Pow10(k - 1)
  }

  // ---------------------------------------------------------------------
  // Printing and reading
  // ---------------------------------------------------------------------

  function Sign(neg: bool): string {
    if neg then "-" else ""
  }

  /** The coefficient's digits, with zeros in front so that at least one stands before the point. */
  function Padded(d: Decimal): (s: string)
    requires d.exponent < 0
    ensures AllDigits(s) && |s| > -d.exponent
  {
    var digits := PrintNat(d.coefficient);
    if |digits| <= -d.exponent then Zeros(1 - d.exponent - |digits|) + digits else digits
  }

  /** The fixed-point format: no exponent, every digit kept. */
  function FixedPoint(d: Decimal): string {
    if d.exponent >= 0 then Sign(d.neg) + PrintNat(d.coefficient) + Zeros(d.exponent)
    else
      var s := Padded(d);
      Sign(d.neg) + s[..|s| + d.exponent] + "." + s[|s| + d.exponent..]
  }

  function RStrip(s: string, c: char): string {
    if s != "" && s[|s| - 1] == c then RStrip(s[..|s| - 1], c) else s
  }

  /** The canonical text of a finite decimal. */
  function Print(d: Decimal): string {
    if d.coefficient == 0 then "0"
    else
      var s := FixedPoint(d);
      if '.' in s then RStrip(RStrip(s, '0'), '.') else s
  }

  /** A decimal text taken apart; an empty fraction means no point either. */
  datatype Text = Text(neg: bool, whole: string, fraction: string)

  predicate Whole(s: string) {
    s == "0" || (s != "" && AllDigits(s) && s[0] != '0')
  }

  predicate Grammatical(t: Text) {
    Whole(t.whole) && AllDigits(t.fraction)
  }

  function Render(t: Text): string {
    Sign(t.neg) + Unsigned(t.whole, t.fraction)
  }

  function PointIn(s: string): (p: nat)
    ensures p <= |s| && (forall i :: 0 <= i < p ==> s[i] != '.') && (p < |s| ==> s[p] == '.')
  {
    if s == "" || s[0] == '.' then 0 else 1 + PointIn(s[1..])
  }

  function Unsigned(whole: string, fraction: string): string {
    whole + if fraction == "" then "" else "." + fraction
  }

  /** The grammar after the sign: a whole part with no leading zero, and optionally a point and digits. */
  function SplitUnsigned(u: string): (r: Option<(string, string)>)
    ensures r.Some? ==> Whole(r.value.0) && AllDigits(r.value.1) && Unsigned(r.value.0, r.value.1) == u
  {
    var p := PointIn(u);
    if !Whole(u[..p]) then None
    else if p == |u| then Some((u[..p], ""))
    else if p + 1 < |u| && AllDigits(u[p + 1..]) then
      assert u == u[..p] + ("." + u[p + 1..]);
      Some((u[..p], u[p + 1..]))
    else None
  }

  /** The accepted grammar, its optional minus first. */
  function Split(s: string): (r: Option<Text>)
    ensures r.Some? ==> Grammatical(r.value) && Render(r.value) == s
  {
    var neg := s != "" && s[0] == '-';
    match SplitUnsigned(if neg then s[1..] else s)
    case Some((whole, fraction)) => Some(Text(neg, whole, fraction))
    case None => None
  }

  function Read(t: Text): Decimal
    requires Grammatical(t)
  {
    Decimal(t.neg, ParseNat(t.whole + t.fraction), -|t.fraction|)
  }

  function Parse(s: string): Option<Decimal> {
    match Split(s)
    case None => None
    case Some(t) => Some(Read(t))
  }

  lemma {:induction false} PointFound(w: string, rest: string)
    requires AllDigits(w) && (rest == "" || rest[0] == '.')
    ensures PointIn(w + rest) == |w|
  {
    if w == "" {
      assert w + rest == rest;
    } else {
      PointFound(w[1..], rest);
      assert (w + rest)[1..] == w[1..] + rest;
    }
  }

  lemma SplitUnsignedBack(whole: string, fraction: string)
    requires Whole(whole) && AllDigits(fraction)
    ensures SplitUnsigned(Unsigned(whole, fraction)) == Some((whole, fraction))
  {
    var u := Unsigned(whole, fraction);
    PointFound(whole, if fraction == "" then "" else "." + fraction);
    assert u[..|whole|] == whole;
    assert fraction != "" ==> u[|whole| + 1..] == fraction;
  }

  lemma SplitRender(t: Text)
    requires Grammatical(t)
    ensures Split(Render(t)) == Some(t)
  {
    var u := Unsigned(t.whole, t.fraction);
    assert u[0] == t.whole[0] && IsDigit(u[0]);
    assert ("-" + u)[1..] == u && "" + u == u;
    SplitUnsignedBack(t.whole, t.fraction);
    hide SplitUnsigned, Unsigned;
  }

  // ---------------------------------------------------------------------
  // Numbers
  // ---------------------------------------------------------------------

  function Ten(e: int): (t: real)
    ensures t > 0.0
  {
    if e >= 0 then Pow10(e) as real else 1.0 / Pow10(-e) as real
  }

  function Signed(d: Decimal): int {
    if d.neg then 0 - d.coefficient else d.coefficient
  }

  function Value(d: Decimal): real {
    Signed(d) as real * Ten(d.exponent)
  }

  lemma TenStep(e: int)
    ensures Ten(e + 1) == 10.0 * Ten(e)
  {
    if e < 0 {
      var p := Pow10(-e - 1) as real;
      assert Pow10(-e) as real == 10.0 * p;
      assert 10.0 * (1.0 / (10.0 * p)) == 1.0 / p;
      assert Pow10(0) == 1;
    } else {
      assert Pow10(e + 1) == 10 * Pow10(e);
    }
  }

  lemma TimesTen(s: int, t: real)
    ensures (10 * s) as real * t == s as real * (10.0 * t)
  {
  }

  /** Moving the point: j more zeros on the coefficient, j less on the exponent. */
  lemma {:induction false} Rescale(neg: bool, c: nat, e: int, j: nat)
    ensures Value(Decimal(neg, c * Pow10(j), e)) == Value(Decimal(neg, c, e + j))
    decreases j
  {
    hide Ten;
    if j == 0 {
      assert c * Pow10(0) == c;
    } else {
      var k := c * Pow10(j - 1);
      Rescale(neg, c, e + 1, j - 1);
      PowStep(c, j);
      TenStep(e);
      hide Pow10;
      TimesTen(if neg then 0 - k else k, Ten(e));
    }
  }

  lemma PowStep(c: nat, j: nat)
    requires j > 0
    ensures c * Pow10(j) == 10 * (c * Pow10(j - 1))
  {
    var p := Pow10(j - 1);
    assert Pow10(j) == 10 * p;
    hide Pow10;
    assert c * (10 * p) == 10 * (c * p);
  }

  lemma Cancel(x: real, y: real, t: real)
    requires t > 0.0 && x * t == y * t
    ensures x == y
  {
    assert (x - y) * t == 0.0;
  }

  lemma SameScale(a: Decimal, b: Decimal)
    requires a.exponent == b.exponent && Value(a) == Value(b)
    ensures Signed(a) == Signed(b)
  {
    hide Ten;
    Cancel(Signed(a) as real, Signed(b) as real, Ten(a.exponent));
  }

  // ---------------------------------------------------------------------
  // Digit strings
  // ---------------------------------------------------------------------

  lemma {:induction false} ParsePrintNat(n: nat)
    ensures ParseNat(PrintNat(n)) == n
    ensures n > 0 ==> PrintNat(n)[0] != '0'
  {
    if n >= 10 {
      ParsePrintNat(n / 10);
      var s := PrintNat(n / 10);
      assert (s + [DigitChar(n % 10)])[..|s|] == s;
    }
  }

  lemma {:induction false} ParseConcat(s: string, t: string)
    requires AllDigits(s) && AllDigits(t)
    ensures ParseNat(s + t) == ParseNat(s) * Pow10(|t|) + ParseNat(t)
    ensures ParseNat(t) < Pow10(|t|)
    decreases |t|
  {
    if t == "" {
      assert s + t == s;
    } else {
      var u := t[..|t| - 1];
      ParseConcat(s, u);
      assert (s + t)[..|s + t| - 1] == s + u;
      var a, p := ParseNat(s), Pow10(|u|);
      assert Pow10(|t|) == 10 * p;
      PowStep(a, |t|);
      assert ParseNat(s + t) == 10 * ParseNat(s + u) + DigitValue(t[|t| - 1]);
      assert ParseNat(t) == 10 * ParseNat(u) + DigitValue(t[|t| - 1]);
      hide *;
    }
  }

  lemma {:induction false} ParseZeros(k: nat)
    ensures ParseNat(Zeros(k)) == 0
  {
    if k > 0 {
      ParseZeros(k - 1);
      assert Zeros(k)[..k - 1] == Zeros(k - 1);
    }
  }

  /** Strings of equal length are told apart by their numbers. */
  lemma {:induction false} FixedWidthIsInjective(s: string, t: string)
    requires AllDigits(s) && AllDigits(t) && |s| == |t| && ParseNat(s) == ParseNat(t)
    ensures s == t
    decreases |s|
  {
    if s != "" {
      var n := |s| - 1;
      FixedWidthIsInjective(s[..n], t[..n]);
      assert DigitValue(s[n]) == DigitValue(t[n]);
      assert s == s[..n] + [s[n]] && t == t[..n] + [t[n]];
    }
  }

  /** A whole part is the one way to write its number. */
  lemma {:induction false} WholeIsPrinted(s: string)
    requires Whole(s)
    ensures AllDigits(s) && s == PrintNat(ParseNat(s))
    decreases |s|
  {
    var n := |s| - 1;
    if n > 0 {
      WholeIsPrinted(s[..n]);
      assert s[..n] == PrintNat(ParseNat(s[..n]));
      WholeIsPositive(s[..n]);
      assert s == s[..n] + [s[n]];
    } else {
      assert s[..0] == "";
    }
  }

  lemma {:induction false} WholeIsPositive(s: string)
    requires AllDigits(s) && s != "" && s[0] != '0'
    ensures ParseNat(s) > 0
    decreases |s|
  {
    if |s| > 1 {
      WholeIsPositive(s[..|s| - 1]);
    }
  }

  // ---------------------------------------------------------------------
  // Canonical text
  // ---------------------------------------------------------------------

  /** No trailing zero in the fraction, and no minus on zero. */
  predicate Canonical(t: Text) {
    && Grammatical(t)
    && (t.fraction == "" || t.fraction[|t.fraction| - 1] != '0')
    && (t.neg ==> ParseNat(t.whole + t.fraction) > 0)
  }

  /** How the canonical text of a nonzero decimal comes apart. */
  function Parts(d: Decimal): (t: Text)
    requires d.coefficient > 0
  {
    if d.exponent >= 0 then Text(d.neg, PrintNat(d.coefficient) + Zeros(d.exponent), "")
    else
      var s := Padded(d);
      Text(d.neg, s[..|s| + d.exponent], RStrip(s[|s| + d.exponent..], '0'))
  }

  lemma {:induction false} RStripPrefix(s: string, f: string, c: char)
    requires s == "" || s[|s| - 1] != c
    ensures RStrip(s + f, c) == s + RStrip(f, c)
    decreases |f|
  {
    if f == "" {
      assert s + f == s;
    } else if f[|f| - 1] == c {
      RStripPrefix(s, f[..|f| - 1], c);
      assert (s + f)[..|s + f| - 1] == s + f[..|f| - 1];
    }
  }

  lemma PointDropped(head: string)
    requires head != "" && IsDigit(head[|head| - 1])
    ensures RStrip(head + ".", '.') == head
  {
    var s := head + ".";
    assert s[|s| - 1] == '.' && s[..|s| - 1] == head;
  }

  lemma PointKept(head: string, f: string)
    requires AllDigits(f) && f != ""
    ensures RStrip((head + ".") + f, '.') == head + ("." + f)
  {
    var s := (head + ".") + f;
    assert s[|s| - 1] == f[|f| - 1];
    assert s == head + ("." + f);
  }

  lemma PointStripped(head: string, f: string)
    requires head != "" && IsDigit(head[|head| - 1]) && AllDigits(f)
    ensures RStrip(RStrip((head + ".") + f, '0'), '.') ==
            head + if RStrip(f, '0') == "" then "" else "." + RStrip(f, '0')
  {
    hide *;
    var stripped := RStrip(f, '0');
    RStripPrefix(head + ".", f, '0');
    RStripDigits(f);
    if stripped == "" {
      assert (head + ".") + stripped == head + "." && head + "" == head;
      PointDropped(head);
    } else {
      PointKept(head, stripped);
    }
  }

  lemma Rendered(neg: bool, whole: string, fraction: string)
    ensures Render(Text(neg, whole, fraction)) == (Sign(neg) + whole) + if fraction == "" then "" else "." + fraction
  {
    var tail := if fraction == "" then "" else "." + fraction;
    assert (Sign(neg) + whole) + tail == Sign(neg) + (whole + tail);
  }

  lemma HasPoint(head: string, f: string)
    ensures '.' in (head + ".") + f
  {
    assert ((head + ".") + f)[|head|] == '.';
  }

  lemma PointIsRendered(d: Decimal)
    requires d.coefficient > 0 && d.exponent < 0
    ensures Print(d) == Render(Parts(d))
  {
    var s := Padded(d);
    var w, f := s[..|s| + d.exponent], s[|s| + d.exponent..];
    var head := Sign(d.neg) + w;
    assert AllDigits(f) && head[|head| - 1] == w[|w| - 1] && IsDigit(w[|w| - 1]);
    hide AllDigits, Padded, RStrip, Sign, Render;
    assert FixedPoint(d) == (head + ".") + f;
    HasPoint(head, f);
    PointStripped(head, f);
    Rendered(d.neg, w, RStrip(f, '0'));
  }

  lemma PrintIsRendered(d: Decimal)
    requires d.coefficient > 0
    ensures Print(d) == Render(Parts(d))
  {
    if d.exponent >= 0 {
      hide RStrip, PrintNat, Zeros;
      assert forall i :: 0 <= i < |FixedPoint(d)| ==> FixedPoint(d)[i] != '.';
      assert Sign(d.neg) + (PrintNat(d.coefficient) + Zeros(d.exponent)) + "" == FixedPoint(d);
    } else {
      PointIsRendered(d);
    }
  }

  /** Stripping zeros keeps the number and leaves no trailing zero. */
  lemma {:induction false} RStripDigits(f: string)
    requires AllDigits(f)
    ensures var r := RStrip(f, '0');
      && AllDigits(r) && |r| <= |f| && f == r + Zeros(|f| - |r|) && (r == "" || r[|r| - 1] != '0')
    decreases |f|
  {
    if f != "" && f[|f| - 1] == '0' {
      var g := f[..|f| - 1];
      RStripDigits(g);
      var r := RStrip(g, '0');
      assert Zeros(|g| - |r|) + "0" == Zeros(|f| - |r|);
      assert f == g + "0" == r + (Zeros(|g| - |r|) + "0");
    } else {
      assert f + Zeros(0) == f;
    }
  }

  lemma PaddedIsCoefficient(d: Decimal)
    requires d.exponent < 0
    ensures ParseNat(Padded(d)) == d.coefficient
    ensures d.coefficient > 0 ==> Whole(Padded(d)[..|Padded(d)| + d.exponent])
  {
    hide ParseNat, PrintNat, Pow10;
    var digits := PrintNat(d.coefficient);
    ParsePrintNat(d.coefficient);
    var k := -d.exponent;
    if |digits| <= k {
      var z := Zeros(1 + k - |digits|);
      ParseZeros(|z|);
      ParseConcat(z, digits);
      assert Padded(d)[..|Padded(d)| - k] == "0";
    }
  }

  lemma WholePartsAreCanonical(d: Decimal)
    requires d.coefficient > 0 && d.exponent >= 0
    ensures Canonical(Parts(d)) && Value(Read(Parts(d))) == Value(d)
  {
    var digits, z := PrintNat(d.coefficient), Zeros(d.exponent);
    var w := digits + z;
    ParsePrintNat(d.coefficient);
    ParseZeros(d.exponent);
    assert AllDigits(w);
    ParseConcat(digits, z);
    assert ParseNat(w) == d.coefficient * Pow10(d.exponent);
    assert w[0] == digits[0];
    WholeIsPositive(w);
    Rescale(d.neg, d.coefficient, 0, d.exponent);
    assert w + "" == w;
  }

  lemma PointPartsAreCanonical(d: Decimal)
    requires d.coefficient > 0 && d.exponent < 0
    ensures Canonical(Parts(d)) && Value(Read(Parts(d))) == Value(d)
  {
    hide Padded, PrintNat, ParseNat, Value, Zeros;
    var s := Padded(d);
    var w, f := s[..|s| + d.exponent], s[|s| + d.exponent..];
    assert AllDigits(w) && AllDigits(f);
    PaddedIsCoefficient(d);
    RStripDigits(f);
    var r := RStrip(f, '0');
    var z := Zeros(|f| - |r|);
    ParseZeros(|z|);
    assert s == (w + r) + z;
    assert AllDigits(w + r);
    ParseConcat(w + r, z);
    var n := ParseNat(w + r);
    assert n * Pow10(|z|) == d.coefficient;
    assert n > 0;
    Rescale(d.neg, n, d.exponent, |z|);
  }

  /** The parts of a printed decimal are canonical and read back as an equal number. */
  lemma PartsAreCanonical(d: Decimal)
    requires d.coefficient > 0
    ensures Canonical(Parts(d)) && Value(Read(Parts(d))) == Value(d)
  {
    hide *;
    if d.exponent >= 0 {
      WholePartsAreCanonical(d);
    } else {
      PointPartsAreCanonical(d);
    }
  }

  /** A canonical text is determined by its number. */
  lemma CanonicalIsUnique(p: Text, q: Text)
    requires Canonical(p) && Canonical(q) && Value(Read(p)) == Value(Read(q))
    ensures p == q
  {
    if |p.fraction| < |q.fraction| {
      LongerFractionDiffers(p, q);
    } else if |q.fraction| < |p.fraction| {
      LongerFractionDiffers(q, p);
    } else {
      SameScale(Read(p), Read(q));
      ParseConcat(p.whole, p.fraction);
      ParseConcat(q.whole, q.fraction);
      QuotientsAgree(ParseNat(p.whole), ParseNat(q.whole), Pow10(|p.fraction|), ParseNat(p.fraction),
                     ParseNat(q.fraction));
      FixedWidthIsInjective(p.fraction, q.fraction);
      WholeIsPrinted(p.whole);
      WholeIsPrinted(q.whole);
    }
  }

  lemma GapTimes(a: nat, b: nat, m: nat)
    requires a < b
    ensures b * m >= a * m + m
  {
    assert b * m == a * m + (b - a) * m;
    assert (b - a) * m == m + (b - a - 1) * m;
  }

  lemma QuotientsAgree(a: nat, b: nat, m: nat, r: nat, s: nat)
    requires r < m && s < m && a * m + r == b * m + s
    ensures a == b && r == s
  {
    if a < b {
      GapTimes(a, b, m);
    } else if b < a {
      GapTimes(b, a, m);
    }
  }

  lemma LastDigitDiffers(a: bool, b: bool, x: nat, front: nat, last: nat)
    requires 0 < last < 10
    ensures (if a then 0 - 10 * x else 10 * x) != (if b then 0 - (10 * front + last) else 10 * front + last)
  {
  }

  lemma LongerFractionDiffers(p: Text, q: Text)
    requires Canonical(p) && Canonical(q) && |p.fraction| < |q.fraction|
    ensures Value(Read(p)) != Value(Read(q))
  {
    var j := |q.fraction| - |p.fraction|;
    var s := q.whole + q.fraction;
    assert s[|s| - 1] == q.fraction[|q.fraction| - 1];
    assert AllDigits(s) && AllDigits(p.whole + p.fraction);
    var last := DigitValue(s[|s| - 1]);
    assert last != 0;
    var c := ParseNat(p.whole + p.fraction);
    var front := ParseNat(s[..|s| - 1]);
    assert ParseNat(s) == 10 * front + last;
    var scaled := Decimal(p.neg, c * Pow10(j), -|q.fraction|);
    Rescale(p.neg, c, -|q.fraction|, j);
    PowStep(c, j);
    LastDigitDiffers(p.neg, q.neg, c * Pow10(j - 1), front, last);
    assert Signed(scaled) != Signed(Read(q));
    if Value(Read(p)) == Value(Read(q)) {
      SameScale(scaled, Read(q));
    }
  }

  const ZERO_TEXT := Text(false, "0", "")

  lemma PrintedZero(d: Decimal)
    requires d.coefficient == 0
    ensures Print(d) == Render(ZERO_TEXT) && Canonical(ZERO_TEXT) && Value(d) == 0.0 == Value(Read(ZERO_TEXT))
  {
    assert "0" + "" == "0";
    assert Signed(d) == 0 && Signed(Read(ZERO_TEXT)) == 0;
  }

  /** Printing always succeeds: the text matches the accepted grammar, is
      canonical, and reads back as an equal number. */
  lemma PrintReadsBack(d: Decimal)
    ensures Split(Print(d)).Some? && Canonical(Split(Print(d)).value)
    ensures Parse(Print(d)).Some? && Value(Parse(Print(d)).value) == Value(d)
  {
    if d.coefficient == 0 {
      PrintedZero(d);
      SplitRender(ZERO_TEXT);
    } else {
      PrintIsRendered(d);
      PartsAreCanonical(d);
      SplitRender(Parts(d));
    }
  }

  /** Two decimals print alike exactly when they are equal numbers. */
  lemma PrintAlikeIffEqual(a: Decimal, b: Decimal)
    ensures Print(a) == Print(b) <==> Value(a) == Value(b)
  {
    PrintReadsBack(a);
    PrintReadsBack(b);
    if Value(a) == Value(b) {
      CanonicalIsUnique(Split(Print(a)).value, Split(Print(b)).value);
    }
  }

  /** Re-printing accepted text gives its canonical form, which stays as it is;
      the text was that form already exactly when it is canonical. */
  lemma ReprintIsIdempotent(s: string)
    requires Parse(s).Some?
    ensures var r := Print(Parse(s).value);
      && Parse(r).Some? && Print(Parse(r).value) == r
      && (r == s <==> Canonical(Split(s).value))
  {
    var d := Parse(s).value;
    var r := Print(d);
    PrintReadsBack(d);
    PrintAlikeIffEqual(d, Parse(r).value);
    if Canonical(Split(s).value) {
      CanonicalIsUnique(Split(s).value, Split(r).value);
    }
  }

  /** Exactly the texts of the grammar are read: an optional minus, a whole part
      without leading zeros, and after a point at least one digit. */
  lemma ParseIff(s: string)
    ensures Parse(s).Some? <==> exists t :: Grammatical(t) && Render(t) == s
  {
    if Parse(s).Some? {
      assert Grammatical(Split(s).value) && Render(Split(s).value) == s;
    }
    forall t | Grammatical(t) && Render(t) == s
      ensures Parse(s) == Some(Read(t))
    {
      SplitRender(t);
    }
    hide Grammatical, Render, Split, Read;
  }

  /** The whole part plus the fraction. */
  function Size(t: Text): real
    requires Grammatical(t)
  {
    ParseNat(t.whole) as real + ParseNat(t.fraction) as real / Pow10(|t.fraction|) as real
  }

  /** A text reads as its place value, signed; its fraction is below one. */
  lemma ReadIsPlaceValue(t: Text)
    requires Grammatical(t)
    ensures Parse(Render(t)).Some? && Value(Parse(Render(t)).value) == if t.neg then 0.0 - Size(t) else Size(t)
    ensures ParseNat(t.fraction) < Pow10(|t.fraction|)
  {
    SplitRender(t);
    ParseConcat(t.whole, t.fraction);
    TenOfLength(|t.fraction|);
    SignedAndPlaced(t.neg, Read(t), ParseNat(t.whole), ParseNat(t.fraction), Pow10(|t.fraction|));
    hide ParseNat, Pow10, Render, Split, Ten, Value;
  }

  lemma TenOfLength(n: nat)
    ensures Ten(0 - n) == 1.0 / Pow10(n) as real
  {
    if n == 0 {
      assert Pow10(0) == 1;
    }
    hide Pow10;
  }

  lemma SignedAndPlaced(neg: bool, d: Decimal, w: nat, f: nat, p: nat)
    requires p > 0 && d.neg == neg && d.coefficient == w * p + f && Ten(d.exponent) == 1.0 / p as real
    ensures var size := w as real + f as real / p as real; Value(d) == if neg then 0.0 - size else size
  {
    Placed(d.coefficient, w, f, p);
    var t := 1.0 / p as real;
    assert (0 - d.coefficient) as real * t == 0.0 - d.coefficient as real * t;
    hide Ten;
  }

  lemma Placed(c: nat, w: nat, f: nat, p: nat)
    requires p > 0 && c == w * p + f
    ensures c as real * (1.0 / p as real) == w as real + f as real / p as real
  {
    var x, y, r := w as real, f as real, p as real;
    assert c as real == x * r + y;
    assert (x * r + y) * (1.0 / r) == x * (r * (1.0 / r)) + y * (1.0 / r) == x + y / r;
  }
}
