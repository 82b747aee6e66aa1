/** The strict typed codec: values to JSON-native primitives and back by a type description. */
module Codec {
  import opened Common
  import D = Decimals

  // ---------------------------------------------------------------------
  // Values, primitives and type descriptions
  // ---------------------------------------------------------------------

  datatype Number = Finite(d: D.Decimal) | NonFinite

  /** An instant and the offset it is written with; no offset means a naive timestamp. */
  datatype Time = Time(instant: int, offset: Option<int>)

  datatype Slot = Slot(name: string, value: Val)

  datatype Val =
    | VNone
    | VBool(bit: bool)
    | VInt(n: int)
    | VStr(s: string)
    | VDecimal(number: Number)
    | VTime(time: Time)
    | VEnum(name: string, member: string)
    | VTuple(items: seq<Val>)
    | VModel(name: string, slots: seq<Slot>)
    | VFloat

  /** JSON-native values; object keys are unordered. */
  datatype Prim =
    | PNull
    | PBool(bit: bool)
    | PInt(n: int)
    | PStr(s: string)
    | PArr(items: seq<Prim>)
    | PObj(fields: map<string, Prim>)

  datatype Field = Field(name: string, ty: Ty)

  datatype Ty =
    | TNone
    | TBool
    | TInt
    | TStr
    | TDecimal
    | TTime
    | TEnum(name: string, texts: set<string>)
    | TTuple(item: Ty)
    | TModel(name: string, fields: seq<Field>)
    | TUnion(members: seq<Ty>)
    | TFloat

  const MAX_COLLECTION_LENGTH := 10_000

  /** What the codec takes from outside: Unicode normalisation, timestamp text,
      and the validation each model class runs when it is constructed. */
  datatype Env = Env(
    nfc: string -> string,
    timeText: int -> string,
    readTime: string -> Option<Time>,
    admits: (string, seq<Slot>) -> bool)

  /** Normalising twice changes nothing more, and timestamp text in UTC reads back as its instant. */
  ghost predicate Lawful(env: Env) {
    && (forall s :: env.nfc(env.nfc(s)) == env.nfc(s))
    && (forall i :: env.readTime(env.timeText(i)) == Some(Time(i, Some(0))))
  }

  // ---------------------------------------------------------------------
  // Encoding and decoding
  // ---------------------------------------------------------------------

  function AllSome<T>(os: seq<Option<T>>): (r: Option<seq<T>>)
    ensures r.Some? <==> forall i :: 0 <= i < |os| ==> os[i].Some?
    ensures r.Some? ==> |r.value| == |os| && forall i :: 0 <= i < |os| ==> os[i] == Some(r.value[i])
  {
    if forall i :: 0 <= i < |os| ==> os[i].Some? then
      Some(seq(|os|, i requires 0 <= i < |os| && os[i].Some? => os[i].value))
    else None
  }

  function FirstSome<T>(os: seq<Option<T>>): (r: Option<T>)
    ensures r.None? <==> forall i :: 0 <= i < |os| ==> os[i].None?
    ensures r.Some? ==> exists k :: 0 <= k < |os| && os[k] == r && forall i :: 0 <= i < k ==> os[i].None?
  {
    if os == [] then None else if os[0].Some? then os[0] else FirstSome(os[1..])
  }

  /** The object with these field values; a repeated name keeps its last value. */
  function ToObject(slots: seq<Slot>, ps: seq<Prim>): (m: map<string, Prim>)
    requires |slots| == |ps|
    ensures forall k :: k in m <==> exists i :: 0 <= i < |slots| && slots[i].name == k
  {
    if slots == [] then map[]
    else
      var n := |slots| - 1;
      ToObject(slots[..n], ps[..n])[slots[n].name := ps[n]]
  }

  /** `to_primitive`; None stands for a raised SerializationError. */
  function Encode(env: Env, v: Val): Option<Prim> {
    match v
    case VNone => Some(PNull)
    case VBool(bit) => Some(PBool(bit))
    case VInt(n) => Some(PInt(n))
    case VStr(s) => Some(PStr(env.nfc(s)))
    case VDecimal(NonFinite) => None
    case VDecimal(Finite(d)) => if D.Split(D.Print(d)).Some? then Some(PStr(D.Print(d))) else None
    case VTime(time) => if time.offset.Some? then Some(PStr(env.timeText(time.instant))) else None
    case VEnum(_, member) => Some(PStr(env.nfc(member)))
    case VTuple(items) =>
      if |items| > MAX_COLLECTION_LENGTH then None
      else
        (match AllSome(seq(|items|, i requires 0 <= i < |items| => Encode(env, items[i])))
         case Some(ps) => Some(PArr(ps))
         case None => None)
    case VModel(_, slots) =>
      (match AllSome(seq(|slots|, i requires 0 <= i < |slots| => Encode(env, slots[i].value)))
       case Some(ps) => Some(PObj(ToObject(slots, ps)))
       case None => None)
    case VFloat => None
  }

  function Names(fields: seq<Field>): set<string> {
    set i | 0 <= i < |fields| :: fields[i].name
  }

  /** `_decode`; None stands for a raised error. */
  function Decode(env: Env, ty: Ty, p: Prim): Option<Val>
    decreases ty
  {
    match ty
    case TUnion(members) => FirstSome(seq(|members|, i requires 0 <= i < |members| => Decode(env, members[i], p)))
    case TTuple(item) =>
      if !p.PArr? || |p.items| > MAX_COLLECTION_LENGTH then None
      else
        (match AllSome(seq(|p.items|, i requires 0 <= i < |p.items| => Decode(env, item, p.items[i])))
         case Some(vs) => Some(VTuple(vs))
         case None => None)
    case TNone => if p.PNull? then Some(VNone) else None
    case TTime =>
      if !p.PStr? then None
      else
        (match env.readTime(p.s)
         case Some(time) => if time.offset.Some? then Some(VTime(time)) else None
         case None => None)
    case TDecimal =>
      if !p.PStr? then None
      else
        (match D.Parse(p.s)
         case Some(d) => Some(VDecimal(Finite(d)))
         case None => None)
    case TEnum(name, texts) => if p.PStr? && p.s in texts then Some(VEnum(name, p.s)) else None
    case TModel(name, fields) =>
      if !p.PObj? || p.fields.Keys != Names(fields) then None
      else
        (match AllSome(seq(|fields|, i requires 0 <= i < |fields| =>
                             assert fields[i].name in Names(fields);
                             Decode(env, fields[i].ty, p.fields[fields[i].name])))
         case Some(vs) =>
           var slots := seq(|fields|, i requires 0 <= i < |fields| => Slot(fields[i].name, vs[i]));
           if env.admits(name, slots) then Some(VModel(name, slots)) else None
         case None => None)
    case TStr => if p.PStr? then Some(VStr(p.s)) else None
    case TBool => if p.PBool? then Some(VBool(p.bit)) else None
    case TInt => if p.PInt? then Some(VInt(p.n)) else None
    case TFloat => None
  }

  // ---------------------------------------------------------------------
  // What round trips
  // ---------------------------------------------------------------------

  /** What comes back: strings in NFC, decimals as their canonical text reads, times in UTC. */
  function Norm(env: Env, v: Val): Val {
    match v
    case VStr(s) => VStr(env.nfc(s))
    case VDecimal(Finite(d)) =>
      (match D.Parse(D.Print(d))
       case Some(read) => VDecimal(Finite(read))
       case None => v)
    case VTime(time) => VTime(Time(time.instant, Some(0)))
    case VTuple(items) => VTuple(seq(|items|, i requires 0 <= i < |items| => Norm(env, items[i])))
    case VModel(name, slots) =>
      VModel(name, seq(|slots|, i requires 0 <= i < |slots| => Slot(slots[i].name, Norm(env, slots[i].value))))
    case _ => v
  }

  /** Every decimal is finite, every time aware, every collection within the limit and nothing is a float. */
  predicate Encodable(v: Val) {
    match v
    case VDecimal(number) => number.Finite?
    case VTime(time) => time.offset.Some?
    case VTuple(items) => |items| <= MAX_COLLECTION_LENGTH && forall i :: 0 <= i < |items| ==> Encodable(items[i])
    case VModel(_, slots) => forall i :: 0 <= i < |slots| ==> Encodable(slots[i].value)
    case VFloat => false
    case _ => true
  }

  /** `v` is a value of the described type, and each model class accepts the normal form of its fields. */
  predicate HasType(env: Env, ty: Ty, v: Val)
    decreases ty
  {
    match ty
    case TNone => v.VNone?
    case TBool => v.VBool?
    case TInt => v.VInt?
    case TStr => v.VStr?
    case TDecimal => v.VDecimal?
    case TTime => v.VTime?
    case TEnum(name, texts) => v.VEnum? && v.name == name && v.member in texts
    case TTuple(item) => v.VTuple? && forall i :: 0 <= i < |v.items| ==> HasType(env, item, v.items[i])
    case TModel(name, fields) =>
      && v.VModel? && v.name == name && |v.slots| == |fields|
      && (forall i :: 0 <= i < |fields| ==>
                        v.slots[i].name == fields[i].name && HasType(env, fields[i].ty, v.slots[i].value))
      && env.admits(name, Norm(env, v).slots)
    case TUnion(members) => exists i :: 0 <= i < |members| && HasType(env, members[i], v)
    case TFloat => false
  }

  /** What a primitive looks like from outside. */
  datatype Shape = Null | Boolean | Integer | Text | Array | Object(names: set<string>)

  function ShapeOf(p: Prim): Shape {
    match p
    case PNull => Null
    case PBool(_) => Boolean
    case PInt(_) => Integer
    case PStr(_) => Text
    case PArr(_) => Array
    case PObj(fields) => Object(fields.Keys)
  }

  /** Whether a type's values are ever encoded in this shape. */
  predicate Takes(ty: Ty, shape: Shape)
    decreases ty
  {
    match ty
    case TNone => shape.Null?
    case TBool => shape.Boolean?
    case TInt => shape.Integer?
    case TStr => shape.Text?
    case TDecimal => shape.Text?
    case TTime => shape.Text?
    case TEnum(_, _) => shape.Text?
    case TTuple(_) => shape.Array?
    case TModel(_, fields) => shape == Object(Names(fields))
    case TUnion(members) => exists i :: 0 <= i < |members| && Takes(members[i], shape)
    case TFloat => false
  }

  ghost predicate Disjoint(a: Ty, b: Ty) {
    forall shape :: !(Takes(a, shape) && Takes(b, shape))
  }

  /** A type whose values are each one text. */
  predicate TextLeaf(ty: Ty) {
    ty.TStr? || ty.TDecimal? || ty.TTime? || ty.TEnum?
  }

  /** The values of the two types are of different classes. */
  predicate OtherClass(a: Ty, b: Ty) {
    a != b && !(a.TEnum? && b.TEnum? && a.name == b.name)
  }

  /** The texts that a type's values are encoded as. */
  ghost predicate Writes(env: Env, ty: Ty, text: string) {
    match ty
    case TStr => env.nfc(text) == text
    case TDecimal => exists d :: D.Print(d) == text
    case TTime => exists i :: env.timeText(i) == text
    case TEnum(_, texts) => text in texts
    case _ => false
  }

  /** The texts that a type decodes. */
  predicate Reads(env: Env, ty: Ty, text: string) {
    match ty
    case TStr => true
    case TDecimal => D.Parse(text).Some?
    case TTime => env.readTime(text).Some? && env.readTime(text).value.offset.Some?
    case TEnum(_, texts) => text in texts
    case _ => false
  }

  /** Some text of the second type is read by the first. */
  ghost predicate Clash(env: Env, a: Ty, b: Ty) {
    exists text :: Writes(env, b, text) && Reads(env, a, text)
  }

  ghost predicate Clashing(env: Env, a: Ty, b: Ty) {
    TextLeaf(a) && TextLeaf(b) && Clash(env, a, b)
  }

  /** Two union members, in this order, do not take each other's values: their
      shapes are disjoint, or they are texts of different classes and the
      first reads none that the second writes. */
  ghost predicate Apart(env: Env, a: Ty, b: Ty) {
    Disjoint(a, b) || (TextLeaf(a) && TextLeaf(b) && OtherClass(a, b) && !Clash(env, a, b))
  }

  /** Union members are apart, field names are distinct, enum members are in NFC. */
  ghost predicate Described(env: Env, ty: Ty)
    decreases ty
  {
    match ty
    case TEnum(_, texts) => forall m :: m in texts ==> env.nfc(m) == m
    case TTuple(item) => Described(env, item)
    case TModel(_, fields) =>
      && (forall i, j :: 0 <= i < j < |fields| ==> fields[i].name != fields[j].name)
      && (forall i :: 0 <= i < |fields| ==> Described(env, fields[i].ty))
    case TUnion(members) =>
      && (forall i, j :: 0 <= i < j < |members| ==> Apart(env, members[i], members[j]))
      && (forall i :: 0 <= i < |members| ==> Described(env, members[i]))
    case _ => true
  }

  /** Encoding raises for exactly the values that are not encodable: the text of a finite decimal is never refused. */
  lemma {:induction false} EncodeSucceedsIff(env: Env, v: Val)
    ensures Encode(env, v).Some? <==> Encodable(v)
  {
    match v
    case VDecimal(Finite(d)) => D.PrintReadsBack(d);
    case VTuple(items) =>
      var os := seq(|items|, i requires 0 <= i < |items| => Encode(env, items[i]));
      forall i | 0 <= i < |items| ensures os[i].Some? <==> Encodable(items[i]) {
        EncodeSucceedsIff(env, items[i]);
      }
      assert AllSome(os).Some? <==> forall i :: 0 <= i < |items| ==> Encodable(items[i]);
    case VModel(_, slots) =>
      var os := seq(|slots|, i requires 0 <= i < |slots| => Encode(env, slots[i].value));
      forall i | 0 <= i < |slots| ensures os[i].Some? <==> Encodable(slots[i].value) {
        EncodeSucceedsIff(env, slots[i].value);
      }
      assert AllSome(os).Some? <==> forall i :: 0 <= i < |slots| ==> Encodable(slots[i].value);
    case _ =>
  }

  lemma {:induction false} ObjectHolds(slots: seq<Slot>, ps: seq<Prim>)
    requires |slots| == |ps| && forall i, j :: 0 <= i < j < |slots| ==> slots[i].name != slots[j].name
    ensures forall i :: 0 <= i < |slots| ==>
                          slots[i].name in ToObject(slots, ps) && ToObject(slots, ps)[slots[i].name] == ps[i]
  {
    if slots != [] {
      var n := |slots| - 1;
      var front := ToObject(slots[..n], ps[..n]);
      ObjectHolds(slots[..n], ps[..n]);
      assert ToObject(slots, ps) == front[slots[n].name := ps[n]];
      hide ToObject;
      forall i | 0 <= i < |slots|
        ensures slots[i].name in ToObject(slots, ps) && ToObject(slots, ps)[slots[i].name] == ps[i]
      {
        if i < n {
          assert slots[..n][i] == slots[i] && ps[..n][i] == ps[i];
        }
      }
    }
  }

  lemma ObjectKeys(fields: seq<Field>, slots: seq<Slot>, ps: seq<Prim>)
    requires |slots| == |ps| == |fields| && forall i :: 0 <= i < |fields| ==> slots[i].name == fields[i].name
    ensures ToObject(slots, ps).Keys == Names(fields)
  {
    forall k
      ensures k in ToObject(slots, ps).Keys <==> k in Names(fields)
    {
      if k in Names(fields) {
        var i :| 0 <= i < |fields| && fields[i].name == k;
        assert slots[i].name == k;
      }
    }
  }

  lemma ModelEncoded(env: Env, slots: seq<Slot>, name: string) returns (ps: seq<Prim>)
    requires Encode(env, VModel(name, slots)).Some?
    ensures |ps| == |slots| && Encode(env, VModel(name, slots)) == Some(PObj(ToObject(slots, ps)))
    ensures forall i :: 0 <= i < |slots| ==> Encode(env, slots[i].value) == Some(ps[i])
  {
    var os := seq(|slots|, i requires 0 <= i < |slots| => Encode(env, slots[i].value));
    ps := AllSome(os).value;
    forall i | 0 <= i < |slots| ensures Encode(env, slots[i].value) == Some(ps[i]) {
      assert os[i] == Some(ps[i]);
    }
  }

  lemma ModelShape(env: Env, ty: Ty, v: Val)
    requires ty.TModel? && HasType(env, ty, v) && Encode(env, v).Some?
    ensures Takes(ty, ShapeOf(Encode(env, v).value))
  {
    assert v == VModel(v.name, v.slots) && |v.slots| == |ty.fields|;
    assert forall i :: 0 <= i < |ty.fields| ==> v.slots[i].name == ty.fields[i].name;
    hide Encode, HasType, Names, ToObject;
    var ps := ModelEncoded(env, v.slots, v.name);
    ObjectKeys(ty.fields, v.slots, ps);
  }

  lemma LeafShape(env: Env, ty: Ty, v: Val)
    requires !ty.TModel? && !ty.TUnion? && HasType(env, ty, v) && Encode(env, v).Some?
    ensures Takes(ty, ShapeOf(Encode(env, v).value))
  {
    hide Norm, D.Print, D.Split, ToObject, AllSome;
  }

  /** A value is encoded in a shape its type takes. */
  lemma {:induction false} EncodedShape(env: Env, ty: Ty, v: Val)
    requires HasType(env, ty, v) && Encode(env, v).Some?
    ensures Takes(ty, ShapeOf(Encode(env, v).value))
    decreases ty
  {
    hide Encode, Names, Norm, ShapeOf;
    if ty.TModel? {
      ModelShape(env, ty, v);
    } else if ty.TUnion? {
      var i :| 0 <= i < |ty.members| && HasType(env, ty.members[i], v);
      EncodedShape(env, ty.members[i], v);
    } else {
      LeafShape(env, ty, v);
    }
  }

  /** A type decodes only primitives of a shape it takes. */
  lemma {:induction false} DecodedShape(env: Env, ty: Ty, p: Prim)
    requires Decode(env, ty, p).Some?
    ensures Takes(ty, ShapeOf(p))
    decreases ty
  {
    if ty.TUnion? {
      var i :| 0 <= i < |ty.members| && Decode(env, ty.members[i], p).Some?;
      DecodedShape(env, ty.members[i], p);
    }
  }

  lemma {:induction false} RoundTripTuple(env: Env, item: Ty, items: seq<Val>)
    requires Lawful(env) && Described(env, item) && Encode(env, VTuple(items)).Some?
    requires forall i :: 0 <= i < |items| ==> HasType(env, item, items[i])
    ensures Decode(env, TTuple(item), Encode(env, VTuple(items)).value) == Some(Norm(env, VTuple(items)))
    decreases item, 2
  {
    hide Lawful, Described, HasType;
    var os := seq(|items|, i requires 0 <= i < |items| => Encode(env, items[i]));
    var ps := AllSome(os).value;
    var rs := seq(|ps|, i requires 0 <= i < |ps| => Decode(env, item, ps[i]));
    forall i | 0 <= i < |items|
      ensures rs[i] == Some(Norm(env, items[i]))
    {
      assert os[i] == Some(ps[i]);
      RoundTrip(env, item, items[i]);
    }
    assert AllSome(rs).value == Norm(env, VTuple(items)).items;
  }

  lemma ModelDecoded(env: Env, name: string, fields: seq<Field>, obj: map<string, Prim>, slots: seq<Slot>)
    requires obj.Keys == Names(fields) && |slots| == |fields| && env.admits(name, slots)
    requires forall i :: 0 <= i < |fields| ==>
                           fields[i].name in obj && slots[i].name == fields[i].name
                           && Decode(env, fields[i].ty, obj[fields[i].name]) == Some(slots[i].value)
    ensures Decode(env, TModel(name, fields), PObj(obj)) == Some(VModel(name, slots))
  {
    var rs := seq(|fields|, i requires 0 <= i < |fields| =>
                    assert fields[i].name in Names(fields); Decode(env, fields[i].ty, obj[fields[i].name]));
    assert forall i :: 0 <= i < |fields| ==> rs[i] == Some(slots[i].value);
    var vs := AllSome(rs).value;
    assert seq(|fields|, i requires 0 <= i < |fields| => Slot(fields[i].name, vs[i])) == slots;
  }

  lemma {:induction false} RoundTripModel(env: Env, ty: Ty, v: Val)
    requires ty.TModel? && Lawful(env) && Described(env, ty) && HasType(env, ty, v) && Encode(env, v).Some?
    ensures Decode(env, ty, Encode(env, v).value) == Some(Norm(env, v))
    decreases ty, 0
  {
    hide Decode, Encode, D.Parse, D.Print, Apart, Lawful, ToObject, Names;
    assert v.VModel? && v.name == ty.name && |v.slots| == |ty.fields|;
    var fields, slots := ty.fields, v.slots;
    assert env.admits(ty.name, Norm(env, v).slots);
    assert forall i :: 0 <= i < |fields| ==>
                         slots[i].name == fields[i].name && HasType(env, fields[i].ty, slots[i].value);
    assert forall i, j :: 0 <= i < j < |fields| ==> fields[i].name != fields[j].name;
    assert forall i :: 0 <= i < |fields| ==> Described(env, fields[i].ty);
    var ps := ModelEncoded(env, slots, v.name);
    var obj := ToObject(slots, ps);
    ObjectKeys(fields, slots, ps);
    ObjectHolds(slots, ps);
    forall i | 0 <= i < |fields|
      ensures fields[i].name in obj && Norm(env, v).slots[i] == Slot(fields[i].name, Norm(env, slots[i].value))
      ensures Decode(env, fields[i].ty, obj[fields[i].name]) == Some(Norm(env, slots[i].value))
    {
      assert slots[i].name in obj && obj[slots[i].name] == ps[i];
      RoundTrip(env, fields[i].ty, slots[i].value);
    }
    ModelDecoded(env, ty.name, fields, obj, Norm(env, v).slots);
  }

  /** A union tries its members in order. */
  lemma UnionDecodes(env: Env, members: seq<Ty>, p: Prim) returns (rs: seq<Option<Val>>)
    ensures |rs| == |members| && forall j :: 0 <= j < |members| ==> rs[j] == Decode(env, members[j], p)
    ensures Decode(env, TUnion(members), p) == FirstSome(rs)
  {
    rs := seq(|members|, j requires 0 <= j < |members| => Decode(env, members[j], p));
    hide FirstSome;
  }

  /** A union decodes with the first member that can. */
  lemma FirstMember(env: Env, members: seq<Ty>, p: Prim, i: nat)
    requires i < |members| && Decode(env, members[i], p).Some?
    requires forall j :: 0 <= j < i ==> Decode(env, members[j], p).None?
    ensures Decode(env, TUnion(members), p) == Decode(env, members[i], p)
  {
    hide *;
    var rs := UnionDecodes(env, members, p);
    assert forall j :: 0 <= j < i ==> rs[j].None?;
    assert FirstSome(rs) == rs[i];
  }

  /** What a value of a leaf type looks like. */
  predicate OfLeaf(ty: Ty, v: Val) {
    match ty
    case TStr => v.VStr?
    case TDecimal => v.VDecimal?
    case TTime => v.VTime?
    case TEnum(name, _) => v.VEnum? && v.name == name
    case _ => false
  }

  lemma LeafReads(env: Env, ty: Ty, p: Prim)
    requires TextLeaf(ty)
    ensures Decode(env, ty, p).Some? <==> p.PStr? && Reads(env, ty, p.s)
    ensures Decode(env, ty, p).Some? ==> OfLeaf(ty, Decode(env, ty, p).value)
  {
    hide D.Parse;
  }

  lemma LeafWrites(env: Env, ty: Ty, v: Val)
    requires TextLeaf(ty) && Lawful(env) && Described(env, ty) && HasType(env, ty, v) && Encode(env, v).Some?
    ensures Encode(env, v).value.PStr? && Writes(env, ty, Encode(env, v).value.s) && OfLeaf(ty, Norm(env, v))
  {
    hide D.Parse, D.Print, D.Split;
    if ty.TDecimal? {
      assert D.Print(v.number.d) == Encode(env, v).value.s;
    } else if ty.TTime? {
      assert env.timeText(v.time.instant) == Encode(env, v).value.s;
    }
  }

  /** Every text that a leaf type writes is written for one of its values. */
  lemma LeafWriter(env: Env, ty: Ty, text: string) returns (v: Val)
    requires Described(env, ty) && Writes(env, ty, text)
    ensures HasType(env, ty, v) && Encode(env, v) == Some(PStr(text))
  {
    hide D.Parse, D.Print, D.Split;
    match ty {
      case TStr =>
        v := VStr(text);
      case TDecimal =>
        var d :| D.Print(d) == text;
        D.PrintReadsBack(d);
        v := VDecimal(Finite(d));
      case TTime =>
        var i :| env.timeText(i) == text;
        v := VTime(Time(i, Some(0)));
      case TEnum(name, _) =>
        v := VEnum(name, text);
    }
  }

  lemma LeavesClash(env: Env, a: Ty, b: Ty, v: Val)
    requires TextLeaf(a) && TextLeaf(b) && Lawful(env) && Described(env, b)
    requires HasType(env, b, v) && Encode(env, v).Some? && Decode(env, a, Encode(env, v).value).Some?
    ensures Clash(env, a, b)
  {
    LeafReads(env, a, Encode(env, v).value);
    LeafWrites(env, b, v);
    hide Decode, Encode, HasType, Described, Lawful, Norm, Writes, Reads;
  }

  /** A member that is apart from a later one decodes none of its values. */
  lemma ApartReadsNothing(env: Env, a: Ty, b: Ty, v: Val)
    requires Lawful(env) && Described(env, b) && HasType(env, b, v) && Encode(env, v).Some? && Apart(env, a, b)
    ensures Decode(env, a, Encode(env, v).value).None?
  {
    var p := Encode(env, v).value;
    EncodedShape(env, b, v);
    hide Decode, Encode, HasType, Described, Lawful, Takes, ShapeOf, Clash;
    if Decode(env, a, p).Some? {
      DecodedShape(env, a, p);
      assert !Disjoint(a, b);
      LeavesClash(env, a, b, v);
      assert false;
    }
  }

  lemma {:induction false} RoundTripUnion(env: Env, ty: Ty, v: Val)
    requires ty.TUnion? && Lawful(env) && Described(env, ty) && HasType(env, ty, v) && Encode(env, v).Some?
    ensures Decode(env, ty, Encode(env, v).value) == Some(Norm(env, v))
    decreases ty, 0
  {
    var members, p := ty.members, Encode(env, v).value;
    var i :| 0 <= i < |members| && HasType(env, members[i], v);
    assert Described(env, members[i]);
    RoundTrip(env, members[i], v);
    forall j | 0 <= j < i
      ensures Decode(env, members[j], p).None?
    {
      assert Apart(env, members[j], members[i]);
      ApartReadsNothing(env, members[j], members[i], v);
    }
    FirstMember(env, members, p, i);
    hide Decode, Encode, Norm, Lawful, Apart;
  }

  lemma RoundTripLeaf(env: Env, ty: Ty, v: Val)
    requires !ty.TTuple? && !ty.TModel? && !ty.TUnion?
    requires Lawful(env) && Described(env, ty) && HasType(env, ty, v) && Encode(env, v).Some?
    ensures Decode(env, ty, Encode(env, v).value) == Some(Norm(env, v))
  {
    hide D.Parse;
    if ty.TDecimal? {
      D.PrintReadsBack(v.number.d);
    } else if ty.TTime? {
    } else if ty.TEnum? {
    }
  }

  /** Decoding an encoding gives the value back in normal form. */
  lemma {:induction false} RoundTrip(env: Env, ty: Ty, v: Val)
    requires Lawful(env) && Described(env, ty) && HasType(env, ty, v) && Encode(env, v).Some?
    ensures Decode(env, ty, Encode(env, v).value) == Some(Norm(env, v))
    decreases ty, 1
  {
    hide Decode, Disjoint, Encode, Lawful, Norm;
    if ty.TTuple? {
      assert v == VTuple(v.items) && Described(env, ty.item)
             && forall i :: 0 <= i < |v.items| ==> HasType(env, ty.item, v.items[i]);
      RoundTripTuple(env, ty.item, v.items);
    } else if ty.TModel? {
      RoundTripModel(env, ty, v);
    } else if ty.TUnion? {
      RoundTripUnion(env, ty, v);
    } else {
      RoundTripLeaf(env, ty, v);
    }
  }

  // ---------------------------------------------------------------------
  // What encoding writes
  // ---------------------------------------------------------------------

  /** The text is the canonical one of a number equal to `d`. */
  ghost predicate TextOf(s: string, d: D.Decimal) {
    exists t :: D.Canonical(t) && D.Render(t) == s && D.Value(D.Read(t)) == D.Value(d)
  }

  lemma DecimalText(s: string, d: D.Decimal)
    ensures s == D.Print(d) <==> TextOf(s, d)
  {
    D.PrintReadsBack(d);
    var printed := D.Split(D.Print(d)).value;
    if t :| D.Canonical(t) && D.Render(t) == s && D.Value(D.Read(t)) == D.Value(d) {
      D.CanonicalIsUnique(t, printed);
    }
    hide D.Print, D.Render, D.Read, D.Value, D.Split, D.Canonical;
  }

  /** No later slot has the same name. */
  ghost predicate LastNamed(slots: seq<Slot>, i: int)
    requires 0 <= i < |slots|
  {
    forall j :: i < j < |slots| ==> slots[j].name != slots[i].name
  }

  /** The primitive shows the value: text in NFC, decimals canonical, times by
      their instant, and a model as exactly its fields. */
  ghost predicate Represents(env: Env, v: Val, p: Prim)
    decreases v
  {
    match v
    case VNone => p == PNull
    case VBool(bit) => p == PBool(bit)
    case VInt(n) => p == PInt(n)
    case VStr(s) => p == PStr(env.nfc(s))
    case VDecimal(number) => number.Finite? && p.PStr? && TextOf(p.s, number.d)
    case VTime(time) => time.offset.Some? && p == PStr(env.timeText(time.instant))
    case VEnum(_, member) => p == PStr(env.nfc(member))
    case VTuple(items) =>
      && p.PArr? && |p.items| == |items| <= 10_000
      && forall i :: 0 <= i < |items| ==> Represents(env, items[i], p.items[i])
    case VModel(_, slots) =>
      && p.PObj? && HasNames(slots, p.fields) && (forall i :: 0 <= i < |slots| ==> Encodable(slots[i].value))
      && (forall i :: 0 <= i < |slots| && LastNamed(slots, i) ==>
            slots[i].name in p.fields && Represents(env, slots[i].value, p.fields[slots[i].name]))
    case VFloat => false
  }

  lemma {:induction false} LastWins(slots: seq<Slot>, ps: seq<Prim>, i: nat)
    requires |slots| == |ps| && i < |slots| && LastNamed(slots, i)
    ensures slots[i].name in ToObject(slots, ps) && ToObject(slots, ps)[slots[i].name] == ps[i]
  {
    var n := |slots| - 1;
    if i < n {
      LastWins(slots[..n], ps[..n], i);
    }
  }

  lemma {:induction false} SomeLast(slots: seq<Slot>, i: nat) returns (k: nat)
    requires i < |slots|
    ensures k < |slots| && slots[k].name == slots[i].name && LastNamed(slots, k)
    decreases |slots| - i
  {
    if LastNamed(slots, i) {
      k := i;
    } else {
      var j :| i < j < |slots| && slots[j].name == slots[i].name;
      k := SomeLast(slots, j);
    }
  }

  /** The object has exactly the names of the slots. */
  ghost predicate HasNames(slots: seq<Slot>, obj: map<string, Prim>) {
    forall key :: key in obj <==> exists i :: 0 <= i < |slots| && slots[i].name == key
  }

  /** The object holds the last value of each name. */
  ghost predicate HoldsLast(slots: seq<Slot>, ps: seq<Prim>, obj: map<string, Prim>)
    requires |slots| == |ps|
  {
    forall i :: 0 <= i < |slots| && LastNamed(slots, i) ==> slots[i].name in obj && obj[slots[i].name] == ps[i]
  }

  lemma ObjectHoldsLast(slots: seq<Slot>, ps: seq<Prim>)
    requires |slots| == |ps|
    ensures HasNames(slots, ToObject(slots, ps)) && HoldsLast(slots, ps, ToObject(slots, ps))
  {
    forall i | 0 <= i < |slots| && LastNamed(slots, i)
      ensures slots[i].name in ToObject(slots, ps) && ToObject(slots, ps)[slots[i].name] == ps[i]
    {
      LastWins(slots, ps, i);
    }
    hide ToObject, LastNamed;
  }

  lemma SameObject(slots: seq<Slot>, ps: seq<Prim>, a: map<string, Prim>, b: map<string, Prim>)
    requires |slots| == |ps| && HasNames(slots, a) && HoldsLast(slots, ps, a)
    requires HasNames(slots, b) && HoldsLast(slots, ps, b)
    ensures a == b
  {
    assert forall key :: key in a <==> key in b;
    forall key | key in a
      ensures a[key] == b[key]
    {
      var i :| 0 <= i < |slots| && slots[i].name == key;
      var k := SomeLast(slots, i);
      assert a[slots[k].name] == ps[k] && b[slots[k].name] == ps[k];
    }
    hide LastNamed;
  }

  lemma {:induction false} ModelEncodesIff(env: Env, v: Val, p: Prim)
    requires v.VModel?
    ensures Encode(env, v) == Some(p) <==> Represents(env, v, p)
    decreases v, 0
  {
    EncodeSucceedsIff(env, v);
    hide Encode, ToObject, LastNamed, HasNames;
    if Encodable(v) {
      var slots := v.slots;
      var ps := ModelEncoded(env, slots, v.name);
      forall i, q | 0 <= i < |slots|
        ensures ps[i] == q <==> Represents(env, slots[i].value, q)
      {
        EncodesIff(env, slots[i].value, q);
      }
      ObjectHoldsLast(slots, ps);
      if p.PObj? && HasNames(slots, p.fields) && HoldsLast(slots, ps, p.fields) {
        SameObject(slots, ps, p.fields, ToObject(slots, ps));
      }
    }
  }

  lemma {:induction false} TupleEncodesIff(env: Env, v: Val, p: Prim)
    requires v.VTuple?
    ensures Encode(env, v) == Some(p) <==> Represents(env, v, p)
    decreases v, 0
  {
    forall i, q | 0 <= i < |v.items|
      ensures Encode(env, v.items[i]) == Some(q) <==> Represents(env, v.items[i], q)
    {
      EncodesIff(env, v.items[i], q);
    }
    TupleEncoded(env, v.items, p);
    hide Encode;
  }

  lemma TupleEncoded(env: Env, items: seq<Val>, p: Prim)
    ensures Encode(env, VTuple(items)) == Some(p) <==>
              && p.PArr? && |p.items| == |items| <= 10_000
              && forall i :: 0 <= i < |items| ==> Encode(env, items[i]) == Some(p.items[i])
  {
    var rs := seq(|items|, i requires 0 <= i < |items| => Encode(env, items[i]));
    if p.PArr? && |p.items| == |items| && forall i :: 0 <= i < |items| ==> Encode(env, items[i]) == Some(p.items[i]) {
      assert forall i :: 0 <= i < |items| ==> rs[i] == Some(p.items[i]);
      assert AllSome(rs).value == p.items;
    }
    if AllSome(rs).Some? {
      forall i | 0 <= i < |items|
        ensures Encode(env, items[i]) == Some(AllSome(rs).value[i])
      {
        assert rs[i] == Some(AllSome(rs).value[i]);
      }
    }
  }

  lemma LeafEncodesIff(env: Env, v: Val, p: Prim)
    requires !v.VTuple? && !v.VModel?
    ensures Encode(env, v) == Some(p) <==> Represents(env, v, p)
  {
    if v.VDecimal? && v.number.Finite? {
      D.PrintReadsBack(v.number.d);
      if p.PStr? {
        DecimalText(p.s, v.number.d);
      }
    }
    hide D.Print, D.Split, TextOf;
  }

  /** Encoding gives exactly the primitive that shows the value, and raises when there is none. */
  lemma {:induction false} EncodesIff(env: Env, v: Val, p: Prim)
    ensures Encode(env, v) == Some(p) <==> Represents(env, v, p)
    decreases v, 1
  {
    hide Encode, Represents;
    if v.VTuple? {
      TupleEncodesIff(env, v, p);
    } else if v.VModel? {
      ModelEncodesIff(env, v, p);
    } else {
      LeafEncodesIff(env, v, p);
    }
  }

  // ---------------------------------------------------------------------
  // What decoding accepts
  // ---------------------------------------------------------------------

  /** A value of the described type, as its classes would build it: decimals are
      finite, times aware, collections within the limit, enums of the described
      texts, and every model class has accepted its fields. */
  predicate Typed(env: Env, ty: Ty, v: Val)
    decreases ty
  {
    match ty
    case TNone => v == VNone
    case TBool => v.VBool?
    case TInt => v.VInt?
    case TStr => v.VStr?
    case TDecimal => v.VDecimal? && v.number.Finite?
    case TTime => v.VTime? && v.time.offset.Some?
    case TEnum(name, texts) => v.VEnum? && v.name == name && v.member in texts
    case TTuple(item) =>
      v.VTuple? && |v.items| <= 10_000 && forall i :: 0 <= i < |v.items| ==> Typed(env, item, v.items[i])
    case TModel(name, fields) =>
      && v.VModel? && v.name == name && |v.slots| == |fields|
      && (forall i :: 0 <= i < |fields| ==>
                        v.slots[i].name == fields[i].name && Typed(env, fields[i].ty, v.slots[i].value))
      && env.admits(name, v.slots)
    case TUnion(members) => exists i :: 0 <= i < |members| && Typed(env, members[i], v)
    case TFloat => false
  }

  /** The primitive stands for this value of the type: in a model for exactly its
      fields, in their order, with a value its class accepts; in a union for a
      value of the first member for which it stands for any. */
  ghost predicate StandsFor(env: Env, ty: Ty, p: Prim, v: Val)
    decreases ty, 2
  {
    match ty
    case TNone => p == PNull && v == VNone
    case TBool => p.PBool? && v == VBool(p.bit)
    case TInt => p.PInt? && v == VInt(p.n)
    case TStr => p.PStr? && v == VStr(p.s)
    case TDecimal => p.PStr? && v.VDecimal? && v.number.Finite? && D.Parse(p.s) == Some(v.number.d)
    case TTime => p.PStr? && v.VTime? && v.time.offset.Some? && env.readTime(p.s) == Some(v.time)
    case TEnum(name, texts) => p.PStr? && v == VEnum(name, p.s) && p.s in texts
    case TTuple(item) =>
      && p.PArr? && v.VTuple? && |p.items| == |v.items| <= 10_000
      && forall i :: 0 <= i < |p.items| ==> StandsFor(env, item, p.items[i], v.items[i])
    case TModel(name, fields) =>
      && p.PObj? && v.VModel? && v.name == name && |v.slots| == |fields|
      && (forall key :: key in p.fields <==> exists i :: 0 <= i < |fields| && fields[i].name == key)
      && (forall i :: 0 <= i < |fields| ==>
            && fields[i].name in p.fields && v.slots[i].name == fields[i].name
            && StandsFor(env, fields[i].ty, p.fields[fields[i].name], v.slots[i].value))
      && env.admits(name, v.slots)
    case TUnion(_) => FirstStands(env, ty, p, v)
    case TFloat => false
  }

  /** The primitive stands for no value of a member before number `i`. */
  ghost predicate NoneBefore(env: Env, ty: Ty, p: Prim, i: int)
    requires ty.TUnion? && 0 <= i < |ty.members|
    decreases ty, 0
  {
    forall j, w :: 0 <= j < i ==> !StandsFor(env, ty.members[j], p, w)
  }

  /** The primitive stands for the value in the first member for which it stands for any. */
  ghost predicate FirstStands(env: Env, ty: Ty, p: Prim, v: Val)
    requires ty.TUnion?
    decreases ty, 1
  {
    exists i :: 0 <= i < |ty.members| && StandsFor(env, ty.members[i], p, v) && NoneBefore(env, ty, p, i)
  }

  /** What a union decodes, when its members decode exactly what stands for a value of theirs. */
  lemma UnionDecoded(env: Env, ty: Ty, p: Prim, v: Val)
    requires ty.TUnion?
    requires forall j, w :: 0 <= j < |ty.members| ==>
                              (Decode(env, ty.members[j], p) == Some(w) <==> StandsFor(env, ty.members[j], p, w))
    ensures Decode(env, ty, p) == Some(v) ==> FirstStands(env, ty, p, v)
  {
    hide Decode, FirstSome, StandsFor;
    if Decode(env, ty, p) == Some(v) {
      var rs := UnionDecodes(env, ty.members, p);
      var k :| 0 <= k < |rs| && rs[k] == Some(v) && forall i :: 0 <= i < k ==> rs[i].None?;
      forall j, w | 0 <= j < k
        ensures !StandsFor(env, ty.members[j], p, w)
      {
        assert rs[j] == Decode(env, ty.members[j], p) != Some(w);
        assert Decode(env, ty.members[j], p) == Some(w) <==> StandsFor(env, ty.members[j], p, w);
      }
      assert NoneBefore(env, ty, p, k);
    }
  }

  lemma UnionStanding(env: Env, ty: Ty, p: Prim, v: Val)
    requires ty.TUnion?
    requires forall j, w :: 0 <= j < |ty.members| ==>
                              (Decode(env, ty.members[j], p) == Some(w) <==> StandsFor(env, ty.members[j], p, w))
    ensures FirstStands(env, ty, p, v) ==> Decode(env, ty, p) == Some(v)
  {
    hide Decode, StandsFor;
    if FirstStands(env, ty, p, v) {
      var i :| 0 <= i < |ty.members| && StandsFor(env, ty.members[i], p, v) && NoneBefore(env, ty, p, i);
      assert Decode(env, ty.members[i], p) == Some(v) <==> StandsFor(env, ty.members[i], p, v);
      forall j, w | 0 <= j < i
        ensures Decode(env, ty.members[j], p) != Some(w)
      {
        assert Decode(env, ty.members[j], p) == Some(w) <==> StandsFor(env, ty.members[j], p, w);
      }
      FirstMember(env, ty.members, p, i);
    }
  }

  lemma {:induction false} UnionDecodesIff(env: Env, ty: Ty, p: Prim, v: Val)
    requires ty.TUnion?
    ensures Decode(env, ty, p) == Some(v) <==> FirstStands(env, ty, p, v)
    decreases ty, 0
  {
    forall j, w | 0 <= j < |ty.members|
      ensures Decode(env, ty.members[j], p) == Some(w) <==> StandsFor(env, ty.members[j], p, w)
    {
      DecodesIff(env, ty.members[j], p, w);
    }
    UnionDecoded(env, ty, p, v);
    UnionStanding(env, ty, p, v);
    hide Decode, StandsFor, FirstStands;
  }

  lemma TupleDecoded(env: Env, item: Ty, p: Prim, v: Val)
    ensures Decode(env, TTuple(item), p) == Some(v) <==>
              && p.PArr? && v.VTuple? && |p.items| == |v.items| <= 10_000
              && forall i :: 0 <= i < |p.items| ==> Decode(env, item, p.items[i]) == Some(v.items[i])
  {
    if p.PArr? {
      var rs := seq(|p.items|, i requires 0 <= i < |p.items| => Decode(env, item, p.items[i]));
      if v.VTuple? && |p.items| == |v.items|
         && forall i :: 0 <= i < |p.items| ==> Decode(env, item, p.items[i]) == Some(v.items[i])
      {
        assert forall i :: 0 <= i < |p.items| ==> rs[i] == Some(v.items[i]);
        assert AllSome(rs).value == v.items;
      }
      if AllSome(rs).Some? {
        forall i | 0 <= i < |p.items|
          ensures Decode(env, item, p.items[i]) == Some(AllSome(rs).value[i])
        {
          assert rs[i] == Some(AllSome(rs).value[i]);
        }
      }
    }
  }

  lemma {:induction false} TupleDecodesIff(env: Env, item: Ty, p: Prim, v: Val)
    ensures Decode(env, TTuple(item), p) == Some(v) <==> StandsFor(env, TTuple(item), p, v)
    decreases item, 2
  {
    TupleDecoded(env, item, p, v);
    if p.PArr? && v.VTuple? && |p.items| == |v.items| {
      forall i | 0 <= i < |p.items|
        ensures Decode(env, item, p.items[i]) == Some(v.items[i]) <==> StandsFor(env, item, p.items[i], v.items[i])
      {
        DecodesIff(env, item, p.items[i], v.items[i]);
      }
    }
    hide Decode;
  }

  lemma NamesIff(fields: seq<Field>, keys: set<string>)
    ensures keys == Names(fields) <==>
              forall key :: key in keys <==> exists i :: 0 <= i < |fields| && fields[i].name == key
  {
    forall key
      ensures key in Names(fields) <==> exists i :: 0 <= i < |fields| && fields[i].name == key
    {
    }
  }

  /** The decoded fields of an object, in the order of the description. */
  lemma FieldsDecoded(env: Env, name: string, fields: seq<Field>, obj: map<string, Prim>, v: Val)
    requires obj.Keys == Names(fields) && Decode(env, TModel(name, fields), PObj(obj)) == Some(v)
    ensures v.VModel? && v.name == name && |v.slots| == |fields| && env.admits(name, v.slots)
    ensures forall i :: 0 <= i < |fields| ==>
              && fields[i].name in obj && v.slots[i].name == fields[i].name
              && Decode(env, fields[i].ty, obj[fields[i].name]) == Some(v.slots[i].value)
  {
    var rs := seq(|fields|, i requires 0 <= i < |fields| =>
                    assert fields[i].name in Names(fields); Decode(env, fields[i].ty, obj[fields[i].name]));
    var vs := AllSome(rs).value;
    assert v == VModel(name, seq(|fields|, i requires 0 <= i < |fields| => Slot(fields[i].name, vs[i])));
    forall i | 0 <= i < |fields|
      ensures fields[i].name in obj && Decode(env, fields[i].ty, obj[fields[i].name]) == Some(v.slots[i].value)
    {
      assert fields[i].name in Names(fields) && rs[i] == Some(vs[i]);
    }
  }

  lemma KeysMatch(env: Env, name: string, fields: seq<Field>, p: Prim)
    requires p.PObj? && Decode(env, TModel(name, fields), p).Some?
    ensures p.fields.Keys == Names(fields)
  {
  }

  lemma {:induction false} ModelDecodesIff(env: Env, ty: Ty, p: Prim, v: Val)
    requires ty.TModel?
    ensures Decode(env, ty, p) == Some(v) <==> StandsFor(env, ty, p, v)
    decreases ty, 0
  {
    if p.PObj? {
      NamesIff(ty.fields, p.fields.Keys);
      if Decode(env, ty, p) == Some(v) {
        KeysMatch(env, ty.name, ty.fields, p);
        FieldsDecoded(env, ty.name, ty.fields, p.fields, v);
        forall i | 0 <= i < |ty.fields|
          ensures StandsFor(env, ty.fields[i].ty, p.fields[ty.fields[i].name], v.slots[i].value)
        {
          DecodesIff(env, ty.fields[i].ty, p.fields[ty.fields[i].name], v.slots[i].value);
        }
      }
      if StandsFor(env, ty, p, v) {
        forall i | 0 <= i < |ty.fields|
          ensures Decode(env, ty.fields[i].ty, p.fields[ty.fields[i].name]) == Some(v.slots[i].value)
        {
          DecodesIff(env, ty.fields[i].ty, p.fields[ty.fields[i].name], v.slots[i].value);
        }
        ModelDecoded(env, ty.name, ty.fields, p.fields, v.slots);
      }
      hide Decode, Names;
    } else {
      OnlyObjects(env, ty, p);
    }
  }

  lemma OnlyObjects(env: Env, ty: Ty, p: Prim)
    requires ty.TModel? && !p.PObj?
    ensures Decode(env, ty, p).None?
  {
  }

  lemma LeafDecodesIff(env: Env, ty: Ty, p: Prim, v: Val)
    requires !ty.TTuple? && !ty.TModel? && !ty.TUnion?
    ensures Decode(env, ty, p) == Some(v) <==> StandsFor(env, ty, p, v)
  {
    hide D.Parse;
  }

  lemma UnionStands(env: Env, ty: Ty, p: Prim, v: Val)
    requires ty.TUnion?
    ensures StandsFor(env, ty, p, v) <==> FirstStands(env, ty, p, v)
  {
    hide NoneBefore, FirstStands, D.Parse;
  }

  /** Decoding succeeds exactly on the primitives that stand for a value, and gives that value. */
  lemma {:induction false} DecodesIff(env: Env, ty: Ty, p: Prim, v: Val)
    ensures Decode(env, ty, p) == Some(v) <==> StandsFor(env, ty, p, v)
    decreases ty, 1
  {
    hide Decode, StandsFor, NoneBefore, FirstStands;
    if ty.TUnion? {
      UnionDecodesIff(env, ty, p, v);
      UnionStands(env, ty, p, v);
    } else if ty.TTuple? {
      TupleDecodesIff(env, ty.item, p, v);
    } else if ty.TModel? {
      ModelDecodesIff(env, ty, p, v);
    } else {
      LeafDecodesIff(env, ty, p, v);
    }
  }

  /** Whatever is decoded is a value of the described type, accepted by every model class in it. */
  lemma {:induction false} DecodeIsSound(env: Env, ty: Ty, p: Prim)
    requires Decode(env, ty, p).Some?
    ensures Typed(env, ty, Decode(env, ty, p).value)
  {
    DecodesIff(env, ty, p, Decode(env, ty, p).value);
    StandingIsTyped(env, ty, p, Decode(env, ty, p).value);
    hide Decode, Typed, StandsFor;
  }

  lemma {:induction false} StandingIsTyped(env: Env, ty: Ty, p: Prim, v: Val)
    requires StandsFor(env, ty, p, v)
    ensures Typed(env, ty, v)
    decreases ty
  {
    if ty.TUnion? {
      var i :| 0 <= i < |ty.members| && StandsFor(env, ty.members[i], p, v);
      StandingIsTyped(env, ty.members[i], p, v);
    } else if ty.TTuple? {
      forall i | 0 <= i < |v.items|
        ensures Typed(env, ty.item, v.items[i])
      {
        StandingIsTyped(env, ty.item, p.items[i], v.items[i]);
      }
    } else if ty.TModel? {
      forall i | 0 <= i < |ty.fields|
        ensures Typed(env, ty.fields[i].ty, v.slots[i].value)
      {
        StandingIsTyped(env, ty.fields[i].ty, p.fields[ty.fields[i].name], v.slots[i].value);
      }
    }
  }

  // ---------------------------------------------------------------------
  // Equality of values, and injectivity
  // ---------------------------------------------------------------------

  /** Equality of values of one class: decimals as numbers, times as instants. */
  predicate Equal(v: Val, w: Val) {
    match (v, w)
    case (VDecimal(a), VDecimal(b)) => a == b || (a.Finite? && b.Finite? && D.Value(a.d) == D.Value(b.d))
    case (VTime(a), VTime(b)) => a.offset.Some? == b.offset.Some? && a.instant == b.instant
    case (VTuple(a), VTuple(b)) => |a| == |b| && forall i :: 0 <= i < |a| ==> Equal(a[i], b[i])
    case (VModel(m, a), VModel(n, b)) =>
      m == n && |a| == |b| && forall i :: 0 <= i < |a| ==> a[i].name == b[i].name && Equal(a[i].value, b[i].value)
    case _ => v == w
  }

  /** Every string in the value is in NFC. */
  predicate Normal(env: Env, v: Val) {
    match v
    case VStr(s) => env.nfc(s) == s
    case VTuple(items) => forall i :: 0 <= i < |items| ==> Normal(env, items[i])
    case VModel(_, slots) => forall i :: 0 <= i < |slots| ==> Normal(env, slots[i].value)
    case _ => true
  }

  /** The value that comes back equals the one that went in exactly when its strings are in NFC. */
  lemma {:induction false} NormEqualsIff(env: Env, v: Val)
    requires Encodable(v)
    ensures Equal(v, Norm(env, v)) <==> Normal(env, v)
  {
    match v
    case VDecimal(Finite(d)) => D.PrintReadsBack(d);
    case VTuple(items) =>
      forall i | 0 <= i < |items| ensures Equal(items[i], Norm(env, items[i])) <==> Normal(env, items[i]) {
        NormEqualsIff(env, items[i]);
      }
    case VModel(_, slots) =>
      forall i | 0 <= i < |slots|
        ensures Equal(slots[i].value, Norm(env, slots[i].value)) <==> Normal(env, slots[i].value)
      {
        NormEqualsIff(env, slots[i].value);
      }
    case _ =>
  }

  lemma {:induction false} EqualEncodesAlike(env: Env, v: Val, w: Val)
    requires Equal(v, w)
    ensures Encode(env, v) == Encode(env, w)
  {
    match (v, w)
    case (VDecimal(Finite(a)), VDecimal(Finite(b))) => D.PrintAlikeIffEqual(a, b);
    case (VTuple(a), VTuple(b)) =>
      forall i | 0 <= i < |a| ensures Encode(env, a[i]) == Encode(env, b[i]) {
        EqualEncodesAlike(env, a[i], b[i]);
      }
      var es := seq(|a|, i requires 0 <= i < |a| => Encode(env, a[i]));
      assert es == seq(|b|, i requires 0 <= i < |b| => Encode(env, b[i]));
    case (VModel(_, a), VModel(_, b)) =>
      forall i | 0 <= i < |a| ensures Encode(env, a[i].value) == Encode(env, b[i].value) {
        EqualEncodesAlike(env, a[i].value, b[i].value);
      }
      var es := seq(|a|, i requires 0 <= i < |a| => Encode(env, a[i].value));
      assert es == seq(|b|, i requires 0 <= i < |b| => Encode(env, b[i].value));
      if AllSome(es).Some? {
        SameNamesSameObject(a, b, AllSome(es).value);
      }
    case _ =>
  }

  lemma {:induction false} SameNamesSameObject(a: seq<Slot>, b: seq<Slot>, ps: seq<Prim>)
    requires |a| == |b| == |ps| && forall i :: 0 <= i < |a| ==> a[i].name == b[i].name
    ensures ToObject(a, ps) == ToObject(b, ps)
  {
    if a != [] {
      var n := |a| - 1;
      SameNamesSameObject(a[..n], b[..n], ps[..n]);
    }
  }

  lemma {:induction false} NormDetermines(env: Env, v: Val, w: Val)
    requires Encodable(v) && Encodable(w) && Normal(env, v) && Normal(env, w) && Norm(env, v) == Norm(env, w)
    ensures Equal(v, w)
  {
    match (v, w)
    case (VDecimal(Finite(a)), VDecimal(Finite(b))) =>
      D.PrintReadsBack(a);
      D.PrintReadsBack(b);
    case (VTuple(a), VTuple(b)) =>
      forall i | 0 <= i < |a| ensures Equal(a[i], b[i]) {
        assert Norm(env, v).items[i] == Norm(env, w).items[i];
        NormDetermines(env, a[i], b[i]);
      }
    case (VModel(_, a), VModel(_, b)) =>
      forall i | 0 <= i < |a| ensures a[i].name == b[i].name && Equal(a[i].value, b[i].value) {
        assert Norm(env, v).slots[i] == Norm(env, w).slots[i];
        NormDetermines(env, a[i].value, b[i].value);
      }
    case _ =>
  }

  /** For one described type, values with NFC strings are encoded alike exactly when they are equal. */
  lemma EncodingIsInjective(env: Env, ty: Ty, v: Val, w: Val)
    requires Lawful(env) && Described(env, ty)
    requires HasType(env, ty, v) && Encodable(v) && Normal(env, v)
    requires HasType(env, ty, w) && Encodable(w) && Normal(env, w)
    ensures Encode(env, v) == Encode(env, w) <==> Equal(v, w)
  {
    hide *;
    EncodeSucceedsIff(env, v);
    EncodeSucceedsIff(env, w);
    if Encode(env, v) == Encode(env, w) {
      RoundTrip(env, ty, v);
      RoundTrip(env, ty, w);
      NormDetermines(env, v, w);
    }
    if Equal(v, w) {
      EqualEncodesAlike(env, v, w);
    }
  }

  // ---------------------------------------------------------------------
  // Unions
  // ---------------------------------------------------------------------

  const QUANTITY := TModel("Quantity", [Field("value", TDecimal), Field("unit", TStr)])
  const NAMED_VALUE := TModel("NamedValue", [Field("name", TStr), Field("value", TStr)])
  const ATTRIBUTE_QUANTITY := TModel("AttributeQuantity", [Field("attribute", TStr), Field("value", QUANTITY)])

  /** A union with one more member at its end. */
  lemma JoinedIsDescribed(env: Env, members: seq<Ty>, last: Ty)
    ensures Described(env, TUnion(members + [last])) <==>
              && Described(env, TUnion(members)) && Described(env, last)
              && forall i :: 0 <= i < |members| ==> Apart(env, members[i], last)
  {
    var all, n := members + [last], |members|;
    hide Apart;
    assert all[n] == last && forall i :: 0 <= i < n ==> all[i] == members[i];
    if Described(env, TUnion(all)) {
      assert Described(env, all[n]);
      forall i | 0 <= i < n
        ensures Described(env, members[i]) && Apart(env, members[i], last)
      {
        assert Described(env, all[i]) && Apart(env, all[i], all[n]);
      }
      forall i, j | 0 <= i < j < n
        ensures Apart(env, members[i], members[j])
      {
        assert Apart(env, all[i], all[j]);
      }
    }
  }

  lemma SoleIsDescribed(env: Env, ty: Ty)
    ensures Described(env, TUnion([ty])) <==> Described(env, ty)
  {
    JoinedIsDescribed(env, [], ty);
    assert [] + [ty] == [ty];
    hide Apart;
  }

  /** `Optional[...]`: one more member, the null; an optional union is flattened. */
  function Optional(ty: Ty): Ty {
    if ty.TUnion? then TUnion(ty.members + [TNone]) else TUnion([ty, TNone])
  }

  lemma ApartFromNull(env: Env, ty: Ty)
    ensures Apart(env, ty, TNone) <==> !Takes(ty, Null)
  {
    assert forall shape: Shape :: Takes(TNone, shape) <==> shape == Null;
    hide Takes, Clash;
  }

  /** An optional type is described exactly when the type is and does not itself take null. */
  lemma OptionalIsDescribed(env: Env, ty: Ty)
    ensures Described(env, Optional(ty)) <==> Described(env, ty) && !Takes(ty, Null)
  {
    hide Disjoint, Clash;
    if ty.TUnion? {
      JoinedIsDescribed(env, ty.members, TNone);
      forall i | 0 <= i < |ty.members|
        ensures Apart(env, ty.members[i], TNone) <==> !Takes(ty.members[i], Null)
      {
        ApartFromNull(env, ty.members[i]);
      }
      assert Described(env, ty) == Described(env, TUnion(ty.members));
    } else {
      SoleIsDescribed(env, ty);
      JoinedIsDescribed(env, [ty], TNone);
      assert [ty] + [TNone] == [ty, TNone];
      ApartFromNull(env, ty);
      assert [ty][0] == ty;
    }
  }

  lemma DomainModelsAreDescribed(env: Env)
    ensures Described(env, QUANTITY) && Described(env, NAMED_VALUE) && Described(env, ATTRIBUTE_QUANTITY)
  {
    assert "value"[0] != "unit"[0] && "name"[0] != "value"[0] && "attribute"[0] != "value"[0];
    assert Described(env, TStr) && Described(env, TDecimal);
    assert Described(env, QUANTITY);
  }

  lemma DisjointIsApart(env: Env, members: seq<Ty>, last: Ty)
    requires Described(env, TUnion(members)) && Described(env, last)
    requires forall i :: 0 <= i < |members| ==> Disjoint(members[i], last)
    ensures Described(env, TUnion(members + [last]))
  {
    JoinedIsDescribed(env, members, last);
    hide Described, Disjoint;
  }

  lemma DomainMembersAreDisjoint()
    ensures Disjoint(TStr, TBool) && Disjoint(TStr, TInt) && Disjoint(TBool, TInt)
    ensures Disjoint(TStr, QUANTITY) && Disjoint(TBool, QUANTITY) && Disjoint(TInt, QUANTITY)
    ensures Disjoint(NAMED_VALUE, ATTRIBUTE_QUANTITY)
  {
    assert NAMED_VALUE.fields[0].name == "name";
    assert forall i :: 0 <= i < 2 ==> ATTRIBUTE_QUANTITY.fields[i].name[0] != 'n';
    assert "name" in Names(NAMED_VALUE.fields) && "name" !in Names(ATTRIBUTE_QUANTITY.fields);
  }

  lemma LeavesAreDescribed(env: Env)
    ensures Described(env, TStr) && Described(env, TBool) && Described(env, TInt)
  {
  }

  lemma NoNull()
    ensures !Takes(TUnion([TStr, TBool, TInt, QUANTITY]), Null)
  {
  }

  /** The three unions the domain models use besides `Optional` have disjoint shapes, and take no null. */
  lemma DomainUnionsAreDescribed(env: Env)
    ensures Described(env, TUnion([TStr, TBool, QUANTITY]))
    ensures Described(env, TUnion([NAMED_VALUE, ATTRIBUTE_QUANTITY]))
    ensures Described(env, TUnion([TStr, TBool, TInt, QUANTITY]))
    ensures Described(env, Optional(TUnion([TStr, TBool, TInt, QUANTITY])))
  {
    DomainModelsAreDescribed(env);
    DomainMembersAreDisjoint();
    LeavesAreDescribed(env);
    SoleIsDescribed(env, TStr);
    SoleIsDescribed(env, NAMED_VALUE);
    NoNull();
    hide *;
    DisjointIsApart(env, [TStr], TBool);
    assert [TStr] + [TBool] == [TStr, TBool];
    DisjointIsApart(env, [TStr, TBool], QUANTITY);
    assert [TStr, TBool] + [QUANTITY] == [TStr, TBool, QUANTITY];
    DisjointIsApart(env, [TStr, TBool], TInt);
    assert [TStr, TBool] + [TInt] == [TStr, TBool, TInt];
    DisjointIsApart(env, [TStr, TBool, TInt], QUANTITY);
    assert [TStr, TBool, TInt] + [QUANTITY] == [TStr, TBool, TInt, QUANTITY];
    DisjointIsApart(env, [NAMED_VALUE], ATTRIBUTE_QUANTITY);
    assert [NAMED_VALUE] + [ATTRIBUTE_QUANTITY] == [NAMED_VALUE, ATTRIBUTE_QUANTITY];
    OptionalIsDescribed(env, TUnion([TStr, TBool, TInt, QUANTITY]));
  }

  lemma FirstIs<T(!new)>(os: seq<Option<T>>, i: nat)
    requires i < |os| && os[i].Some?
    ensures FirstSome(os) == os[i] <==>
              forall j :: 0 <= j < i && os[j].Some? && os[j] != os[i] ==> exists k :: 0 <= k < j && os[k] == os[i]
  {
    var f :| 0 <= f < |os| && os[f] == FirstSome(os) && forall k :: 0 <= k < f ==> os[k].None?;
    assert f <= i;
    hide FirstSome;
    if FirstSome(os) != os[i] {
      assert os[f] != os[i] && forall k :: 0 <= k < f ==> os[k] != os[i];
    }
  }

  /** A value of one member of any union comes back in normal form exactly when
      each earlier member that decodes its text to something else comes after
      one that decodes it to that normal form. */
  lemma MemberRoundTripsIff(env: Env, members: seq<Ty>, i: nat, v: Val)
    requires i < |members| && Lawful(env) && Described(env, members[i])
    requires HasType(env, members[i], v) && Encode(env, v).Some?
    ensures var p, back := Encode(env, v).value, Some(Norm(env, v));
      Decode(env, TUnion(members), p) == back <==>
        forall j :: 0 <= j < i && Decode(env, members[j], p).Some? && Decode(env, members[j], p) != back ==>
                      exists k :: 0 <= k < j && Decode(env, members[k], p) == back
  {
    var p := Encode(env, v).value;
    hide *;
    RoundTrip(env, members[i], v);
    var rs := UnionDecodes(env, members, p);
    FirstIs(rs, i);
  }

  /** Every value of the union that can be encoded comes back in normal form. */
  ghost predicate RoundTrips(env: Env, members: seq<Ty>) {
    forall v :: HasType(env, TUnion(members), v) && Encode(env, v).Some? ==>
                  Decode(env, TUnion(members), Encode(env, v).value) == Some(Norm(env, v))
  }

  /** Members of disjoint shapes, or texts of different classes. */
  ghost predicate Alternatives(members: seq<Ty>) {
    forall i, j :: 0 <= i < j < |members| ==>
                     || Disjoint(members[i], members[j])
                     || (TextLeaf(members[i]) && TextLeaf(members[j]) && OtherClass(members[i], members[j]))
  }

  /** A text that an earlier member reads for a later one does not come back as it was. */
  lemma ClashLoses(env: Env, members: seq<Ty>, i: nat, j: nat)
    requires Lawful(env) && Alternatives(members) && i < j < |members| && Described(env, members[j])
    requires TextLeaf(members[i]) && TextLeaf(members[j]) && Clash(env, members[i], members[j])
    ensures !RoundTrips(env, members)
  {
    var text :| Writes(env, members[j], text) && Reads(env, members[i], text);
    var v := LeafWriter(env, members[j], text);
    assert HasType(env, TUnion(members), v);
    LeafReads(env, members[i], PStr(text));
    hide Decode, Encode, Norm, HasType, Described, Lawful, Writes, Reads, Alternatives, TextLeaf;
    ReadEarlier(env, members, i, j, v);
  }

  lemma ReadEarlier(env: Env, members: seq<Ty>, i: nat, j: nat, v: Val)
    requires Lawful(env) && Alternatives(members) && i < j < |members| && Described(env, members[j])
    requires TextLeaf(members[j]) && HasType(env, members[j], v) && Encode(env, v).Some?
    requires Decode(env, members[i], Encode(env, v).value).Some?
    ensures Decode(env, TUnion(members), Encode(env, v).value) != Some(Norm(env, v))
  {
    var p := Encode(env, v).value;
    EncodedShape(env, members[j], v);
    LeafWrites(env, members[j], v);
    var rs := UnionDecodes(env, members, p);
    hide Decode, Encode, Norm, HasType, Described, Lawful, Takes, Writes, Reads, FirstSome, ShapeOf, OtherClass, OfLeaf;
    var f :| 0 <= f < |members| && rs[f] == FirstSome(rs) && forall k :: 0 <= k < f ==> rs[k].None?;
    assert rs[i].Some? && f <= i;
    DecodedShape(env, members[f], p);
    assert !Disjoint(members[f], members[j]);
    LeafReads(env, members[f], p);
    LeavesDiffer(members[f], members[j], rs[f].value, Norm(env, v));
  }

  lemma LeavesDiffer(a: Ty, b: Ty, v: Val, w: Val)
    requires OtherClass(a, b) && OfLeaf(a, v) && OfLeaf(b, w)
    ensures v != w
  {
  }

  /** A union of described alternatives gives every value back exactly when no
      text that a later member writes is read by an earlier one. */
  lemma UnionRoundTripsIff(env: Env, members: seq<Ty>)
    requires Lawful(env) && Alternatives(members) && forall i :: 0 <= i < |members| ==> Described(env, members[i])
    ensures RoundTrips(env, members) <==>
              forall i, j :: 0 <= i < j < |members| ==> !Clashing(env, members[i], members[j])
  {
    hide Clash, Disjoint, Encode, HasType, Lawful, Decode, Norm;
    if exists i, j :: 0 <= i < j < |members| && Clashing(env, members[i], members[j]) {
      var i, j :| 0 <= i < j < |members| && Clashing(env, members[i], members[j]);
      ClashLoses(env, members, i, j);
    } else {
      assert Described(env, TUnion(members));
      forall v | HasType(env, TUnion(members), v) && Encode(env, v).Some?
        ensures Decode(env, TUnion(members), Encode(env, v).value) == Some(Norm(env, v))
      {
        RoundTrip(env, TUnion(members), v);
      }
    }
  }

  /** A union of two enums is described exactly when they are different enums without a common text. */
  lemma EnumUnionIsDescribedIff(env: Env, a: string, s: set<string>, b: string, u: set<string>)
    requires Described(env, TEnum(a, s)) && Described(env, TEnum(b, u))
    ensures Described(env, TUnion([TEnum(a, s), TEnum(b, u)])) <==> a != b && s !! u
  {
    var x, y := TEnum(a, s), TEnum(b, u);
    SoleIsDescribed(env, x);
    JoinedIsDescribed(env, [x], y);
    assert [x] + [y] == [x, y] && [x][0] == x;
    EnumsApartIff(env, a, s, b, u);
    hide Described, Apart;
  }

  lemma EnumsApartIff(env: Env, a: string, s: set<string>, b: string, u: set<string>)
    ensures Apart(env, TEnum(a, s), TEnum(b, u)) <==> a != b && s !! u
  {
    var x, y := TEnum(a, s), TEnum(b, u);
    assert Takes(x, Text) && Takes(y, Text);
    assert forall text :: Writes(env, y, text) && Reads(env, x, text) <==> text in s && text in u;
  }

  lemma TextUnderString(env: Env, s: string)
    ensures Decode(env, TUnion([TStr, TDecimal]), PStr(s)) == Some(VStr(s))
  {
    hide D.Parse;
    var rs := UnionDecodes(env, [TStr, TDecimal], PStr(s));
    assert rs[0] == Some(VStr(s));
  }

  lemma DecimalUnderString(env: Env, d: D.Decimal)
    ensures HasType(env, TUnion([TStr, TDecimal]), VDecimal(Finite(d)))
  {
    hide Norm, D.Parse, D.Print;
    assert HasType(env, [TStr, TDecimal][1], VDecimal(Finite(d)));
  }

  lemma DecimalEncodes(env: Env, d: D.Decimal)
    ensures Encode(env, VDecimal(Finite(d))) == Some(PStr(D.Print(d)))
  {
    D.PrintReadsBack(d);
    hide D.Print, D.Split;
  }

  lemma DecimalIsNoText(d: D.Decimal, s: string)
    ensures !Equal(VDecimal(Finite(d)), VStr(s))
  {
  }

  /** Where shapes overlap the first member that decodes wins: a decimal under
      `str | Decimal` comes back as a string. */
  lemma OverlappingUnionLosesType(env: Env, d: D.Decimal)
    ensures var ty := TUnion([TStr, TDecimal]);
      && HasType(env, ty, VDecimal(Finite(d)))
      && Encode(env, VDecimal(Finite(d))).Some?
      && Decode(env, ty, Encode(env, VDecimal(Finite(d))).value) == Some(VStr(D.Print(d)))
      && !Equal(VDecimal(Finite(d)), VStr(D.Print(d)))
  {
    DecimalEncodes(env, d);
    DecimalIsNoText(d, D.Print(d));
    TextUnderString(env, D.Print(d));
    DecimalUnderString(env, d);
    hide Encode, Decode, HasType, Equal, D.Print;
  }
}
