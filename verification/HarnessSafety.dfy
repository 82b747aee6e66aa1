/** Rollback restores the value table, and what a verified rollback means. */
module HarnessSafety {
  import opened Common
  import opened Harness

  // ---------------------------------------------------------------------
  // The write loop
  // ---------------------------------------------------------------------

  /** The table after the first `n` writes, made blindly. */
  function Overlay(values: Values, ws: seq<Write>, n: nat): Values
    requires n <= |ws|
  {
    if n == 0 then values else Overlay(values, ws, n - 1)[ws[n - 1].cell := ws[n - 1].proposed]
  }

  /** Whether write number `j` finds its cell as it expects it, after all the writes before it. */
  ghost predicate Expected(values: Values, ws: seq<Write>, j: nat)
    requires j < |ws|
  {
    var live := Overlay(values, ws, j);
    ws[j].cell in live && live[ws[j].cell] == ws[j].before
  }

  /** The number of writes after which an armed interruption strikes. */
  function Due(fault: Option<nat>): nat
    requires fault.Some?
  {
    if fault.value == 0 then 1 else fault.value
  }

  /** After `n` writes no interruption has struck yet. */
  predicate NotYetDue(fault: Option<nat>, n: nat) {
    fault.None? || n < Due(fault)
  }

  /** Where the loop stops, and that its table is that of the writes made. */
  lemma {:induction false} PerformIsOverlay(values: Values, ws: seq<Write>, done: nat, fault: Option<nat>)
    requires done <= |ws| && NotYetDue(fault, done)
    ensures var (after, n, halt) := Perform(Overlay(values, ws, done), ws, done, fault);
      && done <= n <= |ws| && after == Overlay(values, ws, n)
      && (forall j :: done <= j < n ==> Expected(values, ws, j))
      && (halt.Finished? ==> n == |ws| && NotYetDue(fault, n))
      && (halt.Interrupted? ==> fault.Some? && n == Due(fault))
      && (halt.Torn? ==> n < |ws| && !Expected(values, ws, n) && NotYetDue(fault, n))
    decreases |ws| - done
  {
    if done == |ws| {
      PerformEnd(Overlay(values, ws, done), ws, fault);
    } else {
      PerformStep(Overlay(values, ws, done), ws, done, fault);
      assert Overlay(values, ws, done + 1) == Overlay(values, ws, done)[ws[done].cell := ws[done].proposed];
      assert Expected(values, ws, done)
        <==> ws[done].cell in Overlay(values, ws, done) && Overlay(values, ws, done)[ws[done].cell] == ws[done].before;
      hide Perform, Overlay, Expected;
      if NotYetDue(fault, done + 1) {
        PerformIsOverlay(values, ws, done + 1, fault);
      }
    }
  }

  /** A cell holds what its last writer, number `i`, wrote; or its first value when there is none. */
  lemma {:induction false} OverlayCell(values: Values, ws: seq<Write>, n: nat, c: Cell, i: int)
    requires n <= |ws| && c in values && -1 <= i < n && (i >= 0 ==> ws[i].cell == c)
    requires forall k :: i < k < n ==> ws[k].cell != c
    ensures c in Overlay(values, ws, n) && Overlay(values, ws, n)[c] == if i < 0 then values[c] else ws[i].proposed
    decreases n
  {
    if i < n - 1 {
      OverlayCell(values, ws, n - 1, c, i);
    } else if n > 0 {
      assert ws[n - 1].cell == c;
    }
  }

  lemma {:induction false} OverlayKeys(values: Values, ws: seq<Write>, n: nat)
    requires n <= |ws| && forall i :: 0 <= i < n ==> ws[i].cell in values
    ensures Overlay(values, ws, n).Keys == values.Keys
  {
    if n > 0 {
      OverlayKeys(values, ws, n - 1);
    }
  }

  lemma {:induction false} OverlayPrefix(values: Values, a: seq<Write>, b: seq<Write>, n: nat)
    requires n <= |a| && n <= |b| && a[..n] == b[..n]
    ensures Overlay(values, a, n) == Overlay(values, b, n)
  {
    if n > 0 {
      assert a[..n - 1] == a[..n][..n - 1] == b[..n][..n - 1] == b[..n - 1];
      assert a[n - 1] == a[..n][n - 1] == b[..n][n - 1] == b[n - 1];
      OverlayPrefix(values, a, b, n - 1);
    }
  }

  lemma {:induction false} LastWriter(ws: seq<Write>, n: nat, c: Cell) returns (i: int)
    requires n <= |ws|
    ensures -1 <= i < n && (i >= 0 ==> ws[i].cell == c) && forall k :: i < k < n ==> ws[k].cell != c
  {
    if n == 0 {
      i := -1;
    } else if ws[n - 1].cell == c {
      i := n - 1;
    } else {
      i := LastWriter(ws, n - 1, c);
    }
  }

  lemma {:induction false} NextWriter(ws: seq<Write>, i: nat, j: nat) returns (k: nat)
    requires i < j < |ws| && ws[i].cell == ws[j].cell
    ensures i < k <= j && ws[k].cell == ws[i].cell && forall m :: i < m < k ==> ws[m].cell != ws[i].cell
    decreases j - i
  {
    var m := LastWriter(ws, j, ws[i].cell);
    if m == i {
      k := j;
    } else {
      k := NextWriter(ws, i, m);
    }
  }

  // ---------------------------------------------------------------------
  // Previews that name a cell twice
  // ---------------------------------------------------------------------

  /** No write among the first `n` changes a cell that a later one of them names again. */
  ghost predicate HarmlessUpTo(ws: seq<Write>, n: nat)
    requires n <= |ws|
  {
    forall i, j :: 0 <= i < j < n && ws[i].cell == ws[j].cell ==> ws[i].proposed == ws[i].before
  }

  ghost predicate Harmless(ws: seq<Write>) {
    HarmlessUpTo(ws, |ws|)
  }

  /** When the targets all match at first, the first `n` writes find what they
      expect exactly when they are harmless to each other. */
  lemma ExpectedIffHarmless(values: Values, ws: seq<Write>, n: nat)
    requires Matches(values, ws) && n <= |ws|
    ensures (forall k :: 0 <= k < n ==> Expected(values, ws, k)) <==> HarmlessUpTo(ws, n)
  {
    if HarmlessUpTo(ws, n) {
      forall j | 0 <= j < n
        ensures Expected(values, ws, j)
      {
        var i := LastWriter(ws, j, ws[j].cell);
        OverlayCell(values, ws, j, ws[j].cell, i);
        if i >= 0 {
          assert ws[i].proposed == ws[i].before;
        }
      }
    } else {
      var i, j :| 0 <= i < j < n && ws[i].cell == ws[j].cell && ws[i].proposed != ws[i].before;
      var k := NextWriter(ws, i, j);
      OverlayCell(values, ws, k, ws[i].cell, i);
      assert !Expected(values, ws, k);
    }
  }

  /** Write number `j` is the first to find its cell changed by an earlier write, before any interruption is due. */
  ghost predicate Tears(ws: seq<Write>, j: nat, fault: Option<nat>) {
    j < |ws| && HarmlessUpTo(ws, j) && !HarmlessUpTo(ws, j + 1) && NotYetDue(fault, j)
  }

  /** An armed interruption strikes before anything is torn. */
  ghost predicate Interrupts(ws: seq<Write>, fault: Option<nat>) {
    fault.Some? && Due(fault) <= |ws| && HarmlessUpTo(ws, Due(fault))
  }

  /** The three endings of the write loop, each exactly, from a table in which
      every target matches: it finishes when no write harms a later one and no
      interruption is due; it is interrupted when that is due first; and it is
      torn when a harmed write comes first. The table is that of the writes made. */
  lemma FinishesIffHarmless(values: Values, ws: seq<Write>, fault: Option<nat>)
    requires Matches(values, ws)
    ensures var (after, n, halt) := Perform(values, ws, 0, fault);
      && n <= |ws| && after == Overlay(values, ws, n) && HarmlessUpTo(ws, n)
      && (halt.Finished? <==> Harmless(ws) && NotYetDue(fault, |ws|))
      && (halt.Interrupted? <==> Interrupts(ws, fault))
      && (halt.Torn? <==> exists j: nat :: Tears(ws, j, fault))
      && (halt.Interrupted? ==> n == Due(fault))
      && (halt.Torn? ==> Tears(ws, n, fault))
  {
    PerformIsOverlay(values, ws, 0, fault);
    assert Overlay(values, ws, 0) == values;
    var (_, n, halt) := Perform(values, ws, 0, fault);
    ExpectedIffHarmless(values, ws, n);
    hide Perform, Overlay, Expected;
    if halt.Torn? {
      ExpectedIffHarmless(values, ws, n + 1);
      assert Tears(ws, n, fault);
    }
    forall j: nat | Tears(ws, j, fault)
      ensures halt.Torn?
    {
      HarmlessOnlyBefore(ws, j, n);
    }
  }

  lemma HarmlessOnlyBefore(ws: seq<Write>, j: nat, k: nat)
    requires j < |ws| && !HarmlessUpTo(ws, j + 1) && k <= |ws| && HarmlessUpTo(ws, k)
    ensures k <= j
  {
    if k > j {
      assert false;
    }
  }

  /** At most one write can be the one at which an apply is torn. */
  lemma TearsOnce(ws: seq<Write>, j: nat, k: nat, fault: Option<nat>)
    requires Tears(ws, j, fault) && Tears(ws, k, fault)
    ensures j == k
  {
    HarmlessOnlyBefore(ws, j, k);
    HarmlessOnlyBefore(ws, k, j);
  }

  /** An apply that passed its checks fails as stale exactly when a write meets
      a cell that an earlier write of the same preview changed, before any
      armed interruption is due. It then leaves the writes it made in the table,
      which always changes it, and the authorization spent, and records nothing. */
  lemma TornApplyIsUnrecorded(s: HarnessState, p: Preview, x: Authorization, now: Time)
    requires WellFormed(p) && Valid(s) && ApplyRefusal(s, p, x, now).None?
    ensures ApplySpec(s, p, x, now).1 == Err(StaleContext) <==> exists j: nat :: Tears(WritesOf(p.changes), j, s.fault)
    ensures forall j: nat :: Tears(WritesOf(p.changes), j, s.fault) ==>
        var d := ApplySpec(s, p, x, now).0;
        && d == s.(values := Overlay(s.values, WritesOf(p.changes), j), consumed := s.consumed + {x.execution},
                   changeSequence := s.changeSequence + 1)
        && d.values != s.values
  {
    var ws := WritesOf(p.changes);
    assert Matches(s.values, ws) && x.expected.workflow in s.counters;
    FinishesIffHarmless(s.values, ws, s.fault);
    CommitTorn(s, ws, p.digest, x);
    hide WritesOf, ApplyRefusal, Perform, Overlay, CommitSpec;
    var n := Perform(s.values, ws, 0, s.fault).1;
    forall j: nat | Tears(ws, j, s.fault)
      ensures Overlay(s.values, ws, j) != s.values && j == n
    {
      TearsOnce(ws, j, n, s.fault);
      TornTableDiffers(s.values, ws, j);
    }
  }

  lemma CommitTorn(s: HarnessState, ws: seq<Write>, digest: Digest, x: Authorization)
    requires x.expected.workflow in s.counters
    ensures var (values, _, halt) := Perform(s.values, ws, 0, s.fault);
      var (d, r) := CommitSpec(s, ws, digest, x);
      && (r == Err(StaleContext) <==> halt.Torn?)
      && (halt.Torn? ==>
            d == s.(values := values, consumed := s.consumed + {x.execution}, changeSequence := s.changeSequence + 1))
  {
    PerformStops(s.values, ws, 0, s.fault);
    hide Perform, Recorded;
    var halt := Perform(s.values, ws, 0, s.fault).2;
    assert halt.Finished? || halt.Interrupted? || halt.Torn?;
  }

  lemma TornTableDiffers(values: Values, ws: seq<Write>, j: nat)
    requires Matches(values, ws) && j < |ws| && HarmlessUpTo(ws, j) && !HarmlessUpTo(ws, j + 1)
    ensures Overlay(values, ws, j) != values
  {
    ExpectedIffHarmless(values, ws, j);
    ExpectedIffHarmless(values, ws, j + 1);
    hide Overlay, HarmlessUpTo;
    assert !Expected(values, ws, j);
  }

  const LOAD_CELL := Cell(LOAD_1, ACTIVE_POWER)

  /** The active power of load 1, from 10 MW to 11 MW. */
  function Raise(): (c: AssetChange)
    ensures c == Targets(LOAD_1, map[ACTIVE_POWER := Quantity(10.0, MW)], map[ACTIVE_POWER := Quantity(11.0, MW)])
  {
    var before, proposed := map[ACTIVE_POWER := Quantity(10.0, MW)], map[ACTIVE_POWER := Quantity(11.0, MW)];
    assert ACTIVE_POWER in before && before.Keys == proposed.Keys;
    Targets(LOAD_1, before, proposed)
  }

  lemma RaiseTwice()
    ensures var w := Write(LOAD_CELL, Quantity(10.0, MW), Quantity(11.0, MW));
      WritesOf([Raise(), Raise()]) == [w, w]
  {
    var c := Raise();
    var changes := [c, c];
    RaiseOnce();
    var own := ChangeWrites(c);
    assert WritesUpTo(changes, 0) == [] && WritesUpTo(changes, 1) == own && WritesUpTo(changes, 2) == own + own;
    hide ChangeWrites;
  }

  lemma RaiseOnce()
    ensures ChangeWrites(Raise()) == [Write(LOAD_CELL, Quantity(10.0, MW), Quantity(11.0, MW))]
  {
    var order := Sorted(Raise().before.Keys);
    assert Raise().before.Keys == {ACTIVE_POWER};
    SortedOrders(Raise().before.Keys);
    assert order[0] in order && order == [ACTIVE_POWER];
    hide Sorted;
  }

  lemma TwiceNamedRead()
    ensures FingerprintOf(FIXTURE, CONFIGURATION, [LOAD_1, LOAD_1], {ACTIVE_POWER}) == Ok(TwiceRead())
  {
    assert LOAD_CELL in FIXTURE.Keys && LOAD_1 in ASSETS;
    ReadCovers(FIXTURE, CONFIGURATION, [LOAD_1, LOAD_1], {ACTIVE_POWER});
    var read := FingerprintOf(FIXTURE, CONFIGURATION, [LOAD_1, LOAD_1], {ACTIVE_POWER});
    assert read.Ok?;
    assert read.value.cells == TwiceRead().cells;
  }

  /** What a read of load 1, named twice, for its active power yields on the fixture. */
  function TwiceRead(): Fingerprint {
    Fingerprint(CONFIGURATION, multiset([LOAD_1, LOAD_1]),
                map c | c in FIXTURE && c.asset in [LOAD_1, LOAD_1] && c.attribute in {ACTIVE_POWER} :: FIXTURE[c])
  }

  function TwiceNamed(read: Fingerprint, now: Time): Preview {
    Preview([Raise(), Raise()], CONFIGURATION, now + 1, WORKSPACE, 0, Version(0, 0), read, ContentDigest(0), Change)
  }

  function TwiceAuthorized(read: Fingerprint, now: Time): Authorization {
    Authorization(0, ContentDigest(0), CONFIGURATION, read, Change, true, Version(0, 0), now + 1)
  }

  /** A new harness with the given table, and one authorization registered. */
  function NewState(values: Values, x: Authorization): HarnessState {
    HarnessState(values, 0, map[0 := 0], map[0 := x], {}, None, 0, map[], map[], 0, map[])
  }

  lemma ReadTwice(changes: seq<AssetChange>)
    requires changes == [Raise(), Raise()]
    ensures ChangedAssets(changes) == [LOAD_1, LOAD_1] && ChangedAttributes(changes) == {ACTIVE_POWER}
  {
    assert ACTIVE_POWER in changes[0].before;
  }

  lemma TwiceNamedPasses(values: Values, read: Fingerprint, now: Time)
    requires FingerprintOf(values, CONFIGURATION, [LOAD_1, LOAD_1], {ACTIVE_POWER}) == Ok(read)
    requires LOAD_CELL in values && values[LOAD_CELL] == Quantity(10.0, MW)
    ensures var x := TwiceAuthorized(read, now);
      ApplyRefusal(NewState(values, x), TwiceNamed(read, now), x, now).None?
  {
    var p, x := TwiceNamed(read, now), TwiceAuthorized(read, now);
    var s := NewState(values, x);
    RaiseTwice();
    ReadTwice(p.changes);
    assert IsRegistered(s, x);
    hide FingerprintOf, WritesOf, Raise, IsRegistered, ChangedAssets, ChangedAttributes;
    assert Matches(values, WritesOf(p.changes));
  }

  lemma TwiceNamedIsTorn(ws: seq<Write>, w: Write, values: Values)
    requires ws == [w, w] && w.before != w.proposed
    ensures Tears(ws, 1, None) && Overlay(values, ws, 1) == values[w.cell := w.proposed]
  {
    assert ws[0].cell == ws[1].cell && ws[0].proposed != ws[0].before;
    assert !HarmlessUpTo(ws, 2) && HarmlessUpTo(ws, 1);
    assert Overlay(values, ws, 0) == values;
  }

  /** A preview may name an asset twice. On the fixture, one that raises load 1
      from 10 to 11 MW twice passes every check, and is torn after the first. */
  lemma TwiceNamedTears(now: Time)
    ensures var p, x := TwiceNamed(TwiceRead(), now), TwiceAuthorized(TwiceRead(), now);
      var s := NewState(FIXTURE, x);
      && p.changes == [Raise(), Raise()] && Valid(s) && ApplyRefusal(s, p, x, now).None?
      && var (d, r) := ApplySpec(s, p, x, now);
         r == Err(StaleContext) && d.values == FIXTURE[LOAD_CELL := Quantity(11.0, MW)] && d.values != FIXTURE
         && d.applied == map[] && x.execution in d.consumed
  {
    var p, x := TwiceNamed(TwiceRead(), now), TwiceAuthorized(TwiceRead(), now);
    var s, ws := NewState(FIXTURE, x), WritesOf(p.changes);
    RaiseTwice();
    TwiceNamedRead();
    LoadOnFixture();
    TwiceNamedPasses(FIXTURE, TwiceRead(), now);
    TwiceNamedIsTorn(ws, Write(LOAD_CELL, Quantity(10.0, MW), Quantity(11.0, MW)), FIXTURE);
    assert s.values.Keys == FIXTURE.Keys && Counted(s.registered, s.counters);
    TornApplyIsUnrecorded(s, p, x, now);
    hide FIXTURE, ApplySpec, ApplyRefusal, WritesOf, TwiceRead, Tears, Overlay, FingerprintOf;
  }

  lemma LoadOnFixture()
    ensures LOAD_CELL in FIXTURE && FIXTURE[LOAD_CELL] == Quantity(10.0, MW)
  {
  }

  // ---------------------------------------------------------------------
  // What an apply records
  // ---------------------------------------------------------------------

  /** The apply passes its checks and is not torn: it is recorded, in full or interrupted. */
  ghost predicate Records(s: HarnessState, p: Preview, x: Authorization, now: Time)
    requires WellFormed(p) && Counted(s.registered, s.counters)
  {
    ApplyRefusal(s, p, x, now).None? && ApplySpec(s, p, x, now).1 != Err(StaleContext)
  }

  lemma CommitRecords(s: HarnessState, ws: seq<Write>, digest: Digest, x: Authorization) returns (n: nat)
    requires x.expected.workflow in s.counters && Matches(s.values, ws) && ws != []
    requires CommitSpec(s, ws, digest, x).1 != Err(StaleContext)
    ensures 0 < n <= |ws| && HarmlessUpTo(ws, n)
    ensures var (d, r) := CommitSpec(s, ws, digest, x);
      var change := s.changeSequence + 1;
      && d.values == Overlay(s.values, ws, n) && (r == Ok(change) || r == Err(PartialMutation(change)))
      && (r.Ok? ==> n == |ws|) && change in d.applied && d.applied[change].writes == ws[..n]
      && d.counters == s.counters[x.expected.workflow := s.counters[x.expected.workflow] + 1]
      && d.registered == s.registered
  {
    PerformStops(s.values, ws, 0, s.fault);
    FinishesIffHarmless(s.values, ws, s.fault);
    hide Perform, Matches, Overlay, HarmlessUpTo;
    var halt := Perform(s.values, ws, 0, s.fault).2;
    assert halt.Finished? || halt.Interrupted? || halt.Torn?;
    n := Perform(s.values, ws, 0, s.fault).1;
    assert ws[..|ws|] == ws;
  }

  /** What an apply records, for any preview: as many first writes as it made,
      none of which changes a cell that a later one names; the table is that of these writes. */
  lemma RecordedWrites(s: HarnessState, p: Preview, x: Authorization, now: Time) returns (ws: seq<Write>)
    requires WellFormed(p) && Valid(s) && Records(s, p, x, now)
    ensures IsPrefix(ws, WritesOf(p.changes)) && ws != [] && Matches(s.values, ws) && Harmless(ws)
    ensures var (d, r) := ApplySpec(s, p, x, now);
      && d.values == Overlay(s.values, ws, |ws|)
      && (r == Ok(s.changeSequence + 1) || r == Err(PartialMutation(s.changeSequence + 1)))
      && (r.Ok? ==> ws == WritesOf(p.changes))
      && s.changeSequence + 1 in d.applied && d.applied[s.changeSequence + 1].writes == ws
  {
    var all := WritesOf(p.changes);
    WritesNotEmpty(p);
    assert Matches(s.values, all) && x.expected.workflow in s.counters;
    var n := CommitRecords(s, all, p.digest, x);
    ws := all[..n];
    OverlayPrefix(s.values, all, ws, n);
    assert all[..|all|] == all;
    hide ApplyRefusal, CommitSpec, WritesOf, Overlay;
  }

  // ---------------------------------------------------------------------
  // Previews of distinct assets
  // ---------------------------------------------------------------------

  ghost predicate DistinctCells(ws: seq<Write>) {
    forall i, j :: 0 <= i < j < |ws| ==> ws[i].cell != ws[j].cell
  }

  ghost predicate DistinctAssets(changes: seq<AssetChange>) {
    forall i, j :: 0 <= i < j < |changes| ==> changes[i].asset != changes[j].asset
  }

  /** `after` is `before` with the first `n` writes made. */
  ghost predicate Written(before: Values, after: Values, ws: seq<Write>, n: nat)
    requires n <= |ws|
  {
    && after.Keys == before.Keys
    && (forall i :: 0 <= i < n ==> ws[i].cell in after && after[ws[i].cell] == ws[i].proposed)
    && (forall c :: c in before && (forall i :: 0 <= i < n ==> ws[i].cell != c) ==> after[c] == before[c])
  }

  /** On distinct cells that hold their expected values, the loop is never torn:
      it makes all writes, or the first few when the injected fault is due. */
  lemma {:induction false} PerformWrites(before: Values, now: Values, ws: seq<Write>, done: nat, fault: Option<nat>)
    requires done <= |ws| && Matches(before, ws) && DistinctCells(ws) && Written(before, now, ws, done)
    ensures var (after, n, halt) := Perform(now, ws, done, fault);
      && !halt.Torn? && n <= |ws| && Written(before, after, ws, n)
      && (halt.Finished? ==> n == |ws|) && (halt.Interrupted? ==> n > 0)
    decreases |ws| - done
  {
    PerformStops(now, ws, done, fault);
    if done < |ws| {
      var w := ws[done];
      PerformStep(now, ws, done, fault);
      assert forall i :: 0 <= i < done ==> ws[i].cell != w.cell;
      assert w.cell in now && now[w.cell] == w.before;
      assert Written(before, now[w.cell := w.proposed], ws, done + 1);
      PerformWrites(before, now[w.cell := w.proposed], ws, done + 1, fault);
    }
  }

  lemma OwnCells(c: AssetChange)
    ensures forall i :: 0 <= i < |ChangeWrites(c)| ==>
                          ChangeWrites(c)[i].cell.asset == c.asset && ChangeWrites(c)[i].cell.attribute in c.before
    ensures DistinctCells(ChangeWrites(c))
  {
    var order := Sorted(c.before.Keys);
    SortedOrders(c.before.Keys);
    assert forall i :: 0 <= i < |order| ==> ChangeWrites(c)[i].cell == Cell(c.asset, order[i]) && order[i] in order;
    hide Sorted, ChangeWrites;
  }

  ghost predicate Among(cell: Cell, changes: seq<AssetChange>, n: nat)
    requires n <= |changes|
  {
    exists k :: 0 <= k < n && cell.asset == changes[k].asset && cell.attribute in changes[k].before
  }

  lemma ApartFromOwn(changes: seq<AssetChange>, n: nat, front: seq<Write>, own: seq<Write>)
    requires n < |changes| && DistinctAssets(changes)
    requires forall w: Write :: w in front ==> Among(w.cell, changes, n)
    requires forall i :: 0 <= i < |own| ==>
                           own[i].cell.asset == changes[n].asset && own[i].cell.attribute in changes[n].before
    ensures forall v: Write, w: Write :: v in front && w in own ==> v.cell != w.cell
  {
    forall v: Write, w: Write | v in front && w in own
      ensures v.cell != w.cell
    {
      assert Among(v.cell, changes, n);
    }
  }

  lemma {:induction false} UpToAmong(changes: seq<AssetChange>, n: nat)
    requires n <= |changes|
    ensures forall w: Write :: w in WritesUpTo(changes, n) ==> Among(w.cell, changes, n)
  {
    if n > 0 {
      UpToAmong(changes, n - 1);
      OwnCells(changes[n - 1]);
      var front, own := WritesUpTo(changes, n - 1), ChangeWrites(changes[n - 1]);
      hide ChangeWrites;
      forall w: Write | w in WritesUpTo(changes, n)
        ensures Among(w.cell, changes, n)
      {
        if w in front {
          assert Among(w.cell, changes, n - 1);
        } else {
          assert w in own;
        }
      }
    }
  }

  lemma {:induction false} UpToDistinct(changes: seq<AssetChange>, n: nat)
    requires n <= |changes| && DistinctAssets(changes)
    ensures DistinctCells(WritesUpTo(changes, n))
  {
    hide Among, ChangeWrites, DistinctAssets;
    if n == 0 {
      assert WritesUpTo(changes, 0) == [];
    } else {
      var front, own := WritesUpTo(changes, n - 1), ChangeWrites(changes[n - 1]);
      UpToDistinct(changes, n - 1);
      UpToAmong(changes, n - 1);
      OwnCells(changes[n - 1]);
      ApartFromOwn(changes, n - 1, front, own);
      DistinctTogether(front, own);
    }
  }

  lemma DistinctTogether(a: seq<Write>, b: seq<Write>)
    requires DistinctCells(a) && DistinctCells(b) && forall v: Write, w: Write :: v in a && w in b ==> v.cell != w.cell
    ensures DistinctCells(a + b)
  {
    var ws := a + b;
    forall i, j | 0 <= i < j < |ws|
      ensures ws[i].cell != ws[j].cell
    {
      if i < |a| <= j {
        assert a[i] in a && b[j - |a|] in b;
      } else if |a| <= i {
        assert b[i - |a|].cell != b[j - |a|].cell;
      }
    }
  }

  lemma OverlayIsWritten(before: Values, ws: seq<Write>)
    requires Matches(before, ws) && DistinctCells(ws)
    ensures Written(before, Overlay(before, ws, |ws|), ws, |ws|)
  {
    OverlayKeys(before, ws, |ws|);
    forall i | 0 <= i < |ws|
      ensures Overlay(before, ws, |ws|)[ws[i].cell] == ws[i].proposed
    {
      OverlayCell(before, ws, |ws|, ws[i].cell, i);
    }
    forall c | c in before && forall i :: 0 <= i < |ws| ==> ws[i].cell != c
      ensures Overlay(before, ws, |ws|)[c] == before[c]
    {
      OverlayCell(before, ws, |ws|, c, -1);
    }
    hide Overlay;
  }

  /** What an apply of distinct assets that got past its checks has recorded: as
      many first writes as it made, all of them unless a fault was due. */
  lemma AppliedWrites(s: HarnessState, p: Preview, x: Authorization, now: Time) returns (ws: seq<Write>)
    requires WellFormed(p) && Valid(s) && DistinctAssets(p.changes)
    requires ApplyRefusal(s, p, x, now).None?
    ensures Records(s, p, x, now)
    ensures IsPrefix(ws, WritesOf(p.changes)) && ws != [] && Matches(s.values, ws) && DistinctCells(ws)
    ensures var (d, r) := ApplySpec(s, p, x, now);
      && Written(s.values, d.values, ws, |ws|)
      && (r == Ok(s.changeSequence + 1) || r == Err(PartialMutation(s.changeSequence + 1)))
      && (r.Ok? ==> ws == WritesOf(p.changes))
      && s.changeSequence + 1 in d.applied && d.applied[s.changeSequence + 1].writes == ws
  {
    var all := WritesOf(p.changes);
    assert Matches(s.values, all) && x.expected.workflow in s.counters;
    UpToDistinct(p.changes, |p.changes|);
    PerformWrites(s.values, s.values, all, 0, s.fault);
    CommitTorn(s, all, p.digest, x);
    ws := RecordedWrites(s, p, x, now);
    OverlayIsWritten(s.values, ws);
    hide ApplyRefusal, CommitSpec, WritesOf, Overlay, Perform, Written;
  }

  // ---------------------------------------------------------------------
  // Restoring
  // ---------------------------------------------------------------------

  /** Restoring the first writes, in any state of the other cells, undoes them. */
  lemma {:induction false} RestoreUndoes(before: Values, now: Values, items: seq<Restoration>, n: nat)
    requires n <= |items| && now.Keys == before.Keys
    requires forall i :: 0 <= i < |items| ==> items[i].cell in before && items[i].restoreTo == before[items[i].cell]
    ensures var after := RestoreAll(now, items[..n]);
      && after.Keys == now.Keys
      && (forall i :: 0 <= i < n ==> after[items[i].cell] == before[items[i].cell])
      && (forall c :: c in now && (forall i :: 0 <= i < n ==> items[i].cell != c) ==> after[c] == now[c])
  {
    if n > 0 {
      RestoreUndoes(before, now, items, n - 1);
      assert items[..n][..n - 1] == items[..n - 1];
    }
  }

  /** Restoring all the writes of a table that holds what they expect gives that table back, in any order. */
  lemma RestoredIsBefore(before: Values, ws: seq<Write>)
    requires Matches(before, ws)
    ensures var after := Overlay(before, ws, |ws|);
      after.Keys == before.Keys && RestoreAll(after, Restorations(after, ws)) == before
  {
    OverlayKeys(before, ws, |ws|);
    var after := Overlay(before, ws, |ws|);
    var items := Restorations(after, ws);
    assert forall i :: 0 <= i < |ws| ==> items[i].cell == ws[i].cell && items[i].restoreTo == ws[i].before;
    RestoreUndoes(before, after, items, |items|);
    assert items[..|items|] == items;
    var restored := RestoreAll(after, items);
    hide RestoreAll, Restorations;
    forall c | c in before
      ensures restored[c] == before[c]
    {
      var i := LastWriter(ws, |ws|, c);
      OverlayCell(before, ws, |ws|, c, i);
      if i >= 0 {
        assert restored[items[i].cell] == before[items[i].cell];
      }
    }
  }

  /** No two writes of one cell wrote different values. */
  ghost predicate Agree(ws: seq<Write>) {
    forall i, j :: 0 <= i < j < |ws| && ws[i].cell == ws[j].cell ==> ws[i].proposed == ws[j].proposed
  }

  /** With no other write, a plan has no conflict exactly when the recorded writes of each cell agree. */
  lemma NoConflictIffAgree(before: Values, ws: seq<Write>)
    requires Matches(before, ws)
    ensures var after := Overlay(before, ws, |ws|);
      after.Keys == before.Keys && (Conflicts(after, ws) == [] <==> Agree(ws))
  {
    OverlayKeys(before, ws, |ws|);
    var after := Overlay(before, ws, |ws|);
    assert forall i :: 0 <= i < |ws| ==> ws[i].cell in before;
    forall i | 0 <= i < |ws| && Agree(ws)
      ensures after[ws[i].cell] == ws[i].proposed
    {
      var k := LastWriter(ws, |ws|, ws[i].cell);
      OverlayCell(before, ws, |ws|, ws[i].cell, k);
      assert k >= i;
    }
    hide Conflicts, Overlay;
  }

  /** For any preview whose apply is recorded, in full or interrupted: if nothing
      else writes the table, executing the plan for what was recorded restores
      the whole table as it was before. */
  lemma RollbackRestores(s: HarnessState, p: Preview, x: Authorization, now: Time,
                         planned: HarnessState, expected: Version, planTime: Time,
                         executed: HarnessState, y: Authorization, later: Time)
    requires WellFormed(p) && Valid(s) && Records(s, p, x, now)
    requires var d := ApplySpec(s, p, x, now).0;
      && Valid(planned) && planned.values == d.values && planned.applied == d.applied && executed.values == d.values
    requires PlanSpec(planned, s.changeSequence + 1, expected, planTime).Ok?
    requires ExecuteSpec(executed, PlanSpec(planned, s.changeSequence + 1, expected, planTime).value, y, later).1.Ok?
    ensures var plan := PlanSpec(planned, s.changeSequence + 1, expected, planTime).value;
      plan.conflicts == [] && ExecuteSpec(executed, plan, y, later).0.values == s.values
  {
    var ws := RecordedWrites(s, p, x, now);
    RestoredIsBefore(s.values, ws);
    hide ApplySpec, Records, FingerprintOf, Conflicts, RestoreAll, Restorations, Overlay, Matches, Harmless;
  }

  /** A rollback that goes through overwrites only values its own change wrote:
      an external write to any written cell, before or after planning, makes it refuse. */
  lemma RollbackOverwritesOnlyItsOwn(planned: HarnessState, change: Id, expected: Version, planTime: Time,
                                     executed: HarnessState, y: Authorization, later: Time)
    requires Valid(planned) && PlanSpec(planned, change, expected, planTime).Ok?
    requires ExecuteSpec(executed, PlanSpec(planned, change, expected, planTime).value, y, later).1.Ok?
    ensures change in planned.applied
    ensures forall w: Write :: w in planned.applied[change].writes ==>
                                 w.cell in executed.values && executed.values[w.cell] == w.proposed
  {
    hide FingerprintOf, IsRegistered, RestoreAll;
    var plan := PlanSpec(planned, change, expected, planTime).value;
    assert change in planned.applied && Readable(planned.applied, planned.values.Keys);
    var ws := planned.applied[change].writes;
    assert Writes(ws, planned.values.Keys);
    assert forall i :: 0 <= i < |ws| ==> ws[i].cell in planned.values;
    assert plan.items == Restorations(planned.values, ws) && plan.conflicts == Conflicts(planned.values, ws);
    assert plan.conflicts == [] && forall i :: 0 <= i < |plan.items| ==>
        plan.items[i].cell in executed.values && executed.values[plan.items[i].cell] == plan.items[i].current;
    forall w: Write | w in ws
      ensures w.cell in executed.values && executed.values[w.cell] == w.proposed
    {
      var i :| 0 <= i < |ws| && ws[i] == w;
      assert plan.items[i] == Restoration(w.cell, planned.values[w.cell], w.before);
    }
  }

  /** The attributes each kind of fixture asset has. */
  predicate Has(a: Asset, t: Attribute) {
    || ((a == BUS_1 || a == BUS_2) && t == NOMINAL_VOLTAGE)
    || (a == LINE && t == RATING)
    || ((a == LOAD_1 || a == LOAD_2) && (t == ACTIVE_POWER || t == REACTIVE_POWER))
  }

  lemma FixtureHas(a: Asset, t: Attribute)
    ensures Cell(a, t) in FIXTURE.Keys <==> Has(a, t)
  {
  }

  /** The asset kinds share no attribute, so a read that succeeds covers at
      most two assets and two attributes. */
  lemma ReadIsSmall(assets: set<Asset>, attributes: set<Attribute>)
    requires assets != {} && attributes != {}
    requires forall a, t :: a in assets && t in attributes ==> Has(a, t)
    ensures |assets| <= 2 && |attributes| <= 2
  {
    var a :| a in assets;
    var t :| t in attributes;
    assert Has(a, t);
    var kin := if a == BUS_1 || a == BUS_2 then {BUS_1, BUS_2} else if a == LINE then {LINE} else {LOAD_1, LOAD_2};
    var own := if a == BUS_1 || a == BUS_2 then {NOMINAL_VOLTAGE} else if a == LINE then {RATING}
               else {ACTIVE_POWER, REACTIVE_POWER};
    forall b | b in assets ensures b in kin {
      assert Has(b, t);
    }
    forall u | u in attributes ensures u in own {
      assert Has(a, u);
    }
    Fits(assets, kin);
    Fits(attributes, own);
  }

  const FIXTURE_CELLS := {Cell(BUS_1, NOMINAL_VOLTAGE), Cell(BUS_2, NOMINAL_VOLTAGE), Cell(LINE, RATING),
                          Cell(LOAD_1, ACTIVE_POWER), Cell(LOAD_1, REACTIVE_POWER), Cell(LOAD_2, ACTIVE_POWER),
                          Cell(LOAD_2, REACTIVE_POWER)}

  lemma {:induction false} DistinctFit(ws: seq<Write>, cells: set<Cell>)
    requires DistinctCells(ws) && forall i :: 0 <= i < |ws| ==> ws[i].cell in cells
    ensures |ws| <= |cells|
    decreases |ws|
  {
    if |ws| > 0 {
      var n := |ws| - 1;
      DistinctFit(ws[..n], cells - {ws[n].cell});
    }
  }

  /** What a read covers when it succeeds. */
  lemma ReadCovers(values: Values, configuration: Id, assets: seq<Asset>, attributes: set<Attribute>)
    ensures FingerprintOf(values, configuration, assets, attributes).Ok? <==>
              && configuration == CONFIGURATION && assets != [] && attributes != {}
              && |assets| * |attributes| <= MAX_READ_CELLS
              && (forall a :: a in assets ==> a in ASSETS)
              && (forall a, t :: a in assets && t in attributes ==> Cell(a, t) in values.Keys)
  {
    var unreadable := set a | a in assets && (a !in ASSETS || exists t :: t in attributes && Cell(a, t) !in values);
    if unreadable == {} {
      forall a | a in assets
        ensures a in ASSETS && forall t :: t in attributes ==> Cell(a, t) in values.Keys
      {
        assert a !in unreadable;
      }
    } else {
      var a :| a in unreadable;
    }
  }

  /** The assets and attributes of a preview, each readable for each. */
  ghost predicate Covered(changes: seq<AssetChange>) {
    forall j, k, t :: 0 <= j < |changes| && 0 <= k < |changes| && t in changes[k].before ==>
                        changes[j].asset in ASSETS && Cell(changes[j].asset, t) in FIXTURE.Keys
  }

  lemma CheckedIsCovered(s: HarnessState, p: Preview, x: Authorization, now: Time)
    requires WellFormed(p) && Valid(s) && ApplyRefusal(s, p, x, now).None?
    ensures Covered(p.changes)
  {
    hide WritesOf, FingerprintOf, ChangedAssets, ChangedAttributes;
    var assets, attributes := ChangedAssets(p.changes), ChangedAttributes(p.changes);
    assert FingerprintOf(s.values, p.configuration, assets, attributes).Ok?;
    ReadCovers(s.values, p.configuration, assets, attributes);
    assert s.values.Keys == FIXTURE.Keys;
    forall j, k, t | 0 <= j < |p.changes| && 0 <= k < |p.changes| && t in p.changes[k].before
      ensures p.changes[j].asset in ASSETS && Cell(p.changes[j].asset, t) in FIXTURE.Keys
    {
      assert assets[j] in assets && t in attributes;
    }
  }

  lemma CrossCovered(changes: seq<AssetChange>, ws: seq<Write>)
    requires Covered(changes) && forall w: Write :: w in ws ==> Among(w.cell, changes, |changes|)
    ensures forall i, j :: 0 <= i < |ws| && 0 <= j < |ws| ==>
                             ws[i].cell.asset in ASSETS && Cell(ws[i].cell.asset, ws[j].cell.attribute) in FIXTURE.Keys
  {
    forall i, j | 0 <= i < |ws| && 0 <= j < |ws|
      ensures ws[i].cell.asset in ASSETS && Cell(ws[i].cell.asset, ws[j].cell.attribute) in FIXTURE.Keys
    {
      assert Among(ws[i].cell, changes, |changes|) && Among(ws[j].cell, changes, |changes|);
    }
  }

  lemma FewAttributes(ws: seq<Write>)
    requires ws != []
    requires forall i, j :: 0 <= i < |ws| && 0 <= j < |ws| ==>
                              Cell(ws[i].cell.asset, ws[j].cell.attribute) in FIXTURE.Keys
    ensures 0 < |AttributesOf(CellsOf(ws))| <= 2
  {
    var attributes := AttributesOf(CellsOf(ws));
    var some := set i | 0 <= i < |ws| :: ws[i].cell.asset;
    assert ws[0].cell.asset in some && CellsOf(ws)[0].attribute in attributes;
    forall a, t | a in some && t in attributes
      ensures Has(a, t)
    {
      FixtureHas(a, t);
      var i :| 0 <= i < |ws| && ws[i].cell.asset == a;
      var j :| 0 <= j < |ws| && CellsOf(ws)[j].attribute == t;
      assert ws[j].cell.attribute == t;
    }
    ReadIsSmall(some, attributes);
  }

  lemma FewWrites(ws: seq<Write>)
    requires DistinctCells(ws)
    requires forall i, j :: 0 <= i < |ws| && 0 <= j < |ws| ==>
                              Cell(ws[i].cell.asset, ws[j].cell.attribute) in FIXTURE.Keys
    ensures |ws| <= 7
  {
    assert FIXTURE.Keys == FIXTURE_CELLS;
    forall i | 0 <= i < |ws|
      ensures ws[i].cell in FIXTURE_CELLS
    {
      assert ws[i].cell == Cell(ws[i].cell.asset, ws[i].cell.attribute);
    }
    hide *;
    DistinctFit(ws, FIXTURE_CELLS);
  }

  /** How many values a read for these writes would yield. */
  function ReadSize(ws: seq<Write>): nat {
    |ws| * |AttributesOf(CellsOf(ws))|
  }

  /** The read that a plan makes for writes of a checked preview fails only for its size. */
  lemma PlanReads(changes: seq<AssetChange>, ws: seq<Write>, values: Values)
    requires Covered(changes) && values.Keys == FIXTURE.Keys && ws != []
    requires forall w: Write :: w in ws ==> Among(w.cell, changes, |changes|)
    ensures FingerprintOf(values, CONFIGURATION, AssetList(CellsOf(ws)), AttributesOf(CellsOf(ws))).Ok?
       <==> ReadSize(ws) <= MAX_READ_CELLS
  {
    var assets, attributes := AssetList(CellsOf(ws)), AttributesOf(CellsOf(ws));
    CrossCovered(changes, ws);
    FewAttributes(ws);
    ReadCovers(values, CONFIGURATION, assets, attributes);
    forall a, t | a in assets && t in attributes
      ensures a in ASSETS && Cell(a, t) in values.Keys
    {
      var j :| 0 <= j < |ws| && CellsOf(ws)[j].attribute == t;
      var i :| 0 <= i < |ws| && assets[i] == a;
      assert assets[i] == ws[i].cell.asset && t == ws[j].cell.attribute;
    }
    assert forall a :: a in assets ==> a in ASSETS by {
      assert forall i :: 0 <= i < |ws| ==> assets[i] == ws[i].cell.asset;
    }
  }

  lemma DistinctReadIsSmall(changes: seq<AssetChange>, ws: seq<Write>)
    requires Covered(changes) && ws != [] && DistinctCells(ws)
    requires forall w: Write :: w in ws ==> Among(w.cell, changes, |changes|)
    ensures ReadSize(ws) <= MAX_READ_CELLS
  {
    CrossCovered(changes, ws);
    FewWrites(ws);
    FewAttributes(ws);
    SmallProduct(|ws|, |AttributesOf(CellsOf(ws))|);
  }

  lemma SmallProduct(n: nat, k: nat)
    requires n <= 7 && k <= 2
    ensures n * k <= MAX_READ_CELLS
  {
    assert k == 0 || k == 1 || k == 2;
  }

  lemma WritesAmong(p: Preview, ws: seq<Write>)
    requires IsPrefix(ws, WritesOf(p.changes))
    ensures forall w: Write :: w in ws ==> Among(w.cell, p.changes, |p.changes|)
  {
    UpToAmong(p.changes, |p.changes|);
    forall w: Write | w in ws
      ensures w in WritesOf(p.changes)
    {
      var k :| 0 <= k < |ws| && ws[k] == w;
      assert WritesOf(p.changes)[k] == w;
    }
    hide Among, WritesUpTo;
  }

  /** A plan for a recorded apply is refused only for a stale workflow version,
      or when the recorded writes are too many to be read at once. */
  lemma RecordedPlanSucceedsIff(s: HarnessState, p: Preview, x: Authorization, now: Time, planned: HarnessState,
                                expected: Version, planTime: Time)
    requires WellFormed(p) && Valid(s) && Records(s, p, x, now)
    requires var d := ApplySpec(s, p, x, now).0; Valid(planned) && planned.applied == d.applied
    ensures s.changeSequence + 1 in planned.applied
    ensures PlanSpec(planned, s.changeSequence + 1, expected, planTime).Ok?
       <==> && expected.workflow in planned.counters && planned.counters[expected.workflow] == expected.counter
            && ReadSize(planned.applied[s.changeSequence + 1].writes) <= MAX_READ_CELLS
  {
    assert Counted(s.registered, s.counters) && planned.values.Keys == FIXTURE.Keys;
    var ws := RecordedWrites(s, p, x, now);
    CheckedIsCovered(s, p, x, now);
    WritesAmong(p, ws);
    PlanReads(p.changes, ws, planned.values);
    hide ApplySpec, ApplyRefusal, FingerprintOf, Conflicts, Overlay, Matches, Harmless, IsPrefix, WritesOf, ReadSize;
  }

  /** With distinct assets they are never too many. */
  lemma PlanSucceedsIff(s: HarnessState, p: Preview, x: Authorization, now: Time, planned: HarnessState,
                        expected: Version, planTime: Time)
    requires WellFormed(p) && Valid(s) && DistinctAssets(p.changes) && ApplyRefusal(s, p, x, now).None?
    requires var d := ApplySpec(s, p, x, now).0; Valid(planned) && planned.applied == d.applied
    ensures PlanSpec(planned, s.changeSequence + 1, expected, planTime).Ok?
       <==> expected.workflow in planned.counters && planned.counters[expected.workflow] == expected.counter
  {
    var ws := AppliedWrites(s, p, x, now);
    CheckedIsCovered(s, p, x, now);
    WritesAmong(p, ws);
    DistinctReadIsSmall(p.changes, ws);
    RecordedPlanSucceedsIff(s, p, x, now, planned, expected, planTime);
    hide ApplySpec, ApplyRefusal, PlanSpec, ReadSize;
  }

  /** An authorization for exactly this plan. */
  function AuthorizationFor(p: Plan, execution: Id): Authorization {
    Authorization(execution, p.digest, p.configuration, p.fingerprint, Rollback, true, p.expected, p.expiresAt)
  }

  /** A plan without conflicts goes through on the state it was made in, once a
      fresh authorization for it is registered and before it expires. */
  lemma FreshPlanExecutes(d: HarnessState, change: Id, expected: Version, planTime: Time, execution: Id, later: Time)
    requires Valid(d) && PlanSpec(d, change, expected, planTime).Ok? && execution !in d.registered
    requires PlanSpec(d, change, expected, planTime).value.conflicts == [] && later < planTime + PLAN_LIFETIME
    ensures var plan := PlanSpec(d, change, expected, planTime).value;
      var y := AuthorizationFor(plan, execution);
      RegisterSpec(d, y).1.Ok? && ExecuteSpec(RegisterSpec(d, y).0, plan, y, later).1.Ok?
  {
    var plan := PlanSpec(d, change, expected, planTime).value;
    var y := AuthorizationFor(plan, execution);
    var s := RegisterSpec(d, y).0;
    var ws := d.applied[change].writes;
    assert Writes(ws, d.values.Keys);
    assert s.values == d.values && s.revision == d.revision && s.counters == d.counters && IsRegistered(s, y);
    assert RestoredCells(plan.items) == CellsOf(ws);
    assert forall i :: 0 <= i < |ws| ==>
        plan.items[i].cell in s.values && s.values[plan.items[i].cell] == plan.items[i].current;
    hide FingerprintOf, Valid, Conflicts;
  }

  /** Every recorded apply, full or interrupted, can be undone exactly when its
      writes fit in one read and those of each cell agree: plan at the new
      workflow version, authorize, execute in time. The whole table is then as it was. */
  lemma UndoableIff(s: HarnessState, p: Preview, x: Authorization, now: Time, d: HarnessState, planTime: Time,
                    execution: Id, later: Time)
    requires WellFormed(p) && Valid(s) && Records(s, p, x, now)
    requires d == ApplySpec(s, p, x, now).0 && Valid(d)
    requires execution !in s.registered && later < planTime + PLAN_LIFETIME
    ensures var expected := Version(p.expected.workflow, p.expected.counter + 1);
      var r := PlanSpec(d, s.changeSequence + 1, expected, planTime);
      && s.changeSequence + 1 in d.applied
      && var ws := d.applied[s.changeSequence + 1].writes;
         && (r.Ok? <==> ReadSize(ws) <= MAX_READ_CELLS)
         && (r.Ok? ==>
               && (r.value.conflicts == [] <==> Agree(ws))
               && var (back, result) :=
                    ExecuteSpec(RegisterSpec(d, AuthorizationFor(r.value, execution)).0, r.value,
                                AuthorizationFor(r.value, execution), later);
                  && (result.Ok? <==> Agree(ws)) && (Agree(ws) ==> back.values == s.values))
  {
    var ws := RecordedWrites(s, p, x, now);
    ApplyCounts(s, p, x, now);
    var expected := Version(p.expected.workflow, p.expected.counter + 1);
    RecordedPlanSucceedsIff(s, p, x, now, d, expected, planTime);
    var r := PlanSpec(d, s.changeSequence + 1, expected, planTime);
    if r.Ok? {
      NoConflictIffAgree(s.values, ws);
      PlanConflicts(d, s.changeSequence + 1, expected, planTime);
      var y := AuthorizationFor(r.value, execution);
      if Agree(ws) {
        FreshPlanExecutes(d, s.changeSequence + 1, expected, planTime, execution, later);
        RollbackRestores(s, p, x, now, d, expected, planTime, RegisterSpec(d, y).0, y, later);
      } else {
        ConflictRefuses(RegisterSpec(d, y).0, r.value, y, later);
      }
    }
    hide ApplySpec, Records, PlanSpec, ExecuteSpec, RestoreAll, Conflicts, ReadSize, Agree, Overlay, Matches, Harmless,
         AuthorizationFor, IsPrefix, WritesOf;
  }

  lemma PlanConflicts(d: HarnessState, change: Id, expected: Version, planTime: Time)
    requires Valid(d) && PlanSpec(d, change, expected, planTime).Ok?
    ensures change in d.applied && Writes(d.applied[change].writes, d.values.Keys)
    ensures PlanSpec(d, change, expected, planTime).value.conflicts == Conflicts(d.values, d.applied[change].writes)
  {
    hide Conflicts, FingerprintOf;
  }

  lemma ConflictRefuses(s: HarnessState, plan: Plan, y: Authorization, later: Time)
    requires plan.conflicts != []
    ensures ExecuteSpec(s, plan, y, later).1.Err?
  {
    hide FingerprintOf;
  }

  /** With distinct assets every accepted apply can be undone. */
  lemma ApplyCanBeUndone(s: HarnessState, p: Preview, x: Authorization, now: Time, d: HarnessState, planTime: Time,
                         execution: Id, later: Time)
    requires WellFormed(p) && Valid(s) && DistinctAssets(p.changes) && ApplyRefusal(s, p, x, now).None?
    requires d == ApplySpec(s, p, x, now).0 && Valid(d)
    requires execution !in s.registered && later < planTime + PLAN_LIFETIME
    ensures var expected := Version(p.expected.workflow, p.expected.counter + 1);
      var r := PlanSpec(d, s.changeSequence + 1, expected, planTime);
      && r.Ok? && r.value.conflicts == []
      && var y := AuthorizationFor(r.value, execution);
         var (back, result) := ExecuteSpec(RegisterSpec(d, y).0, r.value, y, later);
         result.Ok? && back.values == s.values
  {
    var ws := AppliedWrites(s, p, x, now);
    CheckedIsCovered(s, p, x, now);
    WritesAmong(p, ws);
    DistinctReadIsSmall(p.changes, ws);
    UndoableIff(s, p, x, now, d, planTime, execution, later);
    assert Agree(ws);
    hide ApplySpec, ApplyRefusal, PlanSpec, ExecuteSpec, ReadSize, Written, Among;
  }

  lemma ApplyCounts(s: HarnessState, p: Preview, x: Authorization, now: Time)
    requires WellFormed(p) && Valid(s) && Records(s, p, x, now)
    ensures var d := ApplySpec(s, p, x, now).0;
      && p.expected.workflow in d.counters && d.counters[p.expected.workflow] == p.expected.counter + 1
      && d.registered == s.registered
  {
    var all := WritesOf(p.changes);
    WritesNotEmpty(p);
    assert Matches(s.values, all) && x.expected == p.expected && x.expected.workflow in s.counters;
    var n := CommitRecords(s, all, p.digest, x);
    hide FingerprintOf, WritesOf, CommitSpec, Overlay, Matches, HarmlessUpTo;
  }

  lemma {:induction false} Fits(s: set<nat>, t: set<nat>)
    requires s <= t
    ensures |s| <= |t|
  {
    if s != {} {
      var x :| x in s;
      Fits(s - {x}, t - {x});
    }
  }

  // ---------------------------------------------------------------------
  // Verification
  // ---------------------------------------------------------------------

  /** A verified comparison bounds what may differ, exactly: the total load by
      less than 2.5 MW, and no rise across 40 or 50 MW. */
  lemma ReproducedIff(a: real, b: real)
    ensures Reproduced(ResultsFor(a), ResultsFor(b))
       <==> -2.5 < b - a < 2.5 && !(a <= 40.0 < b) && !(a <= 50.0 < b)
  {
    var x, y := ResultsFor(a), ResultsFor(b);
    assert y.bus1 - x.bus1 == (a - b) * 0.001 && y.bus2 - x.bus2 == (a - b) * 0.0015;
    assert y.loading - x.loading == (b - a) * 2.0;
    assert UnderVoltage1 in Violations(x) <==> a > 50.0;
    assert UnderVoltage2 in Violations(x) <==> a > 40.0;
    assert Overload in Violations(x) <==> a > 50.0;
    assert UnderVoltage1 in Violations(y) <==> b > 50.0;
    assert UnderVoltage2 in Violations(y) <==> b > 40.0;
    assert Overload in Violations(y) <==> b > 50.0;
    var added := Violations(y) - Violations(x);
    assert added == {} <==> UnderVoltage1 !in added && UnderVoltage2 !in added && Overload !in added by {
      assert forall v :: v in added ==> v == UnderVoltage1 || v == UnderVoltage2 || v == Overload;
    }
  }

  /** Two runs over equal tables verify. */
  lemma SameTableVerifies(s: HarnessState, change: Id, baseline: Id, restored: Id, limit: int)
    requires METRICS <= limit <= MAX_PAGE_SIZE && change in s.rollbacks && baseline in s.runs && restored in s.runs
    requires exists total :: s.runs[baseline] == ResultsFor(total) == s.runs[restored]
    ensures var r := VerifySpec(s, change, baseline, restored, limit).1;
      r.Ok? && r.value.status.Verified? && r.value.reproduced == Some(true)
  {
    var total :| s.runs[baseline] == ResultsFor(total) == s.runs[restored];
    ReproducedIff(total, total);
    hide Reproduced, ResultsFor;
  }

  /** The whole cycle: a baseline run, an apply (full or interrupted), its plan
      and rollback with no other write, a second run. The table is back, the
      second run succeeds, and it verifies against the baseline. */
  lemma CycleVerifies(s: HarnessState, ran: HarnessState, d: HarnessState, registered: HarnessState, back: HarnessState,
                      p: Preview, x: Authorization, now: Time, expected: Version, planTime: Time, plan: Plan,
                      y: Authorization, later: Time, baseline: Id, limit: int)
    requires Valid(s) && Valid(d) && Loaded(s.values) && METRICS <= limit <= MAX_PAGE_SIZE
    requires RunSpec(s, CONFIGURATION, true) == (ran, Ok(baseline)) && Valid(ran)
    requires WellFormed(p) && Records(ran, p, x, now) && ApplySpec(ran, p, x, now).0 == d
    requires PlanSpec(d, s.changeSequence + 1, expected, planTime) == Ok(plan)
    requires RegisterSpec(d, y).0 == registered
    requires ExecuteSpec(registered, plan, y, later).1.Ok? && ExecuteSpec(registered, plan, y, later).0 == back
    ensures back.values == s.values && RunSpec(back, CONFIGURATION, true).1.Ok?
    ensures var (again, restored) := RunSpec(back, CONFIGURATION, true);
      var verdict := VerifySpec(again, plan.change, baseline, restored.value, limit).1;
      verdict.Ok? && verdict.value.status.Verified? && verdict.value.reproduced == Some(true)
  {
    hide ApplySpec, PlanSpec, ApplyRefusal, ExecuteRefusal;
    var total := TotalActive(s.values);
    assert ran == s.(runSequence := s.runSequence + 1, runs := s.runs[s.runSequence + 1 := ResultsFor(total)])
           && baseline == s.runSequence + 1 && total <= 90.0;
    assert registered.values == d.values && registered.runs == d.runs && registered.runSequence == d.runSequence;
    RollbackRestores(ran, p, x, now, d, expected, planTime, registered, y, later);
    assert back.values == s.values;
    ApplyKeepsRuns(ran, p, x, now);
    assert back.runs == ran.runs && back.runSequence == ran.runSequence && plan.change in back.rollbacks;
    var again := RunSpec(back, CONFIGURATION, true).0;
    var restored := back.runSequence + 1;
    assert RunSpec(back, CONFIGURATION, true).1 == Ok(restored) && again.rollbacks == back.rollbacks;
    assert again.runs == back.runs[restored := ResultsFor(total)];
    assert again.runs[baseline] == ResultsFor(total) == again.runs[restored];
    SameTableVerifies(again, plan.change, baseline, restored, limit);
  }
}
