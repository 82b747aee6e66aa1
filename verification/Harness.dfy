/** The in-memory workflow harness: apply a preview, plan and execute its rollback, run and compare load flows. */
module Harness {
  import opened Common

  type Id = nat
  type Time = int

  /** A fixture asset, and an attribute; attributes are numbered in their alphabetical order. */
  type Asset = nat
  type Attribute = nat

  const ACTIVE_POWER: Attribute := 0
  const NOMINAL_VOLTAGE: Attribute := 1
  const RATING: Attribute := 2
  const REACTIVE_POWER: Attribute := 3

  const AREA: Asset := 1
  const BUS_1: Asset := 2
  const BUS_2: Asset := 3
  const LINE: Asset := 4
  const LOAD_1: Asset := 5
  const LOAD_2: Asset := 6
  const ASSETS := {AREA, BUS_1, BUS_2, LINE, LOAD_1, LOAD_2}

  datatype Cell = Cell(asset: Asset, attribute: Attribute)
  datatype Quantity = Quantity(value: real, unit: Id)

  const KV: Id := 0
  const MVA: Id := 1
  const MW: Id := 2
  const MVAR: Id := 3

  type Values = map<Cell, Quantity>

  const FIXTURE: Values := map[
    Cell(BUS_1, NOMINAL_VOLTAGE) := Quantity(110.0, KV), Cell(BUS_2, NOMINAL_VOLTAGE) := Quantity(110.0, KV),
    Cell(LINE, RATING) := Quantity(50.0, MVA),
    Cell(LOAD_1, ACTIVE_POWER) := Quantity(10.0, MW), Cell(LOAD_1, REACTIVE_POWER) := Quantity(3.0, MVAR),
    Cell(LOAD_2, ACTIVE_POWER) := Quantity(20.0, MW), Cell(LOAD_2, REACTIVE_POWER) := Quantity(6.0, MVAR)]

  const MAX_READ_CELLS := 100
  const MAX_PAGE_SIZE := 100
  const PLAN_LIFETIME := 300

  datatype Version = Version(workflow: Id, counter: nat)
  datatype OperationType = Change | Rollback

  /** What a live read yields, whole: the digest of the original is injective in it. */
  datatype Fingerprint = Fingerprint(configuration: Id, assets: multiset<Asset>, cells: map<Cell, Quantity>)

  datatype Restoration = Restoration(cell: Cell, current: Quantity, restoreTo: Quantity)

  datatype Digest =
    | ContentDigest(n: Id)
    | PlanDigest(change: Id, items: seq<Restoration>, fingerprint: Fingerprint, expected: Version)

  /** One asset's targets. The class refuses to be built without them, or with
      different attributes on the two sides. */
  datatype Targets = Targets(asset: Asset, before: map<Attribute, Quantity>, proposed: map<Attribute, Quantity>)

  const ONE_TARGET := map[ACTIVE_POWER := Quantity(0.0, MW)]

  type AssetChange = c: Targets | c.before.Keys == c.proposed.Keys && c.before.Keys != {}
    witness assert ACTIVE_POWER in ONE_TARGET.Keys; Targets(LOAD_1, ONE_TARGET, ONE_TARGET)

  datatype Preview = Preview(
    changes: seq<AssetChange>, configuration: Id, expiresAt: Time, workspace: Id, revision: nat, expected: Version,
    fingerprint: Fingerprint, digest: Digest, operation: OperationType)

  predicate WellFormed(p: Preview) {
    p.changes != []
  }

  datatype Authorization = Authorization(
    execution: Id, digest: Digest, configuration: Id, fingerprint: Fingerprint, operation: OperationType,
    direct: bool, expected: Version, expiresAt: Time)

  datatype Write = Write(cell: Cell, before: Quantity, proposed: Quantity)

  datatype Status = Verified | Partial | Failed | NeedsReconciliation

  datatype AppliedChange = AppliedChange(writes: seq<Write>, digest: Digest, status: Status, revision: nat)

  datatype Plan = Plan(
    change: Id, workspace: Id, expected: Version, conflicts: seq<Cell>, items: seq<Restoration>, configuration: Id,
    fingerprint: Fingerprint, revision: nat, expiresAt: Time, digest: Digest)

  datatype RollbackResult = RollbackResult(
    items: seq<Restoration>, reproduced: Option<bool>, status: Status, revision: nat)

  datatype Results = Results(bus1: real, bus2: real, loading: real)

  datatype Failure =
    | AuthorizationInvalid | ConfigurationMismatch | StaleContext | InvalidOperation | ObjectNotFound
    | PartialMutation(change: Id) | RollbackConflict | NonConvergence

  datatype HarnessState = HarnessState(
    values: Values, revision: nat, counters: map<Id, nat>, registered: map<Id, Authorization>, consumed: set<Id>,
    fault: Option<nat>, changeSequence: nat, applied: map<Id, AppliedChange>, rollbacks: map<Id, RollbackResult>,
    runSequence: nat, runs: map<Id, Results>)

  const CONFIGURATION: Id := 0
  const WORKSPACE: Id := 0

  // ---------------------------------------------------------------------
  // Reading
  // ---------------------------------------------------------------------

  function AttributesOf(cells: seq<Cell>): set<Attribute> {
    set i | 0 <= i < |cells| :: cells[i].attribute
  }

  /** `live_state_fingerprint`: every asset is read for every attribute. */
  function FingerprintOf(values: Values, configuration: Id, assets: seq<Asset>, attributes: set<Attribute>)
    : Result<Fingerprint, Failure>
  {
    if configuration != CONFIGURATION then Err(ConfigurationMismatch)
    else if assets == [] || attributes == {} then Err(InvalidOperation)
    else if |assets| * |attributes| > MAX_READ_CELLS then Err(InvalidOperation)
    else
      var unreadable := set a | a in assets && (a !in ASSETS || exists t :: t in attributes && Cell(a, t) !in values);
      if unreadable != {} then Err(if Least(unreadable) in ASSETS then InvalidOperation else ObjectNotFound)
      else
        var cells := map c | c in values && c.asset in assets && c.attribute in attributes :: values[c];
        Ok(Fingerprint(configuration, multiset(assets), cells))
  }

  // ---------------------------------------------------------------------
  // Applying
  // ---------------------------------------------------------------------

  function Least(s: set<nat>): (m: nat)
    requires s != {}
    ensures m in s && forall x :: x in s ==> m <= x
  {
    var k :| k in s;
    LeastExists(s, k);
    var m :| m in s && forall x :: x in s ==> m <= x;
    m
  }

  lemma {:induction false} LeastExists(s: set<nat>, k: nat)
    requires k in s
    ensures exists m :: m in s && forall x :: x in s ==> m <= x
    decreases k
  {
    if x :| x in s && x < k {
      LeastExists(s, x);
    }
  }

  function Sorted(s: set<nat>): seq<nat>
    decreases |s|
  {
    if s == {} then [] else [Least(s)] + Sorted(s - {Least(s)})
  }

  /** The elements in increasing order, each once. */
  lemma {:induction false} SortedOrders(s: set<nat>)
    ensures |Sorted(s)| == |s| && (forall x :: x in Sorted(s) <==> x in s)
    ensures forall i, j :: 0 <= i < j < |Sorted(s)| ==> Sorted(s)[i] < Sorted(s)[j]
    decreases |s|
  {
    if s != {} {
      var m := Least(s);
      var rest := Sorted(s - {m});
      SortedOrders(s - {m});
      assert Sorted(s) == [m] + rest;
      hide Sorted, Least;
      forall i | 0 <= i < |rest|
        ensures m < rest[i]
      {
        assert rest[i] in rest;
      }
    }
  }

  /** One asset's writes, in attribute order. */
  function ChangeWrites(c: AssetChange): (ws: seq<Write>)
    ensures |ws| == |c.before.Keys|
  {
    SortedOrders(c.before.Keys);
    var order := Sorted(c.before.Keys);
    seq(|order|, i requires 0 <= i < |order| =>
          assert order[i] in order; Write(Cell(c.asset, order[i]), c.before[order[i]], c.proposed[order[i]]))
  }

  /** The writes of the first `n` changes, in the order they are made. */
  function WritesUpTo(changes: seq<AssetChange>, n: nat): seq<Write>
    requires n <= |changes|
  {
    if n == 0 then [] else WritesUpTo(changes, n - 1) + ChangeWrites(changes[n - 1])
  }

  function WritesOf(changes: seq<AssetChange>): seq<Write> {
    WritesUpTo(changes, |changes|)
  }

  datatype Halt = Finished | Interrupted | Torn

  /** The write loop from write number `done` on: it re-checks each target,
      and stops early on a mismatch or when the injected fault is due. */
  function Perform(values: Values, ws: seq<Write>, done: nat, fault: Option<nat>): (Values, nat, Halt)
    requires done <= |ws|
    decreases |ws| - done
  {
    if done == |ws| then (values, done, Finished)
    else
      var w := ws[done];
      if w.cell !in values || values[w.cell] != w.before then (values, done, Torn)
      else if fault.Some? && done + 1 >= fault.value then (values[w.cell := w.proposed], done + 1, Interrupted)
      else Perform(values[w.cell := w.proposed], ws, done + 1, fault)
  }

  predicate IsRegistered(s: HarnessState, x: Authorization) {
    x.direct && x.execution in s.registered && s.registered[x.execution] == x && x.execution !in s.consumed
  }

  /** Registering sets up the workflow's counter, so every registered authorization has one. */
  ghost predicate Counted(registered: map<Id, Authorization>, counters: map<Id, nat>) {
    forall x :: x in registered ==> registered[x].expected.workflow in counters
  }

  predicate Matches(values: Values, ws: seq<Write>) {
    forall i :: 0 <= i < |ws| ==> ws[i].cell in values && values[ws[i].cell] == ws[i].before
  }

  function ChangedAssets(changes: seq<AssetChange>): (assets: seq<Asset>)
    ensures |assets| == |changes| && forall i :: 0 <= i < |changes| ==> assets[i] == changes[i].asset
  {
    seq(|changes|, i requires 0 <= i < |changes| => changes[i].asset)
  }

  function ChangedAttributes(changes: seq<AssetChange>): (attributes: set<Attribute>)
    ensures forall t :: t in attributes <==> exists i :: 0 <= i < |changes| && t in changes[i].before
  {
    set i, t | 0 <= i < |changes| && t in changes[i].before :: t
  }

  /** Why an apply is refused before anything is written. */
  function ApplyRefusal(s: HarnessState, p: Preview, x: Authorization, now: Time): Option<Failure>
    requires WellFormed(p)
  {
    var live := FingerprintOf(s.values, p.configuration, ChangedAssets(p.changes), ChangedAttributes(p.changes));
    if !IsRegistered(s, x) then Some(AuthorizationInvalid)
    else if p.configuration != CONFIGURATION then Some(ConfigurationMismatch)
    else if p.expiresAt <= now || p.workspace != WORKSPACE || p.revision != s.revision then Some(StaleContext)
    else if p.expected.workflow !in s.counters || s.counters[p.expected.workflow] != p.expected.counter then
      Some(StaleContext)
    else if live.Err? then Some(live.error)
    else if live.value != p.fingerprint || !Matches(s.values, WritesOf(p.changes)) then Some(StaleContext)
    else if x.expiresAt <= now || x.digest != p.digest || x.configuration != p.configuration
            || x.fingerprint != p.fingerprint || x.operation != p.operation || x.expected != p.expected then
      Some(AuthorizationInvalid)
    else None
  }

  function Recorded(s: HarnessState, values: Values, change: Id, x: Authorization, writes: seq<Write>,
                    digest: Digest, status: Status, fault: Option<nat>): HarnessState
    requires x.expected.workflow in s.counters
  {
    s.(values := values, consumed := s.consumed + {x.execution}, changeSequence := change, revision := s.revision + 1,
       counters := s.counters[x.expected.workflow := s.counters[x.expected.workflow] + 1],
       applied := s.applied[change := AppliedChange(writes, digest, status, s.revision + 1)], fault := fault)
  }

  /** What an apply that is not refused does. An interrupted one records what it wrote; a torn one records nothing. */
  function CommitSpec(s: HarnessState, ws: seq<Write>, digest: Digest, x: Authorization)
    : (HarnessState, Result<Id, Failure>)
    requires x.expected.workflow in s.counters
  {
    var change := s.changeSequence + 1;
    var (values, done, halt) := Perform(s.values, ws, 0, s.fault);
    PerformStops(s.values, ws, 0, s.fault);
    match halt
    case Finished => (Recorded(s, values, change, x, ws, digest, Verified, s.fault), Ok(change))
    case Interrupted =>
      (Recorded(s, values, change, x, ws[..done], digest, NeedsReconciliation, None), Err(PartialMutation(change)))
    case Torn =>
      (s.(values := values, consumed := s.consumed + {x.execution}, changeSequence := change), Err(StaleContext))
  }

  /** `apply_change`. */
  function ApplySpec(s: HarnessState, p: Preview, x: Authorization, now: Time): (HarnessState, Result<Id, Failure>)
    requires WellFormed(p) && Counted(s.registered, s.counters)
  {
    var refusal := ApplyRefusal(s, p, x, now);
    if refusal.Some? then (s, Err(refusal.value)) else CommitSpec(s, WritesOf(p.changes), p.digest, x)
  }

  lemma {:induction false} PerformStops(values: Values, ws: seq<Write>, done: nat, fault: Option<nat>)
    requires done <= |ws|
    ensures var (_, n, halt) := Perform(values, ws, done, fault);
      done <= n <= |ws| && (halt.Finished? ==> n == |ws|) && (halt.Interrupted? ==> n > done)
    decreases |ws| - done
  {
    if done < |ws| {
      PerformStops(values[ws[done].cell := ws[done].proposed], ws, done + 1, fault);
    }
  }

  // ---------------------------------------------------------------------
  // Rolling back
  // ---------------------------------------------------------------------

  function CellsOf(ws: seq<Write>): (cells: seq<Cell>)
    ensures |cells| == |ws| && forall i :: 0 <= i < |ws| ==> cells[i] == ws[i].cell
  {
    seq(|ws|, i requires 0 <= i < |ws| => ws[i].cell)
  }

  function RestoredCells(items: seq<Restoration>): (cells: seq<Cell>)
    ensures |cells| == |items| && forall i :: 0 <= i < |items| ==> cells[i] == items[i].cell
  {
    seq(|items|, i requires 0 <= i < |items| => items[i].cell)
  }

  function AssetList(cells: seq<Cell>): (assets: seq<Asset>)
    ensures |assets| == |cells| && forall i :: 0 <= i < |cells| ==> assets[i] == cells[i].asset
  {
    seq(|cells|, i requires 0 <= i < |cells| => cells[i].asset)
  }

  function Restorations(values: Values, ws: seq<Write>): (items: seq<Restoration>)
    requires forall i :: 0 <= i < |ws| ==> ws[i].cell in values
    ensures |items| == |ws|
  {
    seq(|ws|, i requires 0 <= i < |ws| => Restoration(ws[i].cell, values[ws[i].cell], ws[i].before))
  }

  /** The written cells whose live value is no longer the one that was confirmed. */
  function Conflicts(values: Values, ws: seq<Write>): (cells: seq<Cell>)
    requires forall i :: 0 <= i < |ws| ==> ws[i].cell in values
    ensures cells == [] <==> forall i :: 0 <= i < |ws| ==> values[ws[i].cell] == ws[i].proposed
  {
    if ws == [] then []
    else
      var n := |ws| - 1;
      Conflicts(values, ws[..n]) + if values[ws[n].cell] != ws[n].proposed then [ws[n].cell] else []
  }

  /** Nothing ever removes a cell, so what was written can be read. */
  ghost predicate Readable(applied: map<Id, AppliedChange>, cells: set<Cell>) {
    forall c :: c in applied ==> Writes(applied[c].writes, cells)
  }

  ghost predicate Writes(ws: seq<Write>, cells: set<Cell>) {
    ws != [] && forall i :: 0 <= i < |ws| ==> ws[i].cell in cells
  }

  function PlanSpec(s: HarnessState, change: Id, expected: Version, now: Time): Result<Plan, Failure>
    requires Readable(s.applied, s.values.Keys)
  {
    if change !in s.applied then Err(ObjectNotFound)
    else if expected.workflow !in s.counters || s.counters[expected.workflow] != expected.counter then Err(StaleContext)
    else
      var ws := s.applied[change].writes;
      assert Writes(ws, s.values.Keys);
      var items := Restorations(s.values, ws);
      match FingerprintOf(s.values, CONFIGURATION, AssetList(CellsOf(ws)), AttributesOf(CellsOf(ws)))
      case Err(e) => Err(e)
      case Ok(f) =>
        Ok(Plan(change, WORKSPACE, expected, Conflicts(s.values, ws), items, CONFIGURATION, f, s.revision,
                now + PLAN_LIFETIME, PlanDigest(change, items, f, expected)))
  }

  function RestoreAll(values: Values, items: seq<Restoration>): Values {
    if items == [] then values
    else RestoreAll(values, items[..|items| - 1])[items[|items| - 1].cell := items[|items| - 1].restoreTo]
  }

  function ExecuteRefusal(s: HarnessState, p: Plan, x: Authorization, now: Time): Option<Failure> {
    var cells := RestoredCells(p.items);
    var live := FingerprintOf(s.values, p.configuration, AssetList(cells), AttributesOf(cells));
    if !IsRegistered(s, x) then Some(AuthorizationInvalid)
    else if p.configuration != CONFIGURATION then Some(ConfigurationMismatch)
    else if p.expiresAt <= now || p.workspace != WORKSPACE || p.revision != s.revision then Some(StaleContext)
    else if p.expected.workflow !in s.counters || s.counters[p.expected.workflow] != p.expected.counter then
      Some(StaleContext)
    else if live.Err? then Some(live.error)
    else if live.value != p.fingerprint || p.conflicts != [] then Some(RollbackConflict)
    else if exists i :: 0 <= i < |p.items| && (p.items[i].cell !in s.values
                                               || s.values[p.items[i].cell] != p.items[i].current) then
      Some(RollbackConflict)
    else if x.expiresAt <= now || x.digest != p.digest || x.configuration != p.configuration
            || x.fingerprint != p.fingerprint || !x.operation.Rollback? || x.expected != p.expected then
      Some(AuthorizationInvalid)
    else None
  }

  function ExecuteSpec(s: HarnessState, p: Plan, x: Authorization, now: Time)
    : (HarnessState, Result<RollbackResult, Failure>)
  {
    var refusal := ExecuteRefusal(s, p, x, now);
    if refusal.Some? then (s, Err(refusal.value))
    else
      var result := RollbackResult(p.items, None, Partial, s.revision + 1);
      (s.(values := RestoreAll(s.values, p.items), consumed := s.consumed + {x.execution}, revision := s.revision + 1,
          counters := s.counters[p.expected.workflow := s.counters[p.expected.workflow] + 1],
          rollbacks := s.rollbacks[p.change := result]),
       Ok(result))
  }

  // ---------------------------------------------------------------------
  // Load flow and comparison
  // ---------------------------------------------------------------------

  predicate Loaded(values: Values) {
    Cell(LOAD_1, ACTIVE_POWER) in values && Cell(LOAD_2, ACTIVE_POWER) in values
  }

  function TotalActive(values: Values): real
    requires Loaded(values)
  {
    values[Cell(LOAD_1, ACTIVE_POWER)].value + values[Cell(LOAD_2, ACTIVE_POWER)].value
  }

  function ResultsFor(total: real): Results {
    Results(1.0 - total * 0.001, 1.01 - total * 0.0015, total / 50.0 * 100.0)
  }

  /** `settings` says whether the command settings are admitted. */
  function RunSpec(s: HarnessState, configuration: Id, settings: bool): (HarnessState, Result<Id, Failure>)
    requires Loaded(s.values)
  {
    if configuration != CONFIGURATION then (s, Err(ConfigurationMismatch))
    else if !settings then (s, Err(InvalidOperation))
    else if TotalActive(s.values) > 90.0 then (s, Err(NonConvergence))
    else
      var id := s.runSequence + 1;
      (s.(runSequence := id, runs := s.runs[id := ResultsFor(TotalActive(s.values))]), Ok(id))
  }

  datatype Violation = UnderVoltage1 | UnderVoltage2 | Overload

  function Violations(r: Results): set<Violation> {
    (if r.bus1 < 0.95 then {UnderVoltage1} else {}) + (if r.bus2 < 0.95 then {UnderVoltage2} else {})
    + (if r.loading > 100.0 then {Overload} else {})
  }

  function Abs(x: real): real {
    if x < 0.0 then -x else x
  }

  /** Whether any metric moved by its materiality threshold or more. */
  predicate Material(a: Results, b: Results) {
    Abs(b.bus1 - a.bus1) >= 0.005 || Abs(b.bus2 - a.bus2) >= 0.005 || Abs(b.loading - a.loading) >= 5.0
  }

  predicate Reproduced(baseline: Results, candidate: Results) {
    !Material(baseline, candidate) && Violations(candidate) - Violations(baseline) == {}
  }

  const METRICS := 3

  function VerifySpec(s: HarnessState, change: Id, baseline: Id, restored: Id, limit: int)
    : (HarnessState, Result<RollbackResult, Failure>)
  {
    if limit < 1 || limit > MAX_PAGE_SIZE then (s, Err(InvalidOperation))
    else if change !in s.rollbacks || baseline !in s.runs || restored !in s.runs then (s, Err(ObjectNotFound))
    else if METRICS > limit then (s, Err(InvalidOperation))
    else
      var reproduced := Reproduced(s.runs[baseline], s.runs[restored]);
      var status := if reproduced then Verified else Failed;
      var result := s.rollbacks[change].(reproduced := Some(reproduced), status := status);
      (s.(rollbacks := s.rollbacks[change := result]), Ok(result))
  }

  function RegisterSpec(s: HarnessState, x: Authorization): (HarnessState, Result<(), Failure>) {
    if !x.direct || x.execution in s.registered then (s, Err(AuthorizationInvalid))
    else
      (s.(registered := s.registered[x.execution := x], consumed := s.consumed - {x.execution},
          counters := if x.expected.workflow in s.counters then s.counters
                      else s.counters[x.expected.workflow := x.expected.counter]),
       Ok(()))
  }

  /** What every method keeps: the fixture's cells and nothing else, a counter
      for each registered workflow, and readable applied changes. */
  ghost predicate Valid(s: HarnessState) {
    s.values.Keys == FIXTURE.Keys && Counted(s.registered, s.counters) && Readable(s.applied, FIXTURE.Keys)
  }

  lemma {:induction false} PerformKeys(values: Values, ws: seq<Write>, done: nat, fault: Option<nat>)
    requires done <= |ws|
    ensures var (after, n, halt) := Perform(values, ws, done, fault);
      && after.Keys == values.Keys
      && done <= n <= |ws| && (halt.Finished? ==> n == |ws|) && (halt.Interrupted? ==> n > done)
      && forall i :: done <= i < n ==> ws[i].cell in values.Keys
    decreases |ws| - done
  {
    if done < |ws| && ws[done].cell in values {
      PerformKeys(values[ws[done].cell := ws[done].proposed], ws, done + 1, fault);
    }
  }

  lemma {:induction false} RestoreKeys(values: Values, items: seq<Restoration>)
    requires forall i :: 0 <= i < |items| ==> items[i].cell in values
    ensures RestoreAll(values, items).Keys == values.Keys
  {
    if items != [] {
      RestoreKeys(values, items[..|items| - 1]);
    }
  }

  lemma {:induction false} WritesPrefix(changes: seq<AssetChange>, i: nat, n: nat)
    requires i <= n <= |changes|
    ensures WritesUpTo(changes, i) <= WritesUpTo(changes, n)
    decreases n
  {
    hide ChangeWrites;
    if i < n {
      WritesPrefix(changes, i, n - 1);
    }
  }

  /** Where the writes of change number `i` are. */
  lemma WritesStep(changes: seq<AssetChange>, i: nat)
    requires i < |changes|
    ensures var start, n, ws := |WritesUpTo(changes, i)|, |ChangeWrites(changes[i])|, WritesOf(changes);
      && |WritesUpTo(changes, i + 1)| == start + n <= |ws|
      && forall j :: 0 <= j < n ==> ws[start + j] == ChangeWrites(changes[i])[j]
  {
    hide ChangeWrites;
    WritesPrefix(changes, i + 1, |changes|);
    var front, own := WritesUpTo(changes, i), ChangeWrites(changes[i]);
    var ws := WritesOf(changes);
    assert front + own == WritesUpTo(changes, i + 1) <= ws;
    forall j | 0 <= j < |own|
      ensures ws[|front| + j] == own[j]
    {
      assert (front + own)[|front| + j] == own[j];
    }
  }

  lemma ApplyKeepsValid(s: HarnessState, p: Preview, x: Authorization, now: Time)
    requires WellFormed(p) && Valid(s)
    ensures Valid(ApplySpec(s, p, x, now).0)
  {
    hide FingerprintOf, Matches, Perform, WellFormed, WritesOf;
    var ws := WritesOf(p.changes);
    WritesNotEmpty(p);
    PerformKeys(s.values, ws, 0, s.fault);
    if ApplyRefusal(s, p, x, now).None? {
      assert x.expected.workflow in s.counters;
      var (_, done, halt) := Perform(s.values, ws, 0, s.fault);
      assert ws[..|ws|] == ws;
      assert !halt.Torn? ==> Writes(ws[..done], FIXTURE.Keys);
    }
  }

  predicate IsPrefix(confirmed: seq<Write>, ws: seq<Write>) {
    |confirmed| <= |ws| && forall k :: 0 <= k < |confirmed| ==> confirmed[k] == ws[k]
  }

  lemma PrefixExtends(confirmed: seq<Write>, writes: seq<Write>, n: nat, ws: seq<Write>)
    requires IsPrefix(confirmed, ws) && n <= |writes| && |confirmed| + |writes| <= |ws|
    requires forall j :: 0 <= j < |writes| ==> ws[|confirmed| + j] == writes[j]
    ensures IsPrefix(confirmed + writes[..n], ws)
  {
    forall k | 0 <= k < |confirmed| + n
      ensures (confirmed + writes[..n])[k] == ws[k]
    {
      if k >= |confirmed| {
        assert ws[|confirmed| + (k - |confirmed|)] == writes[k - |confirmed|];
      }
    }
  }

  lemma PerformStep(values: Values, ws: seq<Write>, n: nat, fault: Option<nat>)
    requires n < |ws|
    ensures var w := ws[n];
      Perform(values, ws, n, fault) ==
      if w.cell !in values || values[w.cell] != w.before then (values, n, Torn)
      else if fault.Some? && n + 1 >= fault.value then (values[w.cell := w.proposed], n + 1, Interrupted)
      else Perform(values[w.cell := w.proposed], ws, n + 1, fault)
  {
  }

  lemma PerformEnd(values: Values, ws: seq<Write>, fault: Option<nat>)
    ensures Perform(values, ws, |ws|, fault) == (values, |ws|, Finished)
  {
  }

  lemma ApplyKeepsRuns(s: HarnessState, p: Preview, x: Authorization, now: Time)
    requires WellFormed(p) && Valid(s) && ApplyRefusal(s, p, x, now).None?
    ensures var d := ApplySpec(s, p, x, now).0; d.runs == s.runs && d.runSequence == s.runSequence
  {
    assert x.expected.workflow in s.counters && Counted(s.registered, s.counters);
  }

  lemma WritesNotEmpty(p: Preview)
    requires WellFormed(p)
    ensures WritesOf(p.changes) != []
  {
    var last := p.changes[|p.changes| - 1];
    assert |ChangeWrites(last)| == |last.before.Keys| > 0;
  }

  class DeterministicHeadlineHarness {
    var values: Values
    var workspaceRevision: nat
    var workflowCounters: map<Id, nat>
    var registeredAuthorizations: map<Id, Authorization>
    var consumedExecutions: set<Id>
    var partialMutationAfter: Option<nat>
    var changeSequence: nat
    var applied: map<Id, AppliedChange>
    var rollbackResults: map<Id, RollbackResult>
    var runSequence: nat
    var runs: map<Id, Results>

    ghost function State(): HarnessState
      reads this
    {
      HarnessState(values, workspaceRevision, workflowCounters, registeredAuthorizations, consumedExecutions,
                   partialMutationAfter, changeSequence, applied, rollbackResults, runSequence, runs)
    }

    constructor ()
      ensures Valid(State()) && values == FIXTURE
    {
      values := FIXTURE;
      workspaceRevision, changeSequence, runSequence := 0, 0, 0;
      workflowCounters, registeredAuthorizations, applied, rollbackResults, runs := map[], map[], map[], map[], map[];
      consumedExecutions, partialMutationAfter := {}, None;
    }

    method RegisterTestAuthorization(x: Authorization) returns (r: Result<(), Failure>)
      requires Valid(State())
      modifies this
      ensures (State(), r) == RegisterSpec(old(State()), x) && Valid(State())
    {
      if !x.direct || x.execution in registeredAuthorizations {
        return Err(AuthorizationInvalid);
      }
      registeredAuthorizations := registeredAuthorizations[x.execution := x];
      consumedExecutions := consumedExecutions - {x.execution};
      if x.expected.workflow !in workflowCounters {
        workflowCounters := workflowCounters[x.expected.workflow := x.expected.counter];
      }
      return Ok(());
    }

    method InjectPartialMutation(afterWrites: nat) returns (ok: bool)
      requires Valid(State())
      modifies this`partialMutationAfter
      ensures ok == (afterWrites >= 1) && Valid(State())
      ensures partialMutationAfter == if ok then Some(afterWrites) else old(partialMutationAfter)
    {
      if afterWrites < 1 {
        return false;
      }
      partialMutationAfter := Some(afterWrites);
      return true;
    }

    /** An out-of-band writer: any existing cell, in its own unit. */
    method ForceExternalChange(asset: Asset, attribute: Attribute, value: Quantity) returns (r: Result<(), Failure>)
      requires Valid(State())
      modifies this`values
      ensures Valid(State())
      ensures var c := Cell(asset, attribute);
        if asset in ASSETS && c in old(values) && old(values)[c].unit == value.unit then
          r.Ok? && values == old(values)[c := value]
        else
          r.Err? && values == old(values)
    {
      if asset !in ASSETS {
        return Err(ObjectNotFound);
      }
      var c := Cell(asset, attribute);
      if c !in values || values[c].unit != value.unit {
        return Err(InvalidOperation);
      }
      values := values[c := value];
      return Ok(());
    }

    /** One asset's writes: every target is read again before it is written. */
    method WriteAsset(writes: seq<Write>, start: nat, ghost ws: seq<Write>) returns (n: nat, halt: Halt)
      requires start + |writes| <= |ws| && forall j :: 0 <= j < |writes| ==> ws[start + j] == writes[j]
      modifies this`values
      ensures n <= |writes| && (halt.Finished? ==> n == |writes|)
      ensures Perform(old(values), ws, start, partialMutationAfter)
           == if halt.Finished? then Perform(values, ws, start + n, partialMutationAfter) else (values, start + n, halt)
    {
      hide *;
      for j := 0 to |writes|
        invariant Perform(old(values), ws, start, partialMutationAfter)
               == Perform(values, ws, start + j, partialMutationAfter)
      {
        PerformStep(values, ws, start + j, partialMutationAfter);
        var w := writes[j];
        if w.cell !in values || values[w.cell] != w.before {
          return j, Torn;
        }
        values := values[w.cell := w.proposed];
        if partialMutationAfter.Some? && start + j + 1 >= partialMutationAfter.value {
          return j + 1, Interrupted;
        }
      }
      return |writes|, Finished;
    }

    /** The write loop over the assets of a preview. */
    method MakeWrites(changes: seq<AssetChange>) returns (confirmed: seq<Write>, halt: Halt)
      modifies this`values
      ensures (values, |confirmed|, halt) == Perform(old(values), WritesOf(changes), 0, partialMutationAfter)
      ensures IsPrefix(confirmed, WritesOf(changes))
    {
      confirmed, halt := [], Finished;
      ghost var ws := WritesOf(changes);
      hide ChangeWrites, Perform;
      assert |WritesUpTo(changes, 0)| == 0 && ws == WritesUpTo(changes, |changes|);
      assert IsPrefix(confirmed, ws);
      for i := 0 to |changes|
        invariant |confirmed| == |WritesUpTo(changes, i)| && IsPrefix(confirmed, ws)
        invariant Perform(old(values), ws, 0, partialMutationAfter)
               == Perform(values, ws, |confirmed|, partialMutationAfter)
      {
        WritesStep(changes, i);
        var writes := ChangeWrites(changes[i]);
        var n: nat;
        n, halt := WriteAsset(writes, |confirmed|, ws);
        PrefixExtends(confirmed, writes, n, ws);
        confirmed := confirmed + writes[..n];
        if !halt.Finished? {
          return;
        }
      }
      PerformEnd(values, ws, partialMutationAfter);
      halt := Finished;
    }

    method RecordApplied(change: Id, x: Authorization, digest: Digest, writes: seq<Write>, status: Status)
      requires x.expected.workflow in workflowCounters
      modifies this`workspaceRevision, this`workflowCounters, this`applied
      ensures workspaceRevision == old(workspaceRevision) + 1
      ensures workflowCounters ==
              old(workflowCounters)[x.expected.workflow := old(workflowCounters)[x.expected.workflow] + 1]
      ensures applied == old(applied)[change := AppliedChange(writes, digest, status, old(workspaceRevision) + 1)]
    {
      workspaceRevision := workspaceRevision + 1;
      workflowCounters := workflowCounters[x.expected.workflow := workflowCounters[x.expected.workflow] + 1];
      applied := applied[change := AppliedChange(writes, digest, status, workspaceRevision)];
    }

    method Commit(changes: seq<AssetChange>, digest: Digest, x: Authorization) returns (r: Result<Id, Failure>)
      requires x.expected.workflow in workflowCounters
      modifies this
      ensures (State(), r) == CommitSpec(old(State()), WritesOf(changes), digest, x)
    {
      hide Perform, WritesOf;
      ghost var ws := WritesOf(changes);
      PerformStops(values, ws, 0, partialMutationAfter);
      consumedExecutions := consumedExecutions + {x.execution};
      changeSequence := changeSequence + 1;
      var confirmed, halt := MakeWrites(changes);
      assert confirmed == ws[..|confirmed|] && (halt.Finished? ==> confirmed == ws);
      if halt.Torn? {
        return Err(StaleContext);
      }
      RecordApplied(changeSequence, x, digest, confirmed, if halt.Finished? then Verified else NeedsReconciliation);
      if halt.Interrupted? {
        partialMutationAfter := None;
        return Err(PartialMutation(changeSequence));
      }
      return Ok(changeSequence);
    }

    method ApplyChange(p: Preview, x: Authorization, now: Time) returns (r: Result<Id, Failure>)
      requires WellFormed(p) && Valid(State())
      modifies this
      ensures (State(), r) == ApplySpec(old(State()), p, x, now) && Valid(State())
    {
      ApplyKeepsValid(State(), p, x, now);
      var refusal := Refusal(p, x, now);
      if refusal.Some? {
        return Err(refusal.value);
      }
      assert x.expected.workflow in workflowCounters;
      r := Commit(p.changes, p.digest, x);
    }

    method MatchesLive(ws: seq<Write>) returns (ok: bool)
      ensures ok == Matches(values, ws)
    {
      for i := 0 to |ws|
        invariant forall k :: 0 <= k < i ==> ws[k].cell in values && values[ws[k].cell] == ws[k].before
      {
        if ws[i].cell !in values || values[ws[i].cell] != ws[i].before {
          return false;
        }
      }
      return true;
    }

    /** The checks of `apply_change` before its first write, in the order it makes them. */
    method Refusal(p: Preview, x: Authorization, now: Time) returns (r: Option<Failure>)
      requires WellFormed(p)
      ensures r == ApplyRefusal(State(), p, x, now)
    {
      hide FingerprintOf, Matches, WellFormed, WritesOf, ChangedAssets, ChangedAttributes;
      if !x.direct || x.execution !in registeredAuthorizations || registeredAuthorizations[x.execution] != x
         || x.execution in consumedExecutions {
        return Some(AuthorizationInvalid);
      }
      if p.configuration != CONFIGURATION {
        return Some(ConfigurationMismatch);
      }
      if p.expiresAt <= now || p.workspace != WORKSPACE || p.revision != workspaceRevision {
        return Some(StaleContext);
      }
      if p.expected.workflow !in workflowCounters || workflowCounters[p.expected.workflow] != p.expected.counter {
        return Some(StaleContext);
      }
      var live := FingerprintOf(values, p.configuration, ChangedAssets(p.changes), ChangedAttributes(p.changes));
      if live.Err? {
        return Some(live.error);
      }
      if live.value != p.fingerprint {
        return Some(StaleContext);
      }
      var ws := WritesOf(p.changes);
      var matches := MatchesLive(ws);
      if !matches {
        return Some(StaleContext);
      }
      if x.expiresAt <= now || x.digest != p.digest || x.configuration != p.configuration
         || x.fingerprint != p.fingerprint || x.operation != p.operation || x.expected != p.expected {
        return Some(AuthorizationInvalid);
      }
      return None;
    }

    method PlanRollback(change: Id, expected: Version, now: Time) returns (r: Result<Plan, Failure>)
      requires Valid(State())
      ensures r == PlanSpec(State(), change, expected, now)
    {
      if change !in applied {
        return Err(ObjectNotFound);
      }
      if expected.workflow !in workflowCounters || workflowCounters[expected.workflow] != expected.counter {
        return Err(StaleContext);
      }
      var ws := applied[change].writes;
      assert Writes(ws, FIXTURE.Keys);
      hide Valid, FingerprintOf;
      var items, conflicts := [], [];
      for i := 0 to |ws|
        invariant items == Restorations(values, ws[..i]) && conflicts == Conflicts(values, ws[..i])
      {
        assert ws[..i + 1][..i] == ws[..i];
        var observed := values[ws[i].cell];
        items := items + [Restoration(ws[i].cell, observed, ws[i].before)];
        if observed != ws[i].proposed {
          conflicts := conflicts + [ws[i].cell];
        }
      }
      assert ws[..|ws|] == ws;
      var cells := CellsOf(ws);
      var live := FingerprintOf(values, CONFIGURATION, AssetList(cells), AttributesOf(cells));
      if live.Err? {
        return Err(live.error);
      }
      return Ok(Plan(change, WORKSPACE, expected, conflicts, items, CONFIGURATION, live.value, workspaceRevision,
                     now + PLAN_LIFETIME, PlanDigest(change, items, live.value, expected)));
    }

    /** The checks of `execute_rollback` before its first write. */
    method RollbackRefusal(p: Plan, x: Authorization, now: Time) returns (r: Option<Failure>)
      ensures r == ExecuteRefusal(State(), p, x, now)
    {
      if !x.direct || x.execution !in registeredAuthorizations || registeredAuthorizations[x.execution] != x
         || x.execution in consumedExecutions {
        return Some(AuthorizationInvalid);
      }
      if p.configuration != CONFIGURATION {
        return Some(ConfigurationMismatch);
      }
      if p.expiresAt <= now || p.workspace != WORKSPACE || p.revision != workspaceRevision {
        return Some(StaleContext);
      }
      if p.expected.workflow !in workflowCounters || workflowCounters[p.expected.workflow] != p.expected.counter {
        return Some(StaleContext);
      }
      var cells := RestoredCells(p.items);
      var live := FingerprintOf(values, p.configuration, AssetList(cells), AttributesOf(cells));
      if live.Err? {
        return Some(live.error);
      }
      if live.value != p.fingerprint || p.conflicts != [] {
        return Some(RollbackConflict);
      }
      hide FingerprintOf;
      for i := 0 to |p.items|
        invariant forall k :: 0 <= k < i ==> p.items[k].cell in values && values[p.items[k].cell] == p.items[k].current
      {
        if p.items[i].cell !in values || values[p.items[i].cell] != p.items[i].current {
          return Some(RollbackConflict);
        }
      }
      if x.expiresAt <= now || x.digest != p.digest || x.configuration != p.configuration
         || x.fingerprint != p.fingerprint || !x.operation.Rollback? || x.expected != p.expected {
        return Some(AuthorizationInvalid);
      }
      return None;
    }

    method Restore(items: seq<Restoration>)
      modifies this`values
      ensures values == RestoreAll(old(values), items)
    {
      for i := 0 to |items|
        invariant values == RestoreAll(old(values), items[..i])
      {
        assert items[..i + 1][..i] == items[..i];
        values := values[items[i].cell := items[i].restoreTo];
      }
      assert items[..|items|] == items;
    }

    method ExecuteRollback(p: Plan, x: Authorization, now: Time) returns (r: Result<RollbackResult, Failure>)
      requires Valid(State())
      modifies this
      ensures (State(), r) == ExecuteSpec(old(State()), p, x, now) && Valid(State())
    {
      hide FingerprintOf, Readable, RestoredCells, AssetList, RestoreAll, IsRegistered;
      assert old(State()) == State();
      var refusal := RollbackRefusal(p, x, now);
      if refusal.Some? {
        return Err(refusal.value);
      }
      assert (forall i :: 0 <= i < |p.items| ==> p.items[i].cell in values) && p.expected.workflow in workflowCounters;
      RestoreKeys(values, p.items);
      consumedExecutions := consumedExecutions + {x.execution};
      Restore(p.items);
      workspaceRevision := workspaceRevision + 1;
      workflowCounters := workflowCounters[p.expected.workflow := workflowCounters[p.expected.workflow] + 1];
      var result := RollbackResult(p.items, None, Partial, workspaceRevision);
      rollbackResults := rollbackResults[p.change := result];
      return Ok(result);
    }

    method RunLoadFlow(configuration: Id, settings: bool) returns (r: Result<Id, Failure>)
      requires Valid(State())
      modifies this`runSequence, this`runs
      ensures Loaded(old(values)) && (State(), r) == RunSpec(old(State()), configuration, settings) && Valid(State())
    {
      assert Cell(LOAD_1, ACTIVE_POWER) in FIXTURE.Keys && Cell(LOAD_2, ACTIVE_POWER) in FIXTURE.Keys;
      if configuration != CONFIGURATION {
        return Err(ConfigurationMismatch);
      }
      if !settings {
        return Err(InvalidOperation);
      }
      var total := values[Cell(LOAD_1, ACTIVE_POWER)].value + values[Cell(LOAD_2, ACTIVE_POWER)].value;
      if total > 90.0 {
        return Err(NonConvergence);
      }
      runSequence := runSequence + 1;
      runs := runs[runSequence := Results(1.0 - total * 0.001, 1.01 - total * 0.0015, total / 50.0 * 100.0)];
      return Ok(runSequence);
    }

    method VerifyRollbackBaseline(change: Id, baseline: Id, restored: Id, limit: int)
      returns (r: Result<RollbackResult, Failure>)
      requires Valid(State())
      modifies this`rollbackResults
      ensures (State(), r) == VerifySpec(old(State()), change, baseline, restored, limit) && Valid(State())
    {
      if limit < 1 || limit > MAX_PAGE_SIZE {
        return Err(InvalidOperation);
      }
      if change !in rollbackResults || baseline !in runs || restored !in runs {
        return Err(ObjectNotFound);
      }
      if METRICS > limit {
        return Err(InvalidOperation);
      }
      var a, b := runs[baseline], runs[restored];
      var added := Violations(b) - Violations(a);
      var reproduced := !Material(a, b) && added == {};
      var status := if reproduced then Verified else Failed;
      var result := rollbackResults[change].(reproduced := Some(reproduced), status := status);
      rollbackResults := rollbackResults[change := result];
      return Ok(result);
    }
  }
}
