/** Durable operation records and the compare-and-swap calls that change them.

    A record is named by its position in the table: `sequence` is assigned in
    insertion order and no row is ever deleted, so position, `sequence` and
    `operation_id` identify the same record. */
module Operations {
  import opened Common

  type OpId = nat

  datatype OpState =
    | Queued
    | CancelledBeforeStart
    | InFlight
    | ClientTimedOut
    | Completed
    | CompletedAfterClientTimeout
    | Failed
    | EngineUnresponsive
    | ReconciliationRequired

  predicate Terminal(s: OpState) {
    s.CancelledBeforeStart? || s.Completed? || s.CompletedAfterClientTimeout? || s.Failed? || s.ReconciliationRequired?
  }

  /** The states in which a handler may be having an effect. */
  predicate Live(s: OpState) {
    s.InFlight? || s.ClientTimedOut? || s.EngineUnresponsive?
  }

  /** What is stored of a handler's exception: why it was caught, and its class. */
  datatype Category = KnownNoEffect | UncertainOutcome | UnserializableOutcome
  datatype Evidence = Evidence(category: Category, exception: string)

  datatype Row = Row(
    key: string,
    handler: string,
    payload: string,
    state: OpState,
    queueDeadline: int,
    clientDeadline: int,
    healthMs: nat,
    startedAt: Option<int>,
    finishedAt: Option<int>,
    result: Option<string>,
    error: Option<Evidence>,
    version: nat)

  const NS_PER_MS: int := 1_000_000

  datatype Deadlines = Deadlines(queueMs: nat, clientMs: nat, healthMs: nat)

  function NewRow(key: string, handler: string, payload: string, d: Deadlines, now: int): Row {
    Row(key, handler, payload, Queued, now + d.queueMs * NS_PER_MS, now + d.clientMs * NS_PER_MS, d.healthMs,
        None, None, None, None, 0)
  }

  /** Every store call that updates existing rows. */
  datatype Update =
    | Start(id: OpId, now: int)
    | CancelBeforeStart(id: OpId, now: int)
    | MarkClientTimedOut(id: OpId)
    | MarkEngineUnresponsive(id: OpId)
    | Complete(id: OpId, result: string, now: int)
    | Fail(id: OpId, error: Evidence, now: int)
    | RequireReconciliation(id: OpId, error: Evidence, now: int)
    | ReconcileOrphans(now: int)
    | CancelExpired(now: int)
    | CancelAll(now: int)

  predicate Single(u: Update) {
    !u.ReconcileOrphans? && !u.CancelExpired? && !u.CancelAll?
  }

  function Target(u: Update): OpId
    requires Single(u)
  {
    u.id
  }

  /** The states from which `u` may move a row. */
  predicate Expected(u: Update, r: Row) {
    match u
    case Start(_, _) => r.state.Queued?
    case CancelBeforeStart(_, _) => r.state.Queued?
    case MarkClientTimedOut(_) => r.state.InFlight?
    case MarkEngineUnresponsive(_) => r.state.InFlight? || r.state.ClientTimedOut?
    case Complete(_, _, _) => Live(r.state)
    case Fail(_, _, _) => r.state.InFlight? || r.state.ClientTimedOut?
    case RequireReconciliation(_, _, _) => Live(r.state)
    case ReconcileOrphans(_) => Live(r.state)
    case CancelExpired(now) => r.state.Queued? && r.queueDeadline <= now
    case CancelAll(_) => r.state.Queued?
  }

  /** The row that `u` writes over `r`. */
  function Moved(u: Update, r: Row): Row {
    var next := r.(version := r.version + 1);
    match u
    case Start(_, now) => next.(state := InFlight, startedAt := Some(now))
    case CancelBeforeStart(_, now) => next.(state := CancelledBeforeStart, finishedAt := Some(now))
    case MarkClientTimedOut(_) => next.(state := ClientTimedOut)
    case MarkEngineUnresponsive(_) => next.(state := EngineUnresponsive)
    case Complete(_, result, now) =>
      next.(state := if r.state.EngineUnresponsive? then ReconciliationRequired
                     else if r.state.ClientTimedOut? || now >= r.clientDeadline then CompletedAfterClientTimeout
                     else Completed,
            result := Some(result), finishedAt := Some(now))
    case Fail(_, error, now) => next.(state := Failed, error := Some(error), finishedAt := Some(now))
    case RequireReconciliation(_, error, now) =>
      next.(state := ReconciliationRequired, error := Some(error), finishedAt := Some(now))
    case ReconcileOrphans(now) => next.(state := ReconciliationRequired, finishedAt := Some(now))
    case CancelExpired(now) => next.(state := CancelledBeforeStart, finishedAt := Some(now))
    case CancelAll(now) => next.(state := CancelledBeforeStart, finishedAt := Some(now))
  }

  /** What `u` leaves in row number `i`. */
  function Touch(u: Update, i: OpId, r: Row): Row {
    if (Single(u) ==> Target(u) == i) && Expected(u, r) then Moved(u, r) else r
  }

  function Apply(rows: seq<Row>, u: Update): (result: seq<Row>)
    ensures |result| == |rows|
    ensures forall i :: 0 <= i < |rows| ==> result[i] == Touch(u, i, rows[i])
  {
    seq(|rows|, i requires 0 <= i < |rows| => Touch(u, i, rows[i]))
  }

  /** Whether a single-row call returns rather than raises. */
  predicate Accepted(rows: seq<Row>, u: Update)
    requires Single(u)
  {
    Target(u) < |rows| && Expected(u, rows[Target(u)])
  }

  function FindKey(rows: seq<Row>, key: string): (id: Option<OpId>)
    ensures id.Some? ==> id.value < |rows| && rows[id.value].key == key
    ensures id.None? ==> forall i :: 0 <= i < |rows| ==> rows[i].key != key
  {
    if rows == [] then None
    else if rows[|rows| - 1].key == key then Some(|rows| - 1)
    else FindKey(rows[..|rows| - 1], key)
  }

  /** How many rows `u` moves. */
  function Matching(rows: seq<Row>, u: Update): nat {
    if rows == [] then 0
    else Matching(rows[..|rows| - 1], u) + if Expected(u, rows[|rows| - 1]) then 1 else 0
  }

  // ---------------------------------------------------------------------
  // Lifecycle
  // ---------------------------------------------------------------------

  /** What the columns of a row say about how it got into its state. */
  predicate WellFormed(r: Row) {
    && (r.finishedAt.Some? <==> Terminal(r.state))
    && (r.startedAt.None? <==> r.state.Queued? || r.state.CancelledBeforeStart?)
    && (r.state.Completed? || r.state.CompletedAfterClientTimeout? ==> r.result.Some? && r.error.None?)
    && (r.state.Failed? ==> r.error.Some? && r.result.None?)
    && (!Terminal(r.state) ==> r.result.None? && r.error.None?)
    && match r.state
       case Queued => r.version == 0
       case CancelledBeforeStart => r.version == 1
       case InFlight => r.version == 1
       case ClientTimedOut => r.version == 2
       case Completed => r.version == 2
       case CompletedAfterClientTimeout => 2 <= r.version <= 3
       case Failed => 2 <= r.version <= 3
       case EngineUnresponsive => 2 <= r.version <= 3
       case ReconciliationRequired => 2 <= r.version <= 4
  }

  /** The states a record can still be in, now or at any later time. */
  function Future(s: OpState): set<OpState> {
    match s
    case Queued => {Queued, CancelledBeforeStart, InFlight, ClientTimedOut, Completed, CompletedAfterClientTimeout,
                    Failed, EngineUnresponsive, ReconciliationRequired}
    case InFlight => {InFlight, ClientTimedOut, Completed, CompletedAfterClientTimeout, Failed, EngineUnresponsive,
                      ReconciliationRequired}
    case ClientTimedOut => {ClientTimedOut, CompletedAfterClientTimeout, Failed, EngineUnresponsive,
                            ReconciliationRequired}
    case EngineUnresponsive => {EngineUnresponsive, ReconciliationRequired}
    case _ => {s}
  }

  function ApplyAll(rows: seq<Row>, us: seq<Update>): seq<Row>
    decreases |us|
  {
    if us == [] then rows else ApplyAll(Apply(rows, us[0]), us[1..])
  }

  /** How many of the calls `us` change the state of row `i`. */
  function Changes(rows: seq<Row>, us: seq<Update>, i: OpId): nat
    requires i < |rows|
    decreases |us|
  {
    if us == [] then 0
    else
      var next := Apply(rows, us[0]);
      (if next[i].state != rows[i].state then 1 else 0) + Changes(next, us[1..], i)
  }

  lemma TouchKeeps(u: Update, i: OpId, r: Row)
    requires WellFormed(r)
    ensures WellFormed(Touch(u, i, r))
    ensures Touch(u, i, r).state in Future(r.state)
    ensures Touch(u, i, r).state == r.state ==> Touch(u, i, r) == r
    ensures Touch(u, i, r).state != r.state ==> Touch(u, i, r).version == r.version + 1
    ensures Touch(u, i, r).key == r.key && Touch(u, i, r).handler == r.handler && Touch(u, i, r).payload == r.payload
    ensures Touch(u, i, r).queueDeadline == r.queueDeadline && Touch(u, i, r).clientDeadline == r.clientDeadline
  {
  }

  lemma FutureIsTransitive(a: OpState, b: OpState, c: OpState)
    requires b in Future(a) && c in Future(b)
    ensures c in Future(a)
  {
  }

  /** Over any sequence of store calls in any order: a terminal row is never
      written again, `version` counts exactly the state changes and never
      exceeds 4, `finished_at` is set exactly in terminal states, a timed-out
      record cannot end COMPLETED, and an unresponsive one can only end
      RECONCILIATION_REQUIRED. */
  lemma {:induction false} Lifecycle(rows: seq<Row>, us: seq<Update>, i: OpId)
    requires i < |rows| && WellFormed(rows[i])
    ensures |ApplyAll(rows, us)| == |rows|
    ensures var r := ApplyAll(rows, us)[i];
            && r.state in Future(rows[i].state)
            && (Terminal(rows[i].state) ==> r == rows[i])
            && r.version == rows[i].version + Changes(rows, us, i) <= 4
            && (r.finishedAt.Some? <==> Terminal(r.state))
            && (rows[i].state.ClientTimedOut? ==> !r.state.Completed?)
            && (rows[i].state.EngineUnresponsive? && Terminal(r.state) ==> r.state.ReconciliationRequired?)
            && r.key == rows[i].key
    decreases |us|
  {
    if us != [] {
      var next := Apply(rows, us[0]);
      TouchKeeps(us[0], i, rows[i]);
      Lifecycle(next, us[1..], i);
      FutureIsTransitive(rows[i].state, next[i].state, ApplyAll(rows, us)[i].state);
    }
  }

  /** The rows that `u` changes. */
  function Changed(rows: seq<Row>, u: Update): set<int> {
    set i | 0 <= i < |rows| && Apply(rows, u)[i] != rows[i]
  }

  lemma ChangedIff(rows: seq<Row>, u: Update)
    requires !Single(u)
    ensures forall i :: i in Changed(rows, u) <==> 0 <= i < |rows| && Expected(u, rows[i])
  {
    hide Expected;
    forall i | 0 <= i < |rows|
      ensures Apply(rows, u)[i] != rows[i] <==> Expected(u, rows[i])
    {
      assert Moved(u, rows[i]).version == rows[i].version + 1;
    }
  }

  lemma ChangedGrows(rows: seq<Row>, u: Update)
    requires !Single(u) && rows != []
    ensures var n := |rows| - 1;
      && n !in Changed(rows[..n], u)
      && Changed(rows, u) == Changed(rows[..n], u) + if Expected(u, rows[n]) then {n} else {}
  {
    ChangedIff(rows, u);
    ChangedIff(rows[..|rows| - 1], u);
    hide Expected, Changed;
  }

  /** The count that a call over every row returns is the number of rows it changes. */
  lemma {:induction false} CountsWhatMoves(rows: seq<Row>, u: Update)
    requires !Single(u)
    ensures Matching(rows, u) == |Changed(rows, u)|
  {
    if rows == [] {
      assert Changed(rows, u) == {};
    } else {
      CountsWhatMoves(rows[..|rows| - 1], u);
      ChangedGrows(rows, u);
      hide Expected, Changed;
    }
  }

  // ---------------------------------------------------------------------
  // The store
  // ---------------------------------------------------------------------

  datatype StoreError = NotFound | InvalidTransition | IdempotencyConflict

  class OperationStore {
    var rows: seq<Row>

    constructor ()
      ensures rows == []
    {
      rows := [];
    }

    /** Admits a request once per idempotency key; a repeated key must carry the same request. */
    method Admit(key: string, handler: string, payload: string, d: Deadlines, now: int)
      returns (r: Result<(OpId, bool), StoreError>)
      modifies this
      ensures match FindKey(old(rows), key)
              case None => rows == old(rows) + [NewRow(key, handler, payload, d, now)] && r == Ok((|old(rows)|, true))
              case Some(i) =>
                && rows == old(rows)
                && r == (if rows[i].handler == handler && rows[i].payload == payload then Ok((i, false))
                         else Err(IdempotencyConflict))
    {
      var existing := FindKey(rows, key);
      if existing.Some? {
        var row := rows[existing.value];
        if row.handler != handler || row.payload != payload {
          return Err(IdempotencyConflict);
        }
        return Ok((existing.value, false));
      }
      var id := |rows|;
      rows := rows + [NewRow(key, handler, payload, d, now)];
      return Ok((id, true));
    }

    /** The compare-and-swap behind every single-row call. */
    method Transition(u: Update) returns (r: Result<Row, StoreError>)
      requires Single(u)
      modifies this
      ensures rows == Apply(old(rows), u)
      ensures r == (if Target(u) >= |old(rows)| then Err(NotFound)
                    else if !Expected(u, old(rows)[Target(u)]) then Err(InvalidTransition)
                    else Ok(rows[Target(u)]))
    {
      var id := Target(u);
      if id >= |rows| {
        assert rows == Apply(rows, u);
        return Err(NotFound);
      }
      if !Expected(u, rows[id]) {
        assert rows == Apply(rows, u);
        return Err(InvalidTransition);
      }
      rows := rows[id := Moved(u, rows[id])];
      return Ok(rows[id]);
    }

    /** `reconcile_orphans` and `cancel_all_queued`: one UPDATE over every matching row. */
    method UpdateMatching(u: Update) returns (count: nat)
      requires u.ReconcileOrphans? || u.CancelAll?
      modifies this
      ensures rows == Apply(old(rows), u)
      ensures count == Matching(old(rows), u)
    {
      count := 0;
      var before := rows;
      var after := [];
      for i := 0 to |before|
        invariant |after| == i
        invariant forall k :: 0 <= k < i ==> after[k] == Touch(u, k, before[k])
        invariant count == Matching(before[..i], u)
      {
        assert before[..i + 1][..i] == before[..i];
        if Expected(u, before[i]) {
          after := after + [Moved(u, before[i])];
          count := count + 1;
        } else {
          after := after + [before[i]];
        }
      }
      assert before[..|before|] == before;
      rows := after;
    }

    /** Selects the expired queued rows in order, then updates those still queued. */
    method CancelExpiredQueued(now: int) returns (ids: seq<OpId>)
      modifies this
      ensures rows == Apply(old(rows), CancelExpired(now))
      ensures forall i: OpId :: i in ids <==> i < |old(rows)| && Expected(CancelExpired(now), old(rows)[i])
      ensures forall i, j :: 0 <= i < j < |ids| ==> ids[i] < ids[j]
    {
      ids := [];
      var before := rows;
      for i := 0 to |before|
        invariant forall k: OpId :: k in ids <==> k < i && Expected(CancelExpired(now), before[k])
        invariant forall k :: 0 <= k < |ids| ==> ids[k] < i
        invariant forall j, k :: 0 <= j < k < |ids| ==> ids[j] < ids[k]
      {
        if Expected(CancelExpired(now), before[i]) {
          ids := ids + [i];
        }
      }
      for j := 0 to |ids|
        invariant |rows| == |before|
        invariant forall k :: 0 <= k < j ==> rows[ids[k]] == Moved(CancelExpired(now), before[ids[k]])
        invariant forall k :: 0 <= k < |before| && k !in ids[..j] ==> rows[k] == before[k]
      {
        assert ids[j] !in ids[..j];
        rows := rows[ids[j] := Moved(CancelExpired(now), rows[ids[j]])];
        assert ids[..j + 1] == ids[..j] + [ids[j]];
      }
      assert ids[..|ids|] == ids;
      forall k | 0 <= k < |before|
        ensures rows[k] == Touch(CancelExpired(now), k, before[k])
      {
        if k in ids {
          var m :| 0 <= m < |ids| && ids[m] == k;
        }
      }
    }
  }
}
