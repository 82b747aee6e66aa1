/** Context leases: one exclusive holder per scope, with a fencing token that is never reused. */
module Leases {
  import opened Common
  import opened Tables

  predicate Held(s: LeaseState) {
    s.HeldPreview? || s.HeldExecution? || s.HeldRollback?
  }

  function HeldState(mode: LeaseMode): LeaseState {
    match mode
    case Preview => HeldPreview
    case Execution => HeldExecution
    case Rollback => HeldRollback
  }

  /** The identity a caller asserts about the lease it believes it holds. */
  datatype Claim = Claim(lease: Id, token: int, owner: Id, version: Version, at: Time)

  /** The scope whose current row has this lease id; ids of current rows are unique. */
  ghost function ScopeOf(leases: map<Scope, Lease>, id: Id): (r: Option<Scope>)
    ensures r.Some? ==> r.value in leases && leases[r.value].id == id
    ensures r.None? ==> forall s :: s in leases ==> leases[s].id != id
  {
    if exists s :: s in leases && leases[s].id == id then
      var s :| s in leases && leases[s].id == id;
      Some(s)
    else None
  }

  ghost predicate UniqueLeaseIds(leases: map<Scope, Lease>) {
    forall s, t :: s in leases && t in leases && leases[s].id == leases[t].id ==> s == t
  }

  /** Why a claim on `lease` is refused, or None when the caller is the current holder. */
  function HolderFailure(flow: Flow, lease: Lease, c: Claim, noOperation: bool): Option<StaleReason> {
    if !Held(lease.state) then Some(NotHeld(lease.state))
    else if lease.token != c.token then Some(TokenNotCurrent)
    else if lease.owner != c.owner then Some(OwnerNotCurrent)
    else if lease.version != c.version then Some(VersionNotCurrent)
    else if c.at >= lease.expiresAt then Some(LeaseHasExpired)
    else if noOperation && lease.operation.Some? then Some(CallInFlight)
    else if lease.workflow !in flow.workflows || flow.workflows[lease.workflow].version != lease.version then
      Some(WorkflowMoved)
    else None
  }

  function Event(lease: Lease, kind: LeaseEventKind, at: Time, before: LeaseState, after: LeaseState,
                 operation: Option<Id>): LeaseEvent {
    LeaseEvent(lease.id, lease.scope, lease.workflow, lease.version, lease.token, kind, at, before, after, operation)
  }

  /** The committed evidence of a refused claim; it carries the caller's token. */
  function StaleEvent(lease: Lease, c: Claim, operation: Option<Id>): LeaseEvent
    requires c.token > 0
  {
    Event(lease, StaleFenceRejected, c.at, lease.state, lease.state, operation).(token := c.token)
  }

  datatype AcquireArgs = AcquireArgs(
    mode: LeaseMode, scope: Scope, workflow: Id, expected: Version, owner: Id, issuedAt: Time, expiresAt: Time,
    lease: Id)

  type LeaseResult = Result<Lease, Failure>

  function NewLease(fences: Fences, a: AcquireArgs): Lease {
    Lease(a.lease, a.scope, a.workflow, a.expected, LastToken(fences.counters, a.scope) + 1, a.mode, HeldState(a.mode),
          a.issuedAt, a.expiresAt, a.owner, None)
  }

  /** `acquire`: the committed state and what the caller gets. */
  function AcquireSpec(flow: Flow, fences: Fences, a: AcquireArgs): (Fences, LeaseResult) {
    if a.expected.scope != a.workflow then (fences, Err(Invalid))
    else if a.scope in fences.leases then (fences, Err(Busy))
    else if a.workflow !in flow.workflows then (fences, Err(NotFound))
    else if flow.workflows[a.workflow].version != a.expected then (fences, Err(VersionConflict))
    else if a.expiresAt <= a.issuedAt then (fences, Err(Invalid))
    else
      var lease := NewLease(fences, a);
      if LeaseClash(fences.leases, lease) then (fences, Err(IntegrityError))
      else
        (fences.(counters := fences.counters[a.scope := lease.token],
             leases := fences.leases[a.scope := lease],
             events := fences.events + [Event(lease, AcquireAttempted, a.issuedAt, Available, lease.state, None),
                                              Event(lease, Acquired, a.issuedAt, Available, lease.state, None)]),
         Ok(lease))
  }

  function Refuse(fences: Fences, lease: Lease, c: Claim, operation: Option<Id>, why: StaleReason)
    : (Fences, LeaseResult)
    requires c.token > 0
  {
    (fences.(events := fences.events + [StaleEvent(lease, c, operation)]), Err(FenceRejected(why)))
  }

  ghost function ReleaseSpec(flow: Flow, fences: Fences, c: Claim, forAuthorization: bool): (Fences, LeaseResult) {
    match ScopeOf(fences.leases, c.lease)
    case None => (fences, Err(NotFound))
    case Some(s) =>
      var lease := fences.leases[s];
      if c.token <= 0 then (fences, Err(Invalid))
      else
        var why := HolderFailure(flow, lease, c, true);
        if why.Some? then Refuse(fences, lease, c, None, why.value)
        else if forAuthorization && lease.mode != Preview then Refuse(fences, lease, c, None, NotPreview)
        else
          var kind := if forAuthorization then ReleasedForAuthorization else Released;
          (fences.(leases := Without(fences.leases, lease.scope),
               events := fences.events + [Event(lease, kind, c.at, lease.state, Available, None)]),
           Ok(lease))
  }

  ghost function StartCallSpec(flow: Flow, fences: Fences, c: Claim, operation: Id): (Fences, LeaseResult) {
    match ScopeOf(fences.leases, c.lease)
    case None => (fences, Err(NotFound))
    case Some(s) =>
      var lease := fences.leases[s];
      if c.token <= 0 then (fences, Err(Invalid))
      else
        var why := HolderFailure(flow, lease, c, true);
        if why.Some? then Refuse(fences, lease, c, None, why.value)
        else
          var next := lease.(operation := Some(operation));
          (fences.(leases := fences.leases[lease.scope := next],
               events := fences.events
                              + [Event(next, AtomicCallStarted, c.at, lease.state, next.state, Some(operation))]),
           Ok(next))
  }

  ghost function FinishCallSpec(flow: Flow, fences: Fences, c: Claim, operation: Id): (Fences, LeaseResult) {
    match ScopeOf(fences.leases, c.lease)
    case None => (fences, Err(NotFound))
    case Some(s) =>
      var lease := fences.leases[s];
      if c.token <= 0 then (fences, Err(Invalid))
      else
        var why := HolderFailure(flow, lease, c, false);
        if why.Some? then Refuse(fences, lease, c, Some(operation), why.value)
        else if lease.operation != Some(operation) then Refuse(fences, lease, c, Some(operation), OperationMismatch)
        else
          var next := lease.(operation := None);
          (fences.(leases := fences.leases[lease.scope := next],
               events := fences.events
                              + [Event(next, AtomicCallFinished, c.at, lease.state, next.state, Some(operation))]),
           Ok(next))
  }

  /** `expire`: a lease with no call in flight frees its scope; one with a call
      in flight keeps the scope, for good, until someone reconciles it. */
  function ExpireSpec(fences: Fences, scope: Scope, at: Time): (Fences, LeaseResult) {
    if scope !in fences.leases then (fences, Err(NotFound))
    else
      var lease := fences.leases[scope];
      if !Held(lease.state) || at < lease.expiresAt then (fences, Err(StateConflict))
      else if lease.operation.None? then
        var next := lease.(state := LeaseExpired);
        (fences.(leases := Without(fences.leases, scope),
             events := fences.events + [Event(next, ExpiredLease, at, lease.state, next.state, None)]),
         Ok(next))
      else
        var next := lease.(state := InFlightExpired);
        (fences.(leases := fences.leases[lease.scope := next],
             events := fences.events + [Event(next, ExpiredLease, at, lease.state, next.state, lease.operation)]),
         Ok(next))
  }

  /** The statements of the lease store, one at a time, over the shared database. */
  class ContextLeaseStore {
    const database: SQLiteDatabase

    constructor (database: SQLiteDatabase)
      ensures this.database == database
    {
      this.database := database;
    }

    method Acquire(a: AcquireArgs) returns (r: LeaseResult)
      modifies database`fences
      ensures (database.fences, r) == AcquireSpec(database.flow, old(database.fences), a)
    {
      if a.expected.scope != a.workflow {
        return Err(Invalid);
      }
      var saved := database.fences;
      if a.scope in database.fences.leases {
        return Err(Busy);
      }
      if a.workflow !in database.flow.workflows {
        return Err(NotFound);
      }
      if database.flow.workflows[a.workflow].version != a.expected {
        return Err(VersionConflict);
      }
      var token := database.MintFencingToken(a.scope);
      if a.expiresAt <= a.issuedAt {
        database.fences := saved;
        return Err(Invalid);
      }
      var lease := Lease(a.lease, a.scope, a.workflow, a.expected, token, a.mode, HeldState(a.mode), a.issuedAt,
                         a.expiresAt, a.owner, None);
      database.AppendLeaseEvent(Event(lease, AcquireAttempted, a.issuedAt, Available, lease.state, None));
      var written := database.WriteLeaseRow(lease);
      if !written {
        database.fences := saved;
        return Err(IntegrityError);
      }
      database.AppendLeaseEvent(Event(lease, Acquired, a.issuedAt, Available, lease.state, None));
      assert saved.events + [Event(lease, AcquireAttempted, a.issuedAt, Available, lease.state, None)]
             + [Event(lease, Acquired, a.issuedAt, Available, lease.state, None)]
             == saved.events + [Event(lease, AcquireAttempted, a.issuedAt, Available, lease.state, None),
                                     Event(lease, Acquired, a.issuedAt, Available, lease.state, None)];
      return Ok(lease);
    }

    method CurrentById(id: Id) returns (lease: Option<Lease>)
      requires UniqueLeaseIds(database.fences.leases)
      ensures match ScopeOf(database.fences.leases, id)
              case None => lease.None?
              case Some(s) => lease == Some(database.fences.leases[s])
    {
      if s :| s in database.fences.leases && database.fences.leases[s].id == id {
        return Some(database.fences.leases[s]);
      }
      return None;
    }

    /** Frees a scope, keeping its fencing counter and the event that says why. */
    method Vacate(scope: Scope, event: LeaseEvent)
      modifies database`fences
      ensures database.fences == old(database.fences).(leases := Without(old(database.fences).leases, scope),
                                               events := old(database.fences).events + [event])
    {
      database.AppendLeaseEvent(event);
      database.DeleteLeaseRow(scope);
    }

    method Release(c: Claim, forAuthorization: bool) returns (r: LeaseResult)
      requires UniqueLeaseIds(database.fences.leases)
      modifies database`fences
      ensures (database.fences, r) == ReleaseSpec(database.flow, old(database.fences), c, forAuthorization)
    {
      var current := CurrentById(c.lease);
      if current.None? {
        return Err(NotFound);
      }
      var lease := current.value;
      if c.token <= 0 {
        return Err(Invalid);
      }
      var stale := HolderFailure(database.flow, lease, c, true);
      if stale.None? && forAuthorization && lease.mode != Preview {
        stale := Some(NotPreview);
      }
      if stale.Some? {
        database.AppendLeaseEvent(StaleEvent(lease, c, None));
        return Err(FenceRejected(stale.value));
      }
      var kind := if forAuthorization then ReleasedForAuthorization else Released;
      Vacate(lease.scope, Event(lease, kind, c.at, lease.state, Available, None));
      return Ok(lease);
    }

    method StartAtomicCall(c: Claim, operation: Id) returns (r: LeaseResult)
      requires UniqueLeaseIds(database.fences.leases)
      requires forall s :: s in database.fences.leases ==> database.fences.leases[s].scope == s
      modifies database`fences
      ensures (database.fences, r) == StartCallSpec(database.flow, old(database.fences), c, operation)
    {
      var current := CurrentById(c.lease);
      if current.None? {
        return Err(NotFound);
      }
      var lease := current.value;
      if c.token <= 0 {
        return Err(Invalid);
      }
      var stale := HolderFailure(database.flow, lease, c, true);
      if stale.Some? {
        database.AppendLeaseEvent(StaleEvent(lease, c, None));
        return Err(FenceRejected(stale.value));
      }
      var next := lease.(operation := Some(operation));
      var written := database.WriteLeaseRow(next);
      assert written;
      database.AppendLeaseEvent(Event(next, AtomicCallStarted, c.at, lease.state, next.state, Some(operation)));
      return Ok(next);
    }

    method FinishAtomicCall(c: Claim, operation: Id) returns (r: LeaseResult)
      requires UniqueLeaseIds(database.fences.leases)
      requires forall s :: s in database.fences.leases ==> database.fences.leases[s].scope == s
      modifies database`fences
      ensures (database.fences, r) == FinishCallSpec(database.flow, old(database.fences), c, operation)
    {
      var current := CurrentById(c.lease);
      if current.None? {
        return Err(NotFound);
      }
      var lease := current.value;
      if c.token <= 0 {
        return Err(Invalid);
      }
      var stale := HolderFailure(database.flow, lease, c, false);
      if stale.None? && lease.operation != Some(operation) {
        stale := Some(OperationMismatch);
      }
      if stale.Some? {
        database.AppendLeaseEvent(StaleEvent(lease, c, Some(operation)));
        return Err(FenceRejected(stale.value));
      }
      var next := lease.(operation := None);
      var written := database.WriteLeaseRow(next);
      assert written;
      database.AppendLeaseEvent(Event(next, AtomicCallFinished, c.at, lease.state, next.state, Some(operation)));
      return Ok(next);
    }

    method Expire(scope: Scope, at: Time) returns (r: LeaseResult)
      requires UniqueLeaseIds(database.fences.leases)
      requires forall s :: s in database.fences.leases ==> database.fences.leases[s].scope == s
      modifies database`fences
      ensures (database.fences, r) == ExpireSpec(old(database.fences), scope, at)
    {
      if scope !in database.fences.leases {
        return Err(NotFound);
      }
      var lease := database.fences.leases[scope];
      if !Held(lease.state) || at < lease.expiresAt {
        return Err(StateConflict);
      }
      if lease.operation.None? {
        var freed := lease.(state := LeaseExpired);
        Vacate(scope, Event(freed, ExpiredLease, at, lease.state, freed.state, None));
        return Ok(freed);
      }
      var next := lease.(state := InFlightExpired);
      var written := database.WriteLeaseRow(next);
      assert written;
      database.AppendLeaseEvent(Event(next, ExpiredLease, at, lease.state, next.state, lease.operation));
      return Ok(next);
    }
  }
}
