/** Every public write of the five stores over one database, and runs of them. */
module Protocol {
  import opened Common
  import opened Tables
  import opened Leases
  import W = Workflows
  import A = Approvals
  import R = Reconciliation
  import C = Coordinator

  datatype Call =
    | RecordWorkflow(id: Id, row: Workflow)
    | Transition(move: W.TransitionArgs)
    | CreateRequest(id: Id, request: Request)
    | Approve(approval: A.ApproveArgs)
    | RejectRequest(id: Id, at: Time, decision: Id)
    | CancelRequest(id: Id, at: Time, decision: Id)
    | ExpireRequest(id: Id, at: Time, decision: Id)
    | InvalidateAuthorization(id: Id, at: Time)
    | AdmitAuthorization(candidate: Authorization, authority: Id, at: Time)
    | MarkConsumed(id: Id, at: Time)
    | Acquire(lease: AcquireArgs)
    | Release(claim: Claim)
    | ReleaseForAuthorization(claim: Claim)
    | StartAtomicCall(claim: Claim, operation: Id)
    | FinishAtomicCall(claim: Claim, operation: Id)
    | ExpireLease(scope: Scope, at: Time)
    | CommitIntent(intent: Intent)
    | AppendObservation(observation: Observation)
    | RecordClassification(record: Record)
    | AdmitAndBeginWrite(admission: C.AdmitArgs)

  datatype Reply =
    | Done
    | LeaseReply(lease: Lease)
    | CommandReply(command: Command)
    | AuthorizationReply(authorization: Authorization)
    | StateReply(state: AuthorizationState)
    | AdmissionReply(admission: Admission)
    | EnvelopeReply(envelope: Envelope)
    | Raised(failure: Failure)

  function Answer<T>(r: Result<T, Failure>, reply: T -> Reply): Reply {
    match r
    case Ok(value) => reply(value)
    case Err(error) => Raised(error)
  }

  function WithFlow<T>(db: Db, r: (Flow, Result<T, Failure>), reply: T -> Reply): (Db, Reply) {
    (db.(flow := r.0), Answer(r.1, reply))
  }

  function WithGrants<T>(db: Db, r: (Grants, Result<T, Failure>), reply: T -> Reply): (Db, Reply) {
    (db.(grants := r.0), Answer(r.1, reply))
  }

  function WithFences(db: Db, r: (Fences, LeaseResult)): (Db, Reply) {
    (db.(fences := r.0), Answer(r.1, l => LeaseReply(l)))
  }

  function WithEvidence<T>(db: Db, r: (Evidence, Result<T, Failure>)): (Db, Reply) {
    (db.(evidence := r.0), Answer(r.1, _ => Done))
  }

  /** The committed state after a call, and what its caller gets. */
  ghost function Exec(db: Db, c: Call): (Db, Reply) {
    match c
    case RecordWorkflow(id, row) => WithFlow(db, W.RecordSpec(db.flow, id, row), _ => Done)
    case Transition(move) => WithFlow(db, W.TransitionSpec(db.flow, move), x => CommandReply(x))
    case CreateRequest(id, q) => WithGrants(db, A.CreateRequestSpec(db.flow, db.grants, id, q), _ => Done)
    case Approve(a) => WithGrants(db, A.ApproveSpec(db.flow, db.grants, a), x => AuthorizationReply(x))
    case RejectRequest(id, at, decision) =>
      WithGrants(db, A.DecideSpec(db.grants, id, RejectedRequest, at, decision), _ => Done)
    case CancelRequest(id, at, decision) =>
      WithGrants(db, A.DecideSpec(db.grants, id, CancelledRequest, at, decision), _ => Done)
    case ExpireRequest(id, at, decision) =>
      WithGrants(db, A.DecideSpec(db.grants, id, ExpiredRequest, at, decision), _ => Done)
    case InvalidateAuthorization(id, at) => WithGrants(db, A.InvalidateSpec(db.grants, id, at), x => StateReply(x))
    case AdmitAuthorization(candidate, authority, at) =>
      WithGrants(db, A.AdmitSpec(db.flow, db.grants, candidate, authority, at), x => AdmissionReply(x))
    case MarkConsumed(id, at) => WithGrants(db, A.ConsumeSpec(db.grants, id, at), x => StateReply(x))
    case Acquire(a) => WithFences(db, AcquireSpec(db.flow, db.fences, a))
    case Release(claim) => WithFences(db, ReleaseSpec(db.flow, db.fences, claim, false))
    case ReleaseForAuthorization(claim) => WithFences(db, ReleaseSpec(db.flow, db.fences, claim, true))
    case StartAtomicCall(claim, operation) => WithFences(db, StartCallSpec(db.flow, db.fences, claim, operation))
    case FinishAtomicCall(claim, operation) => WithFences(db, FinishCallSpec(db.flow, db.fences, claim, operation))
    case ExpireLease(scope, at) => WithFences(db, ExpireSpec(db.fences, scope, at))
    case CommitIntent(i) => WithEvidence(db, R.CommitIntentSpec(db.flow, db.evidence, i))
    case AppendObservation(o) => WithEvidence(db, R.AppendObservationSpec(db.evidence, o))
    case RecordClassification(r) => WithEvidence(db, R.RecordSpec(db.evidence, r))
    case AdmitAndBeginWrite(a) =>
      var r := C.AdmitAndBeginWriteSpec(db, a);
      (r.0, Answer(r.1, x => EnvelopeReply(x)))
  }

  ghost function Run(db: Db, cs: seq<Call>): Db
    decreases |cs|
  {
    if cs == [] then db else Run(Exec(db, cs[0]).0, cs[1..])
  }

  // ---------------------------------------------------------------------
  // What the append-only tables say about the mutable ones
  // ---------------------------------------------------------------------

  /** The part of a lease row that its events determine. */
  datatype View = View(lease: Id, workflow: Id, version: Version, token: nat, state: LeaseState, operation: Option<Id>)

  function ViewOf(l: Lease): View {
    View(l.id, l.workflow, l.version, l.token, l.state, l.operation)
  }

  function Replay(v: Option<View>, e: LeaseEvent): Option<View> {
    match e.kind
    case AcquireAttempted => v
    case StaleFenceRejected => v
    case Acquired => Some(View(e.lease, e.workflow, e.version, e.token, e.after, e.operation))
    case AtomicCallStarted => if v.Some? then Some(v.value.(operation := e.operation)) else None
    case AtomicCallFinished => if v.Some? then Some(v.value.(operation := None)) else None
    case ReleasedForAuthorization => None
    case Released => None
    case ExpiredLease => if v.Some? && !e.after.LeaseExpired? then Some(v.value.(state := e.after)) else None
  }

  /** The current row of a scope as its append-only events tell it. */
  function Fold(events: seq<LeaseEvent>, s: Scope): Option<View> {
    if events == [] then None
    else
      var before := Fold(events[..|events| - 1], s);
      var e := events[|events| - 1];
      if e.scope == s then Replay(before, e) else before
  }

  /** The tokens of a scope's ACQUIRED events, oldest first. */
  function Tokens(events: seq<LeaseEvent>, s: Scope): seq<nat> {
    if events == [] then []
    else
      var before := Tokens(events[..|events| - 1], s);
      var e := events[|events| - 1];
      if e.scope == s && e.kind.Acquired? then before + [e.token] else before
  }

  function StateFrom(events: seq<AuthorizationEvent>, x: Id): Option<AuthorizationState> {
    if events == [] then None
    else
      var e := events[|events| - 1];
      if e.execution == x then Some(e.after) else StateFrom(events[..|events| - 1], x)
  }

  /** How often an authorization has left ISSUED for CONSUMING. */
  function Consumptions(events: seq<AuthorizationEvent>, x: Id): nat {
    if events == [] then 0
    else
      var e := events[|events| - 1];
      Consumptions(events[..|events| - 1], x)
      + if e.execution == x && e.before == Some(Issued) && e.after == Consuming then 1 else 0
  }

  function TargetOf(name: CommandName): WorkflowState {
    match W.LegalTransition(name)
    case Some((_, target)) => target
    case None => Executing
  }

  /** A workflow row after the commands recorded for it. */
  function Commanded(w: Workflow, commands: seq<Command>, id: Id): Workflow {
    if commands == [] then w
    else
      var before := Commanded(w, commands[..|commands| - 1], id);
      var c := commands[|commands| - 1];
      if c.workflow == id then W.Moved(before, TargetOf(c.name), c) else before
  }

  function CountCommands(commands: seq<Command>, id: Id): nat {
    if commands == [] then 0
    else CountCommands(commands[..|commands| - 1], id) + if commands[|commands| - 1].workflow == id then 1 else 0
  }

  /** Grows with every transition, so no workflow can loop. */
  function Rank(s: WorkflowState): nat {
    match s
    case New => 0
    case Previewing => 1
    case AwaitingAuthorization => 2
    case Abandoned => 3
    case ExecutionAdmission => 3
    case Executing => 4
    case Calculating => 5
    case ReconciliationRequired => 5
    case Verifying => 6
    case FailedBeforeEffect => 6
    case Quarantined => 6
    case Completed => 7
    case RollbackPreviewing => 8
    case AwaitingRollbackAuthorization => 9
    case RollbackAdmission => 10
    case RollingBack => 11
    case RollbackVerifying => 12
    case RolledBack => 13
  }
}
