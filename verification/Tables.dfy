/** The tables shared by the lease, workflow, approval and reconciliation stores
    and the execution-admission coordinator.

    Identifiers, digests and idempotency keys are opaque numbers: the code only
    compares them. Times are integers. A row that SQL keys by a column is an
    entry of a map; an append-only table read in order is a sequence. */
module Tables {
  import opened Common

  type Id = nat
  type Digest = nat
  type Time = int

  datatype Version = Version(scope: Id, counter: nat)

  // Workflows ------------------------------------------------------------

  datatype WorkflowState =
    | New | Previewing | AwaitingAuthorization | ExecutionAdmission | Executing | Calculating | Verifying | Completed
    | FailedBeforeEffect | ReconciliationRequired | Quarantined | RollbackPreviewing | AwaitingRollbackAuthorization
    | RollbackAdmission | RollingBack | RollbackVerifying | RolledBack | Abandoned

  datatype CommandName =
    | StartPreview | RecordPreview | RejectOrExpirePreview | AdmitExecution | StartExecution | StartCalculation
    | StartVerification | CompleteWorkflow | FailBeforeEffect | RequireReconciliation | RecoverNoEffect | Quarantine
    | StartRollbackPreview | RecordRollbackPreview | AdmitRollback | StartRollback | StartRollbackVerification
    | CompleteRollback | AdmitExecutionAndCommitIntent

  datatype Workflow = Workflow(
    state: WorkflowState, version: Version, config: Digest, proposal: Digest, createdAt: Time, updatedAt: Time,
    latestCommand: Option<Id>, latestOperation: Option<Id>)

  datatype Command = Command(
    id: Id, workflow: Id, name: CommandName, key: Id, digest: Digest, expected: Version, resulting: Version,
    operation: Option<Id>, at: Time)

  // Approvals ------------------------------------------------------------

  datatype Request = Request(
    workflow: Id, config: Digest, proposal: Digest, fingerprint: Digest, workspace: Version, policies: Digest,
    expected: Version, expiresAt: Time)

  datatype DecisionKind = Approved | RejectedRequest | ExpiredRequest | InvalidatedRequest | CancelledRequest

  datatype Decision = Decision(id: Id, kind: DecisionKind, at: Time)

  datatype AuthorizationState = Issued | Consuming | Consumed | Expired | Invalidated | Rejected | Cancelled

  datatype Authorization = Authorization(
    execution: Id, workflow: Id, request: Id, proposal: Digest, config: Digest, fingerprint: Digest, expected: Version,
    issuedAt: Time, expiresAt: Time, principal: Digest, decision: Id, authority: Id, workspace: Version,
    policies: Digest)

  datatype AuthorizationRow = AuthorizationRow(state: AuthorizationState, body: Authorization)

  datatype AuthorizationEvent = AuthorizationEvent(
    execution: Id, before: Option<AuthorizationState>, after: AuthorizationState, at: Time)

  datatype AdmissionStatus = Admitted | NotAdmitted(final: AuthorizationState)

  datatype AdmissionReason =
    | AtomicExecutionAdmission | AdmittedAlone | AlreadyFinal | UnsafeAuthorizationState | IntegrityFailed | TooLate
    | WorkflowBindingChanged

  datatype Admission = Admission(workflow: Id, status: AdmissionStatus, reason: AdmissionReason, at: Time)

  // Leases ---------------------------------------------------------------

  datatype Scope = Scope(service: Digest, config: Digest)

  datatype LeaseMode = Preview | Execution | Rollback

  datatype LeaseState = Available | HeldPreview | HeldExecution | HeldRollback | LeaseExpired | InFlightExpired

  datatype Lease = Lease(
    id: Id, scope: Scope, workflow: Id, version: Version, token: nat, mode: LeaseMode, state: LeaseState,
    issuedAt: Time, expiresAt: Time, owner: Id, operation: Option<Id>)

  datatype LeaseEventKind =
    | AcquireAttempted | Acquired | ReleasedForAuthorization | Released | ExpiredLease | StaleFenceRejected
    | AtomicCallStarted | AtomicCallFinished

  datatype LeaseEvent = LeaseEvent(
    lease: Id, scope: Scope, workflow: Id, version: Version, token: nat, kind: LeaseEventKind, at: Time,
    before: LeaseState, after: LeaseState, operation: Option<Id>)

  // Reconciliation -------------------------------------------------------

  datatype Quantity = Quantity(value: real, unit: Id)

  datatype Intent = Intent(
    id: Id, operation: Id, workflow: Id, version: Version, execution: Id, lease: Id, token: nat, config: Digest,
    fingerprint: Digest, workspace: Version, before: Quantity, after: Quantity, digest: Digest, policies: Digest,
    owner: Id)

  datatype Source = OwnerReturn | LiveRead | Recovery

  datatype Outcome = ValueObserved | NoValue(why: nat)

  datatype Observation = Observation(
    id: Id, intent: Id, operation: Id, source: Source, outcome: Outcome, value: Option<Quantity>,
    config: Option<Digest>, fingerprint: Option<Digest>, workspace: Option<Version>)

  datatype Classification = Before | AfterObserved | Diverged | Unavailable

  datatype Record = Record(
    id: Id, intent: Id, workflow: Id, version: Version, classification: Classification, observations: seq<Id>)

  // Envelopes ------------------------------------------------------------

  datatype Envelope = Envelope(
    admission: Id, workflow: Id, key: Id, version: Version, command: Id, operation: Id, execution: Id, lease: Id,
    token: nat, intent: Id, digest: Digest, at: Time)

  // Outcomes -------------------------------------------------------------

  datatype StaleReason =
    | NotHeld(state: LeaseState) | TokenNotCurrent | OwnerNotCurrent | VersionNotCurrent | LeaseHasExpired
    | CallInFlight | WorkflowMoved | OperationMismatch | NotPreview

  datatype Failure =
    | NotFound | Invalid | Conflict | Busy | VersionConflict | IntegrityError | FenceRejected(reason: StaleReason)
    | StateConflict | AdmissionRejected | TerminalDecision | RequestExpired

  // Tables ---------------------------------------------------------------

  /** Written by the workflow store and the coordinator. */
  datatype Flow = Flow(workflows: map<Id, Workflow>, commands: seq<Command>)

  /** Written by the authority store and the coordinator. */
  datatype Grants = Grants(
    requests: map<Id, Request>, decisions: map<Id, Decision>, authorizations: map<Id, AuthorizationRow>,
    events: seq<AuthorizationEvent>, admissions: map<Id, Admission>)

  /** Written by the lease store and the coordinator. */
  datatype Fences = Fences(counters: map<Scope, nat>, leases: map<Scope, Lease>, events: seq<LeaseEvent>)

  /** Written by the reconciliation store and the coordinator. */
  datatype Evidence = Evidence(intents: map<Id, Intent>, observations: map<Id, Observation>, records: seq<Record>)

  /** Everything one database file holds. */
  datatype Db = Db(flow: Flow, grants: Grants, fences: Fences, evidence: Evidence, envelopes: seq<Envelope>)

  const EMPTY_DB := Db(Flow(map[], []), Grants(map[], map[], map[], [], map[]), Fences(map[], map[], []),
                       Evidence(map[], map[], []), [])

  function LastToken(counters: map<Scope, nat>, scope: Scope): nat {
    if scope in counters then counters[scope] else 0
  }

  /** The command bound to a workflow's idempotency key, if any. */
  function FindCommand(commands: seq<Command>, workflow: Id, key: Id): (c: Option<Command>)
    ensures c.Some? ==> c.value in commands && c.value.workflow == workflow && c.value.key == key
    ensures c.None? ==> forall d :: d in commands ==> !(d.workflow == workflow && d.key == key)
  {
    if commands == [] then None
    else
      var last := commands[|commands| - 1];
      if last.workflow == workflow && last.key == key then Some(last)
      else FindCommand(commands[..|commands| - 1], workflow, key)
  }

  /** Whether inserting `c` would break PRIMARY KEY or UNIQUE(workflow_id, idempotency_key). */
  predicate CommandClash(commands: seq<Command>, c: Command) {
    exists d :: d in commands && (d.id == c.id || (d.workflow == c.workflow && d.key == c.key))
  }

  function FindEnvelope(envelopes: seq<Envelope>, workflow: Id, key: Id): (e: Option<Envelope>)
    ensures e.Some? ==> e.value in envelopes && e.value.workflow == workflow && e.value.key == key
    ensures e.None? ==> forall d :: d in envelopes ==> !(d.workflow == workflow && d.key == key)
  {
    if envelopes == [] then None
    else
      var last := envelopes[|envelopes| - 1];
      if last.workflow == workflow && last.key == key then Some(last)
      else FindEnvelope(envelopes[..|envelopes| - 1], workflow, key)
  }

  predicate EnvelopeClash(envelopes: seq<Envelope>, e: Envelope) {
    exists d :: d in envelopes
                && (d.admission == e.admission || d.execution == e.execution || d.operation == e.operation
                    || d.intent == e.intent || (d.workflow == e.workflow && d.key == e.key))
  }

  /** Whether another scope's current lease already has this lease's id. */
  predicate LeaseClash(leases: map<Scope, Lease>, lease: Lease) {
    exists s :: s in leases && s != lease.scope && leases[s].id == lease.id
  }

  function Without(leases: map<Scope, Lease>, scope: Scope): (rest: map<Scope, Lease>)
    ensures forall s :: s in rest <==> s in leases && s != scope
    ensures forall s :: s in rest ==> rest[s] == leases[s]
  {
    leases - {scope}
  }

  /** The one open database; a transaction that raises puts its tables back as they were. */
  class SQLiteDatabase {
    var flow: Flow
    var grants: Grants
    var fences: Fences
    var evidence: Evidence
    var envelopes: seq<Envelope>

    constructor ()
      ensures Tables() == EMPTY_DB
    {
      flow, grants, fences, evidence, envelopes :=
        EMPTY_DB.flow, EMPTY_DB.grants, EMPTY_DB.fences, EMPTY_DB.evidence, EMPTY_DB.envelopes;
    }

    function Tables(): Db
      reads this
    {
      Db(flow, grants, fences, evidence, envelopes)
    }

    // The transaction-local writers: each is one statement inside the caller's transaction.

    method MintFencingToken(scope: Scope) returns (token: nat)
      modifies this`fences
      ensures token == LastToken(old(fences).counters, scope) + 1
      ensures fences == old(fences).(counters := old(fences).counters[scope := token])
    {
      token := if scope in fences.counters then fences.counters[scope] + 1 else 1;
      fences := fences.(counters := fences.counters[scope := token]);
    }

    /** Upserts the scope's row; fails when another scope holds the same lease id. */
    method WriteLeaseRow(lease: Lease) returns (ok: bool)
      modifies this`fences
      ensures ok == !LeaseClash(old(fences).leases, lease)
      ensures fences == if ok then old(fences).(leases := old(fences).leases[lease.scope := lease]) else old(fences)
    {
      ok := !LeaseClash(fences.leases, lease);
      if ok {
        fences := fences.(leases := fences.leases[lease.scope := lease]);
      }
    }

    method AppendLeaseEvent(event: LeaseEvent)
      modifies this`fences
      ensures fences == old(fences).(events := old(fences).events + [event])
    {
      fences := fences.(events := fences.events + [event]);
    }

    method DeleteLeaseRow(scope: Scope)
      modifies this`fences
      ensures fences == old(fences).(leases := Without(old(fences).leases, scope))
    {
      fences := fences.(leases := Without(fences.leases, scope));
    }

    method InsertWorkflowCommand(command: Command) returns (ok: bool)
      modifies this`flow
      ensures ok == !CommandClash(old(flow).commands, command)
      ensures flow == if ok then old(flow).(commands := old(flow).commands + [command]) else old(flow)
    {
      ok := !CommandClash(flow.commands, command);
      if ok {
        flow := flow.(commands := flow.commands + [command]);
      }
    }

    /** The versioned UPDATE of a workflow row: writes only over the expected version. */
    method UpdateWorkflow(id: Id, expected: Version, next: Workflow) returns (ok: bool)
      modifies this`flow
      ensures ok == (id in old(flow).workflows && old(flow).workflows[id].version.counter == expected.counter)
      ensures flow == if ok then old(flow).(workflows := old(flow).workflows[id := next]) else old(flow)
    {
      ok := id in flow.workflows && flow.workflows[id].version.counter == expected.counter;
      if ok {
        flow := flow.(workflows := flow.workflows[id := next]);
      }
    }
  }
}
