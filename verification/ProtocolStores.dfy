/** The store methods, called one after another on one database, are the calls the runs are made of. */
module ProtocolStores {
  import opened Tables
  import opened Leases
  import opened Protocol
  import opened ProtocolInvariant
  import opened ProtocolPreservation
  import W = Workflows
  import A = Approvals
  import R = Reconciliation
  import C = Coordinator

  method WorkflowCall(database: SQLiteDatabase, c: Call) returns (reply: Reply)
    requires c.RecordWorkflow? || c.Transition?
    modifies database
    ensures (database.Tables(), reply) == Exec(old(database.Tables()), c)
  {
    var store := new W.WorkflowStore(database);
    if c.RecordWorkflow? {
      var r := store.Record(c.id, c.row);
      return Answer(r, _ => Done);
    }
    var r := store.Transition(c.move);
    return Answer(r, x => CommandReply(x));
  }

  method AuthorityCall(database: SQLiteDatabase, c: Call) returns (reply: Reply)
    requires IsGrantCall(c)
    modifies database
    ensures (database.Tables(), reply) == Exec(old(database.Tables()), c)
  {
    hide A.CreateRequestSpec, A.ApproveSpec, A.DecideSpec, A.InvalidateSpec, A.AdmitSpec, A.ConsumeSpec;
    var authority := if c.Approve? then c.approval.authority else if c.AdmitAuthorization? then c.authority else 0;
    var store := new A.ApprovalAuthorityStore(database, authority);
    match c
    case CreateRequest(id, q) =>
      var r := store.CreateRequest(id, q);
      return Answer(r, _ => Done);
    case Approve(a) =>
      var r := store.Approve(a);
      return Answer(r, x => AuthorizationReply(x));
    case RejectRequest(id, at, decision) =>
      var r := store.Decide(id, RejectedRequest, at, decision);
      return Answer(r, _ => Done);
    case CancelRequest(id, at, decision) =>
      var r := store.Decide(id, CancelledRequest, at, decision);
      return Answer(r, _ => Done);
    case ExpireRequest(id, at, decision) =>
      var r := store.Decide(id, ExpiredRequest, at, decision);
      return Answer(r, _ => Done);
    case InvalidateAuthorization(id, at) =>
      var r := store.InvalidateAuthorization(id, at);
      return Answer(r, x => StateReply(x));
    case AdmitAuthorization(candidate, _, at) =>
      var r := store.Admit(candidate, at);
      return Answer(r, x => AdmissionReply(x));
    case MarkConsumed(id, at) =>
      var r := store.MarkConsumed(id, at);
      return Answer(r, x => StateReply(x));
  }

  method LeaseCall(database: SQLiteDatabase, c: Call) returns (reply: Reply)
    requires IsLeaseCall(c)
    requires UniqueLeaseIds(database.fences.leases)
    requires forall s :: s in database.fences.leases ==> database.fences.leases[s].scope == s
    modifies database
    ensures (database.Tables(), reply) == Exec(old(database.Tables()), c)
  {
    hide AcquireSpec, ReleaseSpec, StartCallSpec, FinishCallSpec, ExpireSpec;
    var store := new ContextLeaseStore(database);
    var r: LeaseResult;
    match c {
    case Acquire(a) => r := store.Acquire(a);
    case Release(claim) => r := store.Release(claim, false);
    case ReleaseForAuthorization(claim) => r := store.Release(claim, true);
    case StartAtomicCall(claim, operation) => r := store.StartAtomicCall(claim, operation);
    case FinishAtomicCall(claim, operation) => r := store.FinishAtomicCall(claim, operation);
    case ExpireLease(scope, at) => r := store.Expire(scope, at);
    }
    reply := Answer(r, l => LeaseReply(l));
  }

  method EvidenceCall(database: SQLiteDatabase, c: Call) returns (reply: Reply)
    requires IsEvidenceCall(c)
    modifies database
    ensures (database.Tables(), reply) == Exec(old(database.Tables()), c)
  {
    hide R.CommitIntentSpec, R.AppendObservationSpec, R.RecordSpec;
    var store := new R.ReconciliationStore(database);
    match c
    case CommitIntent(i) =>
      var r := store.CommitIntent(i);
      return Answer(r, _ => Done);
    case AppendObservation(o) =>
      var r := store.AppendObservation(o);
      return Answer(r, _ => Done);
    case RecordClassification(x) =>
      var r := store.RecordClassification(x);
      return Answer(r, _ => Done);
  }

  /** Any public call on a database in a valid state does exactly what the run
      semantics says, and leaves a valid state that takes nothing back. */
  method Perform(database: SQLiteDatabase, c: Call) returns (reply: Reply)
    requires Valid(database.Tables())
    modifies database
    ensures (database.Tables(), reply) == Exec(old(database.Tables()), c)
    ensures Valid(database.Tables()) && Grows(old(database.Tables()), database.Tables())
  {
    ExecValid(database.Tables(), c);
    ExecGrows(database.Tables(), c);
    if c.RecordWorkflow? || c.Transition? {
      reply := WorkflowCall(database, c);
    } else if IsGrantCall(c) {
      reply := AuthorityCall(database, c);
    } else if IsLeaseCall(c) {
      assert UniqueLeaseIds(database.fences.leases)
             && forall s :: s in database.fences.leases ==> database.fences.leases[s].scope == s;
      reply := LeaseCall(database, c);
    } else if IsEvidenceCall(c) {
      reply := EvidenceCall(database, c);
    } else {
      assert c.AdmitAndBeginWrite?;
      var store := new C.ExecutionAdmissionCoordinator(database);
      var r := store.AdmitAndBeginWrite(c.admission);
      reply := Answer(r, x => EnvelopeReply(x));
    }
  }

  /** A session from an empty file: the tables end where the run of the same calls ends. */
  method Session(cs: seq<Call>) returns (database: SQLiteDatabase)
    ensures fresh(database) && database.Tables() == Run(EMPTY_DB, cs) && Valid(database.Tables())
  {
    database := new SQLiteDatabase();
    EmptyIsValid();
    hide Exec, Grows, Valid;
    for k := 0 to |cs|
      invariant Valid(database.Tables())
      invariant Run(database.Tables(), cs[k..]) == Run(EMPTY_DB, cs)
    {
      assert cs[k..][0] == cs[k] && cs[k..][1..] == cs[k + 1..];
      var _ := Perform(database, cs[k]);
    }
  }
}
