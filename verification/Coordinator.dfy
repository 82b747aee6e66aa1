/** One transaction that consumes an authorization, moves the workflow, starts a
    lease, commits the write-ahead intent and leaves an envelope, or does nothing. */
module Coordinator {
  import opened Common
  import opened Tables
  import opened Leases
  import W = Workflows

  datatype AdmitArgs = AdmitArgs(
    authorization: Authorization, intent: Intent, service: Digest, owner: Id, leaseExpiresAt: Time, key: Id, at: Time,
    command: Id, admission: Id)

  type EnvelopeResult = Result<Envelope, Failure>

  function ScopeFor(a: AdmitArgs): Scope {
    Scope(a.service, a.intent.config)
  }

  /** Whether the intent repeats every binding of the authorization and names the next workflow version. */
  predicate Aligned(a: AdmitArgs) {
    var x := a.authorization;
    var i := a.intent;
    && i.workflow == x.workflow && i.execution == x.execution && i.digest == x.proposal && i.config == x.config
    && i.fingerprint == x.fingerprint && i.workspace == x.workspace && i.policies == x.policies && i.owner == a.owner
    && i.version == Version(i.workflow, x.expected.counter + 1)
  }

  /** The candidate is the stored authorization, still issued, in time and never presented before. */
  predicate Usable(db: Db, a: AdmitArgs) {
    var x := a.authorization;
    && x.execution in db.grants.authorizations && db.grants.authorizations[x.execution] == AuthorizationRow(Issued, x)
    && a.at < x.expiresAt && x.execution !in db.grants.admissions
  }

  predicate Awaiting(db: Db, a: AdmitArgs) {
    && a.intent.workflow in db.flow.workflows
    && var w := db.flow.workflows[a.intent.workflow];
       && w.state == AwaitingAuthorization && w.version == a.authorization.expected
       && w.config == a.authorization.config && w.proposal == a.intent.digest
  }

  function AdmitCommand(a: AdmitArgs): Command {
    Command(a.command, a.intent.workflow, AdmitExecutionAndCommitIntent, a.key, a.intent.digest,
            a.authorization.expected, a.intent.version, Some(a.intent.operation), a.at)
  }

  function HeldLease(a: AdmitArgs, token: nat): Lease {
    Lease(a.intent.lease, ScopeFor(a), a.intent.workflow, a.intent.version, token, Execution, HeldExecution, a.at,
          a.leaseExpiresAt, a.owner, None)
  }

  function NewEnvelope(a: AdmitArgs): Envelope {
    Envelope(a.admission, a.intent.workflow, a.key, a.intent.version, a.command, a.intent.operation, a.intent.execution,
             a.intent.lease, a.intent.token, a.intent.id, a.intent.digest, a.at)
  }

  /** Why a call that is not a replay is refused, in the order the code finds out. */
  function Refusal(db: Db, a: AdmitArgs): Option<Failure> {
    if !Usable(db, a) || !Awaiting(db, a) || ScopeFor(a) in db.fences.leases then Some(AdmissionRejected)
    else if a.intent.id in db.evidence.intents then Some(Conflict)
    else if a.at < db.flow.workflows[a.intent.workflow].createdAt then Some(Invalid)
    else if CommandClash(db.flow.commands, AdmitCommand(a)) then Some(IntegrityError)
    else if a.intent.token != LastToken(db.fences.counters, ScopeFor(a)) + 1 then Some(AdmissionRejected)
    else if LeaseClash(db.fences.leases, HeldLease(a, a.intent.token)) then Some(IntegrityError)
    else if EnvelopeClash(db.envelopes, NewEnvelope(a)) then Some(IntegrityError)
    else None
  }

  function LeaseEvents(a: AdmitArgs, token: nat): seq<LeaseEvent> {
    var held := HeldLease(a, token);
    var op := Some(a.intent.operation);
    [Event(held, AcquireAttempted, a.at, Available, HeldExecution, None),
     Event(held, Acquired, a.at, Available, HeldExecution, None),
     Event(held.(operation := op), AtomicCallStarted, a.at, HeldExecution, HeldExecution, op)]
  }

  /** Everything one successful admission commits. */
  function Committed(db: Db, a: AdmitArgs): Db
    requires a.intent.workflow in db.flow.workflows
  {
    Db(MovedFlow(db.flow, a), SpentGrants(db.grants, a), StartedFences(db.fences, a),
       db.evidence.(intents := db.evidence.intents[a.intent.id := a.intent]), db.envelopes + [NewEnvelope(a)])
  }

  function MovedFlow(flow: Flow, a: AdmitArgs): Flow
    requires a.intent.workflow in flow.workflows
  {
    Flow(flow.workflows[a.intent.workflow := W.Moved(flow.workflows[a.intent.workflow], Executing, AdmitCommand(a))],
         flow.commands + [AdmitCommand(a)])
  }

  function SpentGrants(grants: Grants, a: AdmitArgs): Grants {
    var x := a.authorization;
    grants.(authorizations := grants.authorizations[x.execution := AuthorizationRow(Consuming, x)],
            events := grants.events + [AuthorizationEvent(x.execution, Some(Issued), Consuming, a.at)],
            admissions := grants.admissions[
              x.execution := Admission(x.workflow, Admitted, AtomicExecutionAdmission, a.at)])
  }

  function StartedFences(fences: Fences, a: AdmitArgs): Fences {
    var token := a.intent.token;
    Fences(fences.counters[ScopeFor(a) := token],
           fences.leases[ScopeFor(a) := HeldLease(a, token).(operation := Some(a.intent.operation))],
           fences.events + LeaseEvents(a, token))
  }

  function AdmitAndBeginWriteSpec(db: Db, a: AdmitArgs): (Db, EnvelopeResult) {
    if a.leaseExpiresAt <= a.at then (db, Err(Invalid))
    else if !Aligned(a) then (db, Err(AdmissionRejected))
    else match FindEnvelope(db.envelopes, a.intent.workflow, a.key)
      case Some(e) =>
        (db, if e.digest == a.intent.digest && e.execution == a.intent.execution && e.intent == a.intent.id then Ok(e)
             else Err(Conflict))
      case None =>
        if Refusal(db, a).Some? then (db, Err(Refusal(db, a).value))
        else (Committed(db, a), Ok(NewEnvelope(a)))
  }

  class ExecutionAdmissionCoordinator {
    const database: SQLiteDatabase

    constructor (database: SQLiteDatabase)
      ensures this.database == database
    {
      this.database := database;
    }

    /** `_create_started_lease`: mints, records the attempt, acquires and starts; the caller rolls back an Err. */
    method CreateStartedLease(a: AdmitArgs) returns (r: Result<Lease, Failure>)
      requires ScopeFor(a) !in database.fences.leases
      modifies database`fences
      ensures r.Ok? ==>
                && a.intent.token == LastToken(old(database.fences).counters, ScopeFor(a)) + 1
                && !LeaseClash(old(database.fences).leases, HeldLease(a, a.intent.token))
                && r.value == HeldLease(a, a.intent.token).(operation := Some(a.intent.operation))
                && database.fences == StartedFences(old(database.fences), a)
      ensures r.Err? ==>
                if a.intent.token != LastToken(old(database.fences).counters, ScopeFor(a)) + 1
                then r.error == AdmissionRejected
                else r.error == IntegrityError && LeaseClash(old(database.fences).leases, HeldLease(a, a.intent.token))
    {
      var scope := ScopeFor(a);
      ghost var before := database.fences;
      var token := database.MintFencingToken(scope);
      if a.intent.token != token {
        return Err(AdmissionRejected);
      }
      var held := HeldLease(a, token);
      database.AppendLeaseEvent(Event(held, AcquireAttempted, a.at, Available, held.state, None));
      var written := database.WriteLeaseRow(held);
      if !written {
        return Err(IntegrityError);
      }
      database.AppendLeaseEvent(Event(held, Acquired, a.at, Available, held.state, None));
      var started := held.(operation := Some(a.intent.operation));
      written := database.WriteLeaseRow(started);
      assert written;
      assert before.leases[scope := held][scope := started] == before.leases[scope := started];
      database.AppendLeaseEvent(Event(started, AtomicCallStarted, a.at, held.state, started.state, started.operation));
      assert database.fences.events == before.events + LeaseEvents(a, token);
      return Ok(started);
    }

    /** `_consume_authorization`: compare-and-swap to CONSUMING, its event and the admission fact. */
    method ConsumeAuthorization(a: AdmitArgs) returns (ok: bool)
      modifies database`grants
      ensures var x := a.authorization;
              ok == (x.execution in old(database.grants).authorizations
                     && old(database.grants).authorizations[x.execution].state == Issued)
      ensures ok && old(database.grants).authorizations[a.authorization.execution].body == a.authorization ==>
                database.grants == SpentGrants(old(database.grants), a)
    {
      var x := a.authorization;
      ok := x.execution in database.grants.authorizations
            && database.grants.authorizations[x.execution].state == Issued;
      if !ok {
        return;
      }
      var row := database.grants.authorizations[x.execution];
      database.grants := database.grants.(
        authorizations := database.grants.authorizations[x.execution := row.(state := Consuming)]);
      database.grants := database.grants.(
        events := database.grants.events + [AuthorizationEvent(x.execution, Some(Issued), Consuming, a.at)]);
      database.grants := database.grants.(
        admissions := database.grants.admissions[
          x.execution := Admission(x.workflow, Admitted, AtomicExecutionAdmission, a.at)]);
    }

    method AdmitAndBeginWrite(a: AdmitArgs) returns (r: EnvelopeResult)
      modifies database
      ensures (database.Tables(), r) == AdmitAndBeginWriteSpec(old(database.Tables()), a)
    {
      if a.leaseExpiresAt <= a.at {
        return Err(Invalid);
      }
      if !Aligned(a) {
        return Err(AdmissionRejected);
      }
      var saved := database.Tables();
      var replay := FindEnvelope(saved.envelopes, a.intent.workflow, a.key);
      if replay.Some? {
        var e := replay.value;
        if e.digest != a.intent.digest || e.execution != a.intent.execution || e.intent != a.intent.id {
          return Err(Conflict);
        }
        return Ok(e);
      }
      if !Usable(saved, a) || !Awaiting(saved, a) || ScopeFor(a) in saved.fences.leases {
        return Err(AdmissionRejected);
      }
      if a.intent.id in saved.evidence.intents {
        return Err(Conflict);
      }
      var previous := saved.flow.workflows[a.intent.workflow];
      if a.at < previous.createdAt {
        return Err(Invalid);
      }
      var inserted := database.InsertWorkflowCommand(AdmitCommand(a));
      if !inserted {
        return Err(IntegrityError);
      }
      var next := previous.(state := Executing, version := a.intent.version, updatedAt := a.at,
                            latestCommand := Some(a.command), latestOperation := Some(a.intent.operation));
      var updated := database.UpdateWorkflow(a.intent.workflow, a.authorization.expected, next);
      assert updated;
      var lease := CreateStartedLease(a);
      if lease.Err? {
        database.flow, database.fences := saved.flow, saved.fences;
        return Err(lease.error);
      }
      database.evidence := database.evidence.(intents := database.evidence.intents[a.intent.id := a.intent]);
      var consumed := ConsumeAuthorization(a);
      assert consumed;
      var envelope := Envelope(a.admission, a.intent.workflow, a.key, a.intent.version, a.command, a.intent.operation,
                               a.intent.execution, lease.value.id, lease.value.token, a.intent.id, a.intent.digest,
                               a.at);
      if EnvelopeClash(database.envelopes, envelope) {
        database.flow, database.grants, database.fences, database.evidence :=
          saved.flow, saved.grants, saved.fences, saved.evidence;
        return Err(IntegrityError);
      }
      database.envelopes := database.envelopes + [envelope];
      return Ok(envelope);
    }
  }
}
