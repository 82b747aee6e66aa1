/** Approval requests, authority decisions and single-use authorizations. */
module Approvals {
  import opened Common
  import opened Tables

  predicate Matches(q: Request, w: Workflow) {
    w.state == AwaitingAuthorization && w.version == q.expected && w.config == q.config && w.proposal == q.proposal
  }

  function CreateRequestSpec(flow: Flow, grants: Grants, id: Id, q: Request): (Grants, Result<Request, Failure>) {
    if q.workflow !in flow.workflows then (grants, Err(NotFound))
    else if !Matches(q, flow.workflows[q.workflow]) then (grants, Err(Invalid))
    else if id in grants.requests then (grants, Err(TerminalDecision))
    else (grants.(requests := grants.requests[id := q]), Ok(q))
  }

  datatype ApproveArgs = ApproveArgs(
    request: Id, principal: Digest, expiresAt: Time, at: Time, authority: Id, decision: Id, execution: Id)

  /** Whether a decision id is already used by another request's decision. */
  predicate DecisionClash(decisions: map<Id, Decision>, id: Id) {
    exists r :: r in decisions && decisions[r].id == id
  }

  function NewAuthorization(q: Request, a: ApproveArgs): Authorization {
    Authorization(a.execution, q.workflow, a.request, q.proposal, q.config, q.fingerprint, q.expected, a.at,
                  a.expiresAt, a.principal, a.decision, a.authority, q.workspace, q.policies)
  }

  /** Why a request cannot be decided now. The EXPIRED decision that the code
      inserts before it raises is rolled back with the transaction. */
  function Undecidable(grants: Grants, request: Id, at: Time): Option<Failure> {
    if request !in grants.requests then Some(NotFound)
    else if request in grants.decisions then Some(TerminalDecision)
    else if at >= grants.requests[request].expiresAt then Some(RequestExpired)
    else None
  }

  function ApproveSpec(flow: Flow, grants: Grants, a: ApproveArgs): (Grants, Result<Authorization, Failure>) {
    var undecidable := Undecidable(grants, a.request, a.at);
    if undecidable.Some? then
      // The insertion may itself fail first, when the fresh decision id is taken.
      (grants, Err(if undecidable == Some(RequestExpired) && DecisionClash(grants.decisions, a.decision)
                   then IntegrityError else undecidable.value))
    else
      var q := grants.requests[a.request];
      if a.expiresAt <= a.at || a.expiresAt > q.expiresAt then (grants, Err(Invalid))
      else if q.workflow !in flow.workflows then (grants, Err(NotFound))
      else if DecisionClash(grants.decisions, a.decision) then (grants, Err(IntegrityError))
      else if !Matches(q, flow.workflows[q.workflow]) then (grants, Err(TerminalDecision))
      else if a.execution in grants.authorizations
              || exists x :: x in grants.authorizations && grants.authorizations[x].body.request == a.request then
        (grants, Err(IntegrityError))
      else
        var body := NewAuthorization(q, a);
        (grants.(decisions := grants.decisions[a.request := Decision(a.decision, Approved, a.at)],
             authorizations := grants.authorizations[a.execution := AuthorizationRow(Issued, body)],
             events := grants.events + [AuthorizationEvent(a.execution, None, Issued, a.at)]),
         Ok(body))
  }

  /** `reject` and `cancel` decide a pending request; `expire` decides an expired one. */
  function DecideSpec(grants: Grants, request: Id, kind: DecisionKind, at: Time, id: Id)
    : (Grants, Result<Decision, Failure>)
    requires kind.RejectedRequest? || kind.CancelledRequest? || kind.ExpiredRequest?
  {
    var undecidable := Undecidable(grants, request, at);
    var refused := if kind.ExpiredRequest? && undecidable == Some(RequestExpired) then None
                   else if kind.ExpiredRequest? && undecidable.None? then Some(Invalid)
                   else undecidable;
    if refused.Some? && refused != Some(RequestExpired) then (grants, Err(refused.value))
    else if DecisionClash(grants.decisions, id) then (grants, Err(IntegrityError))
    else if refused.Some? then (grants, Err(RequestExpired))
    else (grants.(decisions := grants.decisions[request := Decision(id, kind, at)]), Ok(Decision(id, kind, at)))
  }

  function SetState(grants: Grants, x: Id, after: AuthorizationState, at: Time): Grants
    requires x in grants.authorizations
  {
    var row := grants.authorizations[x];
    grants.(authorizations := grants.authorizations[x := row.(state := after)],
        events := grants.events + [AuthorizationEvent(x, Some(row.state), after, at)])
  }

  type StateResult = Result<AuthorizationState, Failure>

  function InvalidateSpec(grants: Grants, x: Id, at: Time): (Grants, StateResult) {
    if x !in grants.authorizations then (grants, Err(NotFound))
    else if grants.authorizations[x].state != Issued then (grants, Ok(grants.authorizations[x].state))
    else (SetState(grants, x, Invalidated, at), Ok(Invalidated))
  }

  function ConsumeSpec(grants: Grants, x: Id, at: Time): (Grants, StateResult) {
    if x !in grants.authorizations then (grants, Err(NotFound))
    else if grants.authorizations[x].state != Consuming then (grants, Ok(grants.authorizations[x].state))
    else (SetState(grants, x, Consumed, at), Ok(Consumed))
  }

  datatype Verdict = Verdict(status: AdmissionStatus, target: AuthorizationState, reason: AdmissionReason)

  /** `_admission_outcome`: what becomes of a presented authorization. */
  function AdmissionOutcome(flow: Flow, grants: Grants, candidate: Authorization, row: AuthorizationRow,
                            authority: Id, at: Time): Option<Verdict>
  {
    if row.state.Expired? || row.state.Invalidated? || row.state.Rejected? || row.state.Cancelled? then
      Some(Verdict(NotAdmitted(row.state), row.state, AlreadyFinal))
    else if row.state != Issued then Some(Verdict(NotAdmitted(Invalidated), Invalidated, UnsafeAuthorizationState))
    else if candidate != row.body || row.body.authority != authority then
      Some(Verdict(NotAdmitted(Invalidated), Invalidated, IntegrityFailed))
    else if at >= row.body.expiresAt then Some(Verdict(NotAdmitted(Expired), Expired, TooLate))
    else if row.body.workflow !in flow.workflows || row.body.request !in grants.requests then None
    else if !Matches(grants.requests[row.body.request], flow.workflows[row.body.workflow]) then
      Some(Verdict(NotAdmitted(Invalidated), Invalidated, WorkflowBindingChanged))
    else Some(Verdict(Admitted, Consuming, AdmittedAlone))
  }

  function AdmitSpec(flow: Flow, grants: Grants, candidate: Authorization, authority: Id, at: Time)
    : (Grants, Result<Admission, Failure>)
  {
    var x := candidate.execution;
    if x in grants.admissions then (grants, Ok(grants.admissions[x]))
    else if x !in grants.authorizations then (grants, Err(NotFound))
    else
      var row := grants.authorizations[x];
      match AdmissionOutcome(flow, grants, candidate, row, authority, at)
      case None => (grants, Err(NotFound))
      case Some(v) =>
        var admission := Admission(row.body.workflow, v.status, v.reason, at);
        var moved := if v.target == row.state then grants else SetState(grants, x, v.target, at);
        (moved.(admissions := moved.admissions[x := admission]), Ok(admission))
  }

  class ApprovalAuthorityStore {
    const database: SQLiteDatabase
    const authority: Id

    constructor (database: SQLiteDatabase, authority: Id)
      ensures this.database == database && this.authority == authority
    {
      this.database := database;
      this.authority := authority;
    }

    method CreateRequest(id: Id, q: Request) returns (r: Result<Request, Failure>)
      modifies database`grants
      ensures (database.grants, r) == CreateRequestSpec(database.flow, old(database.grants), id, q)
    {
      if q.workflow !in database.flow.workflows {
        return Err(NotFound);
      }
      if !Matches(q, database.flow.workflows[q.workflow]) {
        return Err(Invalid);
      }
      if id in database.grants.requests {
        return Err(TerminalDecision);
      }
      database.grants := database.grants.(requests := database.grants.requests[id := q]);
      return Ok(q);
    }

    /** One INSERT into the decisions table; a taken decision id fails it. */
    method InsertDecision(request: Id, d: Decision) returns (ok: bool)
      requires request !in database.grants.decisions
      modifies database`grants
      ensures ok == !DecisionClash(old(database.grants).decisions, d.id)
      ensures database.grants ==
              if ok then old(database.grants).(decisions := old(database.grants).decisions[request := d])
              else old(database.grants)
    {
      ok := !DecisionClash(database.grants.decisions, d.id);
      if ok {
        database.grants := database.grants.(decisions := database.grants.decisions[request := d]);
      }
    }

    /** Raises unless the request is pending, inserting EXPIRED on the way when it is too late. */
    method PendingRequest(request: Id, at: Time, uuid: Id) returns (r: Result<Request, Failure>)
      modifies database`grants
      ensures r.Ok? ==> database.grants == old(database.grants) && Undecidable(database.grants, request, at).None?
                        && r.value == database.grants.requests[request]
      ensures r.Err? ==>
                var u := Undecidable(old(database.grants), request, at);
                u.Some? && r.error == if u.value.RequestExpired? && DecisionClash(old(database.grants).decisions, uuid)
                                      then IntegrityError else u.value
    {
      if request !in database.grants.requests {
        return Err(NotFound);
      }
      if request in database.grants.decisions {
        return Err(TerminalDecision);
      }
      if at >= database.grants.requests[request].expiresAt {
        var inserted := InsertDecision(request, Decision(uuid, ExpiredRequest, at));
        if !inserted {
          return Err(IntegrityError);
        }
        return Err(RequestExpired);
      }
      return Ok(database.grants.requests[request]);
    }

    method Approve(a: ApproveArgs) returns (r: Result<Authorization, Failure>)
      requires a.authority == authority
      modifies database`grants
      ensures (database.grants, r) == ApproveSpec(database.flow, old(database.grants), a)
    {
      var saved := database.grants;
      var pending := PendingRequest(a.request, a.at, a.decision);
      if pending.Err? {
        database.grants := saved;
        return Err(pending.error);
      }
      var q := pending.value;
      if a.expiresAt <= a.at || a.expiresAt > q.expiresAt {
        return Err(Invalid);
      }
      if q.workflow !in database.flow.workflows {
        return Err(NotFound);
      }
      if !Matches(q, database.flow.workflows[q.workflow]) {
        // INVALIDATED is inserted and then rolled back by the raise.
        var inserted := InsertDecision(a.request, Decision(a.decision, InvalidatedRequest, a.at));
        database.grants := saved;
        return Err(if inserted then TerminalDecision else IntegrityError);
      }
      var inserted := InsertDecision(a.request, Decision(a.decision, Approved, a.at));
      if !inserted {
        return Err(IntegrityError);
      }
      if a.execution in database.grants.authorizations
         || exists x :: x in database.grants.authorizations
                        && database.grants.authorizations[x].body.request == a.request {
        database.grants := saved;
        return Err(IntegrityError);
      }
      var body := NewAuthorization(q, a);
      database.grants := database.grants.(
        authorizations := database.grants.authorizations[a.execution := AuthorizationRow(Issued, body)]);
      database.grants := database.grants.(
        events := database.grants.events + [AuthorizationEvent(a.execution, None, Issued, a.at)]);
      return Ok(body);
    }

    method Decide(request: Id, kind: DecisionKind, at: Time, id: Id) returns (r: Result<Decision, Failure>)
      requires kind.RejectedRequest? || kind.CancelledRequest? || kind.ExpiredRequest?
      modifies database`grants
      ensures (database.grants, r) == DecideSpec(old(database.grants), request, kind, at, id)
    {
      var saved := database.grants;
      if kind.ExpiredRequest? {
        if request !in database.grants.requests {
          return Err(NotFound);
        }
        if request in database.grants.decisions {
          return Err(TerminalDecision);
        }
        if at < database.grants.requests[request].expiresAt {
          return Err(Invalid);
        }
      } else {
        var pending := PendingRequest(request, at, id);
        if pending.Err? {
          database.grants := saved;
          return Err(pending.error);
        }
      }
      var inserted := InsertDecision(request, Decision(id, kind, at));
      if !inserted {
        return Err(IntegrityError);
      }
      return Ok(Decision(id, kind, at));
    }

    /** The compare-and-swap on an authorization's state, with its event. */
    method SetAuthorizationState(x: Id, before: AuthorizationState, after: AuthorizationState, at: Time)
      returns (ok: bool)
      modifies database`grants
      ensures ok == (x in old(database.grants).authorizations && old(database.grants).authorizations[x].state == before)
      ensures database.grants == if ok then SetState(old(database.grants), x, after, at) else old(database.grants)
    {
      ok := x in database.grants.authorizations && database.grants.authorizations[x].state == before;
      if ok {
        var row := database.grants.authorizations[x];
        database.grants := database.grants.(
          authorizations := database.grants.authorizations[x := row.(state := after)]);
        database.grants := database.grants.(
          events := database.grants.events + [AuthorizationEvent(x, Some(before), after, at)]);
      }
    }

    method InvalidateAuthorization(x: Id, at: Time) returns (r: StateResult)
      modifies database`grants
      ensures (database.grants, r) == InvalidateSpec(old(database.grants), x, at)
    {
      if x !in database.grants.authorizations {
        return Err(NotFound);
      }
      var current := database.grants.authorizations[x].state;
      if current != Issued {
        return Ok(current);
      }
      var ok := SetAuthorizationState(x, current, Invalidated, at);
      assert ok;
      return Ok(Invalidated);
    }

    method MarkConsumed(x: Id, at: Time) returns (r: StateResult)
      modifies database`grants
      ensures (database.grants, r) == ConsumeSpec(old(database.grants), x, at)
    {
      if x !in database.grants.authorizations {
        return Err(NotFound);
      }
      var current := database.grants.authorizations[x].state;
      if current == Consuming {
        var ok := SetAuthorizationState(x, current, Consumed, at);
        assert ok;
        return Ok(Consumed);
      }
      return Ok(current);
    }

    method Admit(candidate: Authorization, at: Time) returns (r: Result<Admission, Failure>)
      modifies database`grants
      ensures (database.grants, r) == AdmitSpec(database.flow, old(database.grants), candidate, authority, at)
    {
      var x := candidate.execution;
      if x in database.grants.admissions {
        return Ok(database.grants.admissions[x]);
      }
      if x !in database.grants.authorizations {
        return Err(NotFound);
      }
      var row := database.grants.authorizations[x];
      var verdict := AdmissionOutcome(database.flow, database.grants, candidate, row, authority, at);
      if verdict.None? {
        return Err(NotFound);
      }
      var admission := Admission(row.body.workflow, verdict.value.status, verdict.value.reason, at);
      if verdict.value.target != row.state {
        var ok := SetAuthorizationState(x, row.state, verdict.value.target, at);
        assert ok;
      }
      database.grants := database.grants.(admissions := database.grants.admissions[x := admission]);
      return Ok(admission);
    }
  }
}
