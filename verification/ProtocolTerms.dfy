/** What every stored row says about the call that stored it, in every reachable state. */
module ProtocolTerms {
  import opened Common
  import opened Tables
  import opened Leases
  import opened Protocol
  import opened ProtocolInvariant
  import opened ProtocolPreservation
  import opened ProtocolSafety
  import W = Workflows
  import A = Approvals
  import R = Reconciliation
  import C = Coordinator

  // ---------------------------------------------------------------------
  // Decisions, authorizations and admissions
  // ---------------------------------------------------------------------

  /** Approval, rejection and cancellation are in time, expiry is not; no decision is INVALIDATED. */
  ghost predicate DecisionTimed(d: Decision, q: Request) {
    match d.kind
    case ExpiredRequest => q.expiresAt <= d.at
    case InvalidatedRequest => false
    case _ => d.at < q.expiresAt
  }

  ghost predicate DecisionsTimed(requests: map<Id, Request>, decisions: map<Id, Decision>) {
    && (forall r :: r in decisions ==> r in requests && DecisionTimed(decisions[r], requests[r]))
    && (forall r, s :: r in decisions && s in decisions && decisions[r].id == decisions[s].id ==> r == s)
  }

  /** An authorization repeats its request's terms, dates from its approval and ends with the request at the latest. */
  ghost predicate Granted(b: Authorization, requests: map<Id, Request>, decisions: map<Id, Decision>,
                          events: seq<AuthorizationEvent>)
  {
    && b.request in requests && b.request in decisions
    && var q := requests[b.request];
       && b.workflow == q.workflow && b.proposal == q.proposal && b.config == q.config
       && b.fingerprint == q.fingerprint && b.expected == q.expected && b.workspace == q.workspace
       && b.policies == q.policies && b.issuedAt < b.expiresAt <= q.expiresAt
       && decisions[b.request] == Decision(b.decision, Approved, b.issuedAt)
       && AuthorizationEvent(b.execution, None, Issued, b.issuedAt) in events
  }

  /** What the answer to a presentation says about the authorization and the time it was presented. */
  ghost predicate Answered(m: Admission, row: AuthorizationRow, events: seq<AuthorizationEvent>) {
    var b := row.body;
    && m.workflow == b.workflow
    && match m.reason
       case AtomicExecutionAdmission =>
         m.status == Admitted && m.at < b.expiresAt && Moves(b.execution, Consuming, m.at, events)
       case AdmittedAlone =>
         m.status == Admitted && m.at < b.expiresAt && Moves(b.execution, Consuming, m.at, events)
       case AlreadyFinal => m.status == NotAdmitted(row.state) && (row.state == Expired || row.state == Invalidated)
       case IntegrityFailed =>
         && m.status == NotAdmitted(Invalidated) && row.state == Invalidated
         && Moves(b.execution, Invalidated, m.at, events)
       case TooLate =>
         && m.status == NotAdmitted(Expired) && row.state == Expired && b.expiresAt <= m.at
         && Moves(b.execution, Expired, m.at, events)
       case WorkflowBindingChanged =>
         && m.status == NotAdmitted(Invalidated) && row.state == Invalidated && m.at < b.expiresAt
         && Moves(b.execution, Invalidated, m.at, events)
       case UnsafeAuthorizationState => false
  }

  ghost predicate Moves(x: Id, after: AuthorizationState, at: Time, events: seq<AuthorizationEvent>) {
    AuthorizationEvent(x, Some(Issued), after, at) in events
  }

  ghost predicate AuthorizationsGranted(g: Grants) {
    forall x :: x in g.authorizations ==> Granted(g.authorizations[x].body, g.requests, g.decisions, g.events)
  }

  ghost predicate AdmissionsAnswered(g: Grants) {
    forall x :: x in g.admissions ==>
                  x in g.authorizations && g.authorizations[x].body.execution == x
                  && Answered(g.admissions[x], g.authorizations[x], g.events)
  }

  ghost predicate GrantsTold(g: Grants) {
    DecisionsTimed(g.requests, g.decisions) && AuthorizationsGranted(g) && AdmissionsAnswered(g)
  }

  lemma KeptGrants(before: Grants, after: Grants)
    requires GrantsTold(before) && GrantsGrow(before, after)
    ensures forall x :: x in before.authorizations ==>
              Granted(after.authorizations[x].body, after.requests, after.decisions, after.events)
    ensures forall x :: x in before.admissions ==> Answered(after.admissions[x], after.authorizations[x], after.events)
  {
    forall x | x in before.authorizations
      ensures Granted(after.authorizations[x].body, after.requests, after.decisions, after.events)
    {
      var b := before.authorizations[x].body;
      assert AuthorizationGrows(before.authorizations[x], after.authorizations[x]);
      StillThere(before.events, after.events, AuthorizationEvent(b.execution, None, Issued, b.issuedAt));
    }
    forall x | x in before.admissions
      ensures Answered(after.admissions[x], after.authorizations[x], after.events)
    {
      KeptAnswer(before, after, x);
    }
  }

  lemma KeptAnswer(before: Grants, after: Grants, x: Id)
    requires AdmissionsAnswered(before) && GrantsGrow(before, after) && x in before.admissions
    ensures Answered(after.admissions[x], after.authorizations[x], after.events)
  {
    var m, row := before.admissions[x], before.authorizations[x];
    assert Answered(m, row, before.events) && AuthorizationGrows(row, after.authorizations[x]);
    forall s | Moves(x, s, m.at, before.events)
      ensures Moves(x, s, m.at, after.events)
    {
      StillThere(before.events, after.events, AuthorizationEvent(x, Some(Issued), s, m.at));
    }
  }

  lemma KeptDecisions(before: Grants, after: Grants)
    requires DecisionsTimed(before.requests, before.decisions) && GrantsGrow(before, after)
    requires after.decisions == before.decisions
    ensures DecisionsTimed(after.requests, after.decisions)
  {
  }

  lemma NewDecision(before: Grants, after: Grants, request: Id, d: Decision)
    requires DecisionsTimed(before.requests, before.decisions) && Keeps(before.requests, after.requests)
    requires request in after.requests && DecisionTimed(d, after.requests[request])
    requires !A.DecisionClash(before.decisions, d.id) && after.decisions == before.decisions[request := d]
    ensures DecisionsTimed(after.requests, after.decisions)
  {
  }

  lemma ApproveTold(flow: Flow, g: Grants, a: A.ApproveArgs)
    requires GrantsTold(g)
    ensures GrantsTold(A.ApproveSpec(flow, g, a).0)
  {
    var d := A.ApproveSpec(flow, g, a).0;
    if d != g {
      hide A.DecisionClash, A.Matches;
      var q := g.requests[a.request];
      var body := A.NewAuthorization(q, a);
      ApproveGrows(flow, g, a);
      NewDecision(g, d, a.request, Decision(a.decision, Approved, a.at));
      KeptGrants(g, d);
      assert d.events[|g.events|] == AuthorizationEvent(a.execution, None, Issued, a.at);
      assert Granted(body, d.requests, d.decisions, d.events);
      assert d.admissions == g.admissions;
      hide A.ApproveSpec, GrantsGrow, Granted, Answered, DecisionsTimed;
    }
  }

  lemma DecideTold(g: Grants, request: Id, kind: DecisionKind, at: Time, id: Id)
    requires GrantsTold(g) && (kind.RejectedRequest? || kind.CancelledRequest? || kind.ExpiredRequest?)
    ensures GrantsTold(A.DecideSpec(g, request, kind, at, id).0)
  {
    var d := A.DecideSpec(g, request, kind, at, id).0;
    if d != g {
      hide A.DecisionClash;
      assert d == g.(decisions := g.decisions[request := Decision(id, kind, at)]);
      assert Keeps(g.decisions, d.decisions) && GrantsGrow(g, d);
      NewDecision(g, d, request, Decision(id, kind, at));
      KeptGrants(g, d);
      hide A.DecideSpec, GrantsGrow, Granted, Answered, DecisionsTimed;
    }
  }

  lemma MovedTold(g: Grants, x: Id, after: AuthorizationState, at: Time)
    requires GrantsTold(g) && x in g.authorizations
    requires g.authorizations[x].state.Issued? || (g.authorizations[x].state.Consuming? && after.Consumed?)
    ensures GrantsTold(A.SetState(g, x, after, at)) && GrantsGrow(g, A.SetState(g, x, after, at))
  {
    var d := A.SetState(g, x, after, at);
    SetStateGrows(g, x, after, at);
    KeptGrants(g, d);
    KeptDecisions(g, d);
    assert d.admissions == g.admissions && d.authorizations.Keys == g.authorizations.Keys;
    hide A.SetState, GrantsGrow, Granted, Answered, DecisionsTimed;
  }

  lemma PresentShape(flow: Flow, g: Grants, candidate: Authorization, authority: Id, at: Time)
    ensures var x, d := candidate.execution, A.AdmitSpec(flow, g, candidate, authority, at).0;
      d != g ==>
        && x in g.authorizations && d.requests == g.requests && d.decisions == g.decisions
        && d.authorizations.Keys == g.authorizations.Keys
        && x in d.admissions && d.admissions == g.admissions[x := d.admissions[x]]
  {
    hide A.AdmissionOutcome;
  }

  lemma PresentTold(flow: Flow, g: Grants, candidate: Authorization, authority: Id, at: Time)
    requires GrantsTold(g) && GrantsOk(g.authorizations, g.events, g.admissions)
    ensures GrantsTold(A.AdmitSpec(flow, g, candidate, authority, at).0)
  {
    hide A.AdmitSpec, GrantsGrow, Granted, Answered, DecisionsTimed, AuthorizationGrows;
    var x := candidate.execution;
    var d := A.AdmitSpec(flow, g, candidate, authority, at).0;
    PresentShape(flow, g, candidate, authority, at);
    if d != g {
      assert GrantOk(g.authorizations[x], g.events, g.admissions, x);
      PresentGrows(flow, g, candidate, authority, at);
      KeptGrants(g, d);
      KeptDecisions(g, d);
      PresentAnswers(flow, g, candidate, authority, at);
      KeptBodies(g, d);
    }
  }

  lemma KeptBodies(before: Grants, after: Grants)
    requires GrantsGrow(before, after)
    ensures forall x :: x in before.authorizations ==>
              x in after.authorizations && after.authorizations[x].body == before.authorizations[x].body
  {
  }

  lemma PresentAnswers(flow: Flow, g: Grants, candidate: Authorization, authority: Id, at: Time)
    requires A.AdmitSpec(flow, g, candidate, authority, at).0 != g
    requires var x := candidate.execution; GrantOk(g.authorizations[x], g.events, g.admissions, x)
    ensures var x, d := candidate.execution, A.AdmitSpec(flow, g, candidate, authority, at).0;
      Answered(d.admissions[x], d.authorizations[x], d.events)
  {
    hide A.Matches;
    var x, d := candidate.execution, A.AdmitSpec(flow, g, candidate, authority, at).0;
    assert d.events == g.events
           || d.events[|g.events|] == AuthorizationEvent(x, Some(Issued), d.authorizations[x].state, at);
  }

  // ---------------------------------------------------------------------
  // Leases
  // ---------------------------------------------------------------------

  function StateOf(mode: LeaseMode): LeaseState {
    match mode
    case Preview => HeldPreview
    case Execution => HeldExecution
    case Rollback => HeldRollback
  }

  ghost predicate AcquiredAs(l: Lease, events: seq<LeaseEvent>) {
    LeaseEvent(l.id, l.scope, l.workflow, l.version, l.token, LeaseEventKind.Acquired, l.issuedAt, Available,
               StateOf(l.mode), None) in events
  }

  ghost predicate CalledInTime(l: Lease, events: seq<LeaseEvent>) {
    exists t :: t < l.expiresAt
                && LeaseEvent(l.id, l.scope, l.workflow, l.version, l.token, AtomicCallStarted, t, StateOf(l.mode),
                              StateOf(l.mode), l.operation) in events
  }

  ghost predicate ExpiredInTime(l: Lease, events: seq<LeaseEvent>) {
    exists t :: l.expiresAt <= t
                && LeaseEvent(l.id, l.scope, l.workflow, l.version, l.token, ExpiredLease, t, StateOf(l.mode),
                              InFlightExpired, l.operation) in events
  }

  /** A row was acquired for a time ahead, in its mode; its call was started
      before it expired, and its expiry, if any, came after. */
  ghost predicate LeaseTold(l: Lease, events: seq<LeaseEvent>) {
    && l.issuedAt < l.expiresAt && AcquiredAs(l, events)
    && (l.operation.Some? ==> CalledInTime(l, events))
    && (l.state.InFlightExpired? ==> ExpiredInTime(l, events))
  }

  ghost predicate FencesTold(f: Fences) {
    forall s :: s in f.leases ==> LeaseTold(f.leases[s], f.events)
  }

  lemma KeptLease(l: Lease, before: seq<LeaseEvent>, after: seq<LeaseEvent>)
    requires before <= after
    ensures AcquiredAs(l, before) ==> AcquiredAs(l, after)
    ensures CalledInTime(l, before) ==> CalledInTime(l, after)
    ensures ExpiredInTime(l, before) ==> ExpiredInTime(l, after)
  {
    forall e | e in before
      ensures e in after
    {
      StillThere(before, after, e);
    }
  }

  /** One scope's row is written or removed, and events are added. */
  lemma RowTold(before: Fences, after: Fences, s: Scope)
    requires FencesTold(before) && before.events <= after.events
    requires forall t :: t in after.leases && t != s ==> t in before.leases && after.leases[t] == before.leases[t]
    requires s in after.leases ==> LeaseTold(after.leases[s], after.events)
    ensures FencesTold(after)
  {
    hide LeaseTold, CalledInTime, ExpiredInTime, AcquiredAs;
    forall t | t in after.leases && t != s
      ensures LeaseTold(after.leases[t], after.events)
    {
      LeaseStillTold(before.leases[t], before.events, after.events);
    }
  }

  lemma LeaseStillTold(l: Lease, before: seq<LeaseEvent>, after: seq<LeaseEvent>)
    requires LeaseTold(l, before) && before <= after
    ensures LeaseTold(l, after)
  {
    KeptLease(l, before, after);
    hide AcquiredAs, CalledInTime, ExpiredInTime;
  }

  lemma AcquireTold(flow: Flow, f: Fences, a: AcquireArgs)
    requires FencesTold(f)
    ensures FencesTold(AcquireSpec(flow, f, a).0)
  {
    var d := AcquireSpec(flow, f, a).0;
    if d != f {
      hide LeaseClash, FencesTold;
      var l := NewLease(f, a);
      assert d.events[|f.events| + 1] == Event(l, LeaseEventKind.Acquired, a.issuedAt, Available, l.state, None);
      RowTold(f, d, a.scope);
    }
  }

  lemma ReleaseTold(flow: Flow, f: Fences, c: Claim, forAuthorization: bool)
    requires FencesTold(f) && forall s :: s in f.leases ==> f.leases[s].scope == s
    ensures FencesTold(ReleaseSpec(flow, f, c, forAuthorization).0)
  {
    var found := ScopeOf(f.leases, c.lease);
    if found.Some? {
      hide HolderFailure, LeaseTold;
      RowTold(f, ReleaseSpec(flow, f, c, forAuthorization).0, found.value);
    }
  }

  lemma StartTold(flow: Flow, f: Fences, c: Claim, operation: Id)
    requires FencesTold(f)
    requires forall s :: s in f.leases ==> f.leases[s].scope == s && ModeHeld(f.leases[s])
    ensures FencesTold(StartCallSpec(flow, f, c, operation).0)
  {
    var found := ScopeOf(f.leases, c.lease);
    var d := StartCallSpec(flow, f, c, operation).0;
    if found.Some? && d != f {
      var s := found.value;
      var l := f.leases[s];
      assert f.events <= d.events;
      KeptLease(l, f.events, d.events);
      if StartCallSpec(flow, f, c, operation).1.Ok? {
        var next := d.leases[s];
        assert d.events[|f.events|] == Event(next, AtomicCallStarted, c.at, l.state, next.state, Some(operation));
        assert CalledInTime(next, d.events) && AcquiredAs(next, d.events);
      }
      hide CalledInTime, ExpiredInTime, AcquiredAs;
      RowTold(f, d, s);
    }
  }

  /** A held row is held in its mode. */
  ghost predicate ModeHeld(l: Lease) {
    Held(l.state) ==> l.state == StateOf(l.mode)
  }

  lemma FinishTold(flow: Flow, f: Fences, c: Claim, operation: Id)
    requires FencesTold(f) && forall s :: s in f.leases ==> f.leases[s].scope == s
    ensures FencesTold(FinishCallSpec(flow, f, c, operation).0)
  {
    var found := ScopeOf(f.leases, c.lease);
    var d := FinishCallSpec(flow, f, c, operation).0;
    if found.Some? && d != f {
      var s := found.value;
      assert f.events <= d.events;
      KeptLease(f.leases[s], f.events, d.events);
      assert AcquiredAs(d.leases[s], d.events);
      hide CalledInTime, ExpiredInTime, AcquiredAs;
      RowTold(f, d, s);
    }
  }

  lemma ExpireTold(f: Fences, s: Scope, at: Time)
    requires FencesTold(f) && forall t :: t in f.leases ==> f.leases[t].scope == t && ModeHeld(f.leases[t])
    ensures FencesTold(ExpireSpec(f, s, at).0)
  {
    var d := ExpireSpec(f, s, at).0;
    if d != f {
      var l := f.leases[s];
      KeptLease(l, f.events, d.events);
      if s in d.leases {
        var next := d.leases[s];
        assert d.events[|f.events|] == Event(next, ExpiredLease, at, l.state, next.state, l.operation);
        assert ExpiredInTime(next, d.events);
        assert CalledInTime(l, d.events) ==> CalledInTime(next, d.events);
      }
      hide CalledInTime, ExpiredInTime;
      RowTold(f, d, s);
    }
  }

  lemma StartedTold(f: Fences, a: C.AdmitArgs)
    requires FencesTold(f) && a.at < a.leaseExpiresAt
    ensures FencesTold(C.StartedFences(f, a))
  {
    var d, s := C.StartedFences(f, a), C.ScopeFor(a);
    var n, l := |f.events|, d.leases[s];
    assert d.events[n + 1] == C.LeaseEvents(a, a.intent.token)[1];
    assert d.events[n + 2] == C.LeaseEvents(a, a.intent.token)[2];
    assert AcquiredAs(l, d.events) && CalledInTime(l, d.events);
    hide CalledInTime, ExpiredInTime, AcquiredAs;
    RowTold(f, d, s);
  }

  // ---------------------------------------------------------------------
  // Workflows and commands
  // ---------------------------------------------------------------------

  ghost predicate CommandTold(flow: Flow, c: Command) {
    && c.workflow in flow.workflows && c.expected.scope == c.workflow
    && c.resulting == Version(c.workflow, c.expected.counter + 1)
    && c.resulting.counter <= flow.workflows[c.workflow].version.counter
    && flow.workflows[c.workflow].createdAt <= c.at
  }

  /** Every command raises the version by one, at or below the current one, and none comes before the workflow. */
  ghost predicate FlowTold(flow: Flow) {
    && (forall w :: w in flow.workflows ==> flow.workflows[w].createdAt <= flow.workflows[w].updatedAt)
    && (forall c :: c in flow.commands ==> CommandTold(flow, c))
  }

  lemma KeptCommand(before: Flow, after: Flow, c: Command)
    requires FlowGrows(before, after) && CommandTold(before, c)
    ensures CommandTold(after, c)
  {
    assert WorkflowGrows(before.workflows[c.workflow], after.workflows[c.workflow]);
  }

  lemma MovedFlowTold(before: Flow, after: Flow, c: Command)
    requires FlowTold(before) && FlowGrows(before, after) && after.commands == before.commands + [c]
    requires CommandTold(after, c)
    requires forall w :: w in after.workflows ==> after.workflows[w].createdAt <= after.workflows[w].updatedAt
    ensures FlowTold(after)
  {
    forall d | d in after.commands
      ensures CommandTold(after, d)
    {
      if d in before.commands {
        KeptCommand(before, after, d);
      }
    }
  }

  lemma TransitionTold(flow: Flow, a: W.TransitionArgs)
    requires FlowTold(flow)
    ensures FlowTold(W.TransitionSpec(flow, a).0)
  {
    hide FindCommand, CommandClash, FlowGrows;
    var d := W.TransitionSpec(flow, a).0;
    if d != flow {
      TransitionGrows(flow, a);
      assert forall w :: w in d.workflows && w != a.workflow ==>
                           w in flow.workflows && d.workflows[w] == flow.workflows[w];
      MovedFlowTold(flow, d, W.NewCommand(a));
    }
  }

  lemma RecordTold(flow: Flow, id: Id, row: Workflow)
    requires FlowTold(flow)
    ensures FlowTold(W.RecordSpec(flow, id, row).0)
  {
  }

  lemma AdmissionFlowTold(flow: Flow, a: C.AdmitArgs)
    requires FlowTold(flow) && FlowOk(flow) && C.Aligned(a) && a.intent.workflow in flow.workflows
    requires flow.workflows[a.intent.workflow].state.AwaitingAuthorization?
    requires flow.workflows[a.intent.workflow].version == a.authorization.expected
    requires flow.workflows[a.intent.workflow].createdAt <= a.at
    ensures FlowTold(C.MovedFlow(flow, a))
  {
    CommittedFlowGrows(flow, a);
    hide FlowGrows;
    MovedFlowTold(flow, C.MovedFlow(flow, a), C.AdmitCommand(a));
  }

  // ---------------------------------------------------------------------
  // Intents and classifications
  // ---------------------------------------------------------------------

  /** An intent was written for a version of its workflow; while that is the
      current one, the workflow is executing or rolling back the intent's operation. */
  ghost predicate IntentTold(workflows: map<Id, Workflow>, i: Intent) {
    && i.workflow in workflows && i.version.scope == i.workflow
    && i.version.counter <= workflows[i.workflow].version.counter
    && (workflows[i.workflow].version == i.version ==>
          && (workflows[i.workflow].state == Executing || workflows[i.workflow].state == RollingBack)
          && workflows[i.workflow].latestOperation == Some(i.operation))
  }

  ghost predicate IntentsTold(workflows: map<Id, Workflow>, intents: map<Id, Intent>) {
    forall i :: i in intents ==> IntentTold(workflows, intents[i])
  }

  lemma KeptIntents(before: Flow, after: Flow, intents: map<Id, Intent>)
    requires FlowGrows(before, after) && IntentsTold(before.workflows, intents)
    ensures IntentsTold(after.workflows, intents)
  {
    forall i | i in intents
      ensures IntentTold(after.workflows, intents[i])
    {
      assert IntentTold(before.workflows, intents[i]);
      assert WorkflowGrows(before.workflows[intents[i].workflow], after.workflows[intents[i].workflow]);
    }
  }

  /** A read of the live model, or on recovery, that observed a value. */
  predicate Fresh(o: Observation) {
    (o.source == LiveRead || o.source == Recovery) && o.outcome == ValueObserved
  }

  predicate SameBindings(o: Observation, i: Intent) {
    o.config == Some(i.config) && o.fingerprint == Some(i.fingerprint) && o.workspace == Some(i.workspace)
  }

  /** Some listed observation is a fresh read, and each of those has the intent's bindings and this value. */
  ghost predicate AllSaw(ids: seq<Id>, stored: map<Id, Observation>, i: Intent, value: Quantity)
    requires forall id :: id in ids ==> id in stored
  {
    && (exists id :: id in ids && Fresh(stored[id]))
    && (forall id :: id in ids && Fresh(stored[id]) ==>
                       SameBindings(stored[id], i) && stored[id].value == Some(value))
  }

  /** What the listed observations show. */
  ghost predicate Shows(ids: seq<Id>, stored: map<Id, Observation>, i: Intent, claim: Classification)
    requires forall id :: id in ids ==> id in stored
  {
    match claim
    case Before => AllSaw(ids, stored, i, i.before)
    case AfterObserved => AllSaw(ids, stored, i, i.after)
    case Diverged =>
      exists id :: && id in ids && Fresh(stored[id])
                   && (!SameBindings(stored[id], i)
                       || (stored[id].value != Some(i.before) && stored[id].value != Some(i.after)))
    case Unavailable => exists id :: id in ids && stored[id].outcome != ValueObserved
  }

  /** The classification is about its intent's workflow, not before its version,
      lists observations of that intent, and they show what it claims. */
  ghost predicate Classified(ev: Evidence, r: Record) {
    && r.intent in ev.intents && r.workflow == ev.intents[r.intent].workflow
    && ev.intents[r.intent].version.counter <= r.version.counter
    && (forall id :: id in r.observations ==> id in ev.observations && ev.observations[id].intent == r.intent)
    && Shows(r.observations, ev.observations, ev.intents[r.intent], r.classification)
  }

  lemma ListedIff(stored: map<Id, Observation>, intent: Id, ids: seq<Id>)
    ensures R.Listed(stored, intent, ids) <==> forall id :: id in ids ==> id in stored && stored[id].intent == intent
  {
    if forall id :: id in ids ==> id in stored && stored[id].intent == intent {
      forall k | 0 <= k < |ids|
        ensures ids[k] in stored && stored[ids[k]].intent == intent
      {
        assert ids[k] in ids;
      }
    }
  }

  lemma GatherHolds(ids: seq<Id>, stored: map<Id, Observation>)
    requires forall id :: id in ids ==> id in stored
    ensures forall o :: o in R.Gather(stored, ids) <==> exists id :: id in ids && stored[id] == o
  {
    var os := R.Gather(stored, ids);
    forall o | o in os
      ensures exists id :: id in ids && stored[id] == o
    {
      var k :| 0 <= k < |os| && os[k] == o;
      assert ids[k] in ids && stored[ids[k]] == o;
    }
    forall id | id in ids
      ensures stored[id] in os
    {
      var k :| 0 <= k < |ids| && ids[k] == id;
      assert os[k] == stored[id];
    }
  }

  lemma ShowsIff(ids: seq<Id>, stored: map<Id, Observation>, i: Intent, claim: Classification)
    requires forall id :: id in ids ==> id in stored
    ensures R.Supports(i, R.Gather(stored, ids), claim) <==> Shows(ids, stored, i, claim)
  {
    GatherHolds(ids, stored);
    var os := R.Gather(stored, ids);
    assert forall id :: id in ids ==> stored[id] in os;
    hide R.Gather, R.Bound, SameBindings;
    assert forall o, j: Intent :: R.Bound(j, o) == SameBindings(o, j) by {
      BoundIs();
    }
    match claim {
      case Before =>
      case AfterObserved =>
      case Diverged =>
      case Unavailable =>
    }
  }

  lemma BoundIs()
    ensures forall o, i: Intent :: R.Bound(i, o) == SameBindings(o, i)
  {
  }

  /** The store accepts exactly the classifications that its observations show. */
  lemma ClassifiedIff(ev: Evidence, r: Record)
    ensures Classified(ev, r) <==> R.Unsupported(ev.intents, ev.observations, r).None?
  {
    ListedIff(ev.observations, r.intent, r.observations);
    if r.intent in ev.intents && R.Listed(ev.observations, r.intent, r.observations) {
      ShowsIff(r.observations, ev.observations, ev.intents[r.intent], r.classification);
    }
    hide R.Supports, Shows, R.Gather;
  }

  // ---------------------------------------------------------------------
  // Envelopes
  // ---------------------------------------------------------------------

  /** The write an envelope began was authorized, for just this intent, and in time. */
  ghost predicate Authorized(e: Envelope, g: Grants, intents: map<Id, Intent>) {
    && e.execution in g.authorizations && e.execution in g.admissions && e.intent in intents
    && var b := g.authorizations[e.execution].body;
       var i := intents[e.intent];
       && e.at < b.expiresAt
       && g.admissions[e.execution] == Admission(b.workflow, Admitted, AtomicExecutionAdmission, e.at)
       && i.workflow == b.workflow && i.execution == b.execution && i.digest == b.proposal && i.config == b.config
       && i.fingerprint == b.fingerprint && i.workspace == b.workspace && i.policies == b.policies
       && i.version == Version(b.workflow, b.expected.counter + 1)
  }

  ghost predicate AllAuthorized(envelopes: seq<Envelope>, g: Grants, intents: map<Id, Intent>) {
    && (forall e :: e in envelopes ==> Authorized(e, g, intents))
    && (forall x :: x in g.admissions && g.admissions[x].reason.AtomicExecutionAdmission? ==>
                      exists e :: e in envelopes && e.execution == x)
  }

  lemma KeptAuthorized(e: Envelope, before: Grants, after: Grants, intents: map<Id, Intent>, later: map<Id, Intent>)
    requires Authorized(e, before, intents) && GrantsGrow(before, after) && Keeps(intents, later)
    ensures Authorized(e, after, later)
  {
    assert AuthorizationGrows(before.authorizations[e.execution], after.authorizations[e.execution]);
  }

  /** Calls other than the coordinator's leave envelopes and admit nothing atomically. */
  lemma OthersAuthorized(before: Db, after: Db)
    requires AllAuthorized(before.envelopes, before.grants, before.evidence.intents) && Grows(before, after)
    requires after.envelopes == before.envelopes
    requires forall x :: x in after.grants.admissions && x !in before.grants.admissions ==>
                           !after.grants.admissions[x].reason.AtomicExecutionAdmission?
    ensures AllAuthorized(after.envelopes, after.grants, after.evidence.intents)
  {
    forall e | e in after.envelopes
      ensures Authorized(e, after.grants, after.evidence.intents)
    {
      KeptAuthorized(e, before.grants, after.grants, before.evidence.intents, after.evidence.intents);
    }
    hide FlowGrows, FencesGrow, Authorized;
  }

  lemma AdmissionAuthorized(db: Db, a: C.AdmitArgs)
    requires AllAuthorized(db.envelopes, db.grants, db.evidence.intents)
    requires C.Aligned(a) && C.Usable(db, a) && a.intent.workflow in db.flow.workflows
    requires a.intent.id !in db.evidence.intents && Grows(db, C.Committed(db, a))
    ensures var d := C.Committed(db, a); AllAuthorized(d.envelopes, d.grants, d.evidence.intents)
  {
    var d, x := C.Committed(db, a), a.authorization.execution;
    var n := C.NewEnvelope(a);
    assert d.envelopes == db.envelopes + [n] && Authorized(n, d.grants, d.evidence.intents);
    forall e | e in db.envelopes
      ensures Authorized(e, d.grants, d.evidence.intents)
    {
      KeptAuthorized(e, db.grants, d.grants, db.evidence.intents, d.evidence.intents);
    }
    forall y | y in d.grants.admissions && d.grants.admissions[y].reason.AtomicExecutionAdmission?
      ensures exists e :: e in d.envelopes && e.execution == y
    {
      if y == x {
        assert n in d.envelopes && n.execution == y;
      } else {
        var e :| e in db.envelopes && e.execution == y;
        assert e in d.envelopes;
      }
    }
  }

  lemma SpentGrow(g: Grants, a: C.AdmitArgs)
    requires a.authorization.execution in g.authorizations && a.authorization.execution !in g.admissions
    requires g.authorizations[a.authorization.execution] == AuthorizationRow(Issued, a.authorization)
    ensures GrantsGrow(g, C.SpentGrants(g, a))
  {
  }

  lemma SpentTold(g: Grants, a: C.AdmitArgs)
    requires GrantsTold(g) && a.authorization.execution in g.authorizations
    requires g.authorizations[a.authorization.execution] == AuthorizationRow(Issued, a.authorization)
    requires a.authorization.execution !in g.admissions && a.at < a.authorization.expiresAt
    ensures GrantsTold(C.SpentGrants(g, a))
  {
    var d, x := C.SpentGrants(g, a), a.authorization.execution;
    SpentGrow(g, a);
    KeptGrants(g, d);
    KeptDecisions(g, d);
    assert d.events[|g.events|] == AuthorizationEvent(x, Some(Issued), Consuming, a.at);
    assert Answered(d.admissions[x], d.authorizations[x], d.events);
    hide Granted, Answered, GrantsGrow, DecisionsTimed;
  }

  // ---------------------------------------------------------------------
  // Every call, every run
  // ---------------------------------------------------------------------

  ghost predicate Told(db: Db) {
    && GrantsTold(db.grants) && FencesTold(db.fences) && FlowTold(db.flow)
    && IntentsTold(db.flow.workflows, db.evidence.intents)
    && AllAuthorized(db.envelopes, db.grants, db.evidence.intents)
  }

  lemma GrantCallFrame(db: Db, c: Call)
    requires IsGrantCall(c)
    ensures var d := Exec(db, c).0; d == db.(grants := d.grants)
    ensures !c.AdmitAuthorization? ==> Exec(db, c).0.grants.admissions == db.grants.admissions
  {
    hide A.DecisionClash, A.Matches, A.AdmitSpec;
  }

  lemma SettleTold(db: Db, c: Call)
    requires GrantsTold(db.grants) && (c.InvalidateAuthorization? || c.MarkConsumed?)
    ensures GrantsTold(Exec(db, c).0.grants)
  {
    hide GrantsTold, A.SetState;
    if c.id in db.grants.authorizations {
      if c.InvalidateAuthorization? && db.grants.authorizations[c.id].state.Issued? {
        MovedTold(db.grants, c.id, Invalidated, c.at);
      } else if c.MarkConsumed? && db.grants.authorizations[c.id].state.Consuming? {
        MovedTold(db.grants, c.id, Consumed, c.at);
      }
    }
  }

  lemma GrantCallTold(db: Db, c: Call)
    requires Valid(db) && GrantsTold(db.grants) && IsGrantCall(c)
    ensures GrantsTold(Exec(db, c).0.grants)
  {
    var g := db.grants;
    assert GrantsOk(g.authorizations, g.events, g.admissions);
    hide Valid, GrantsOk, GrantsTold, A.ApproveSpec, A.DecideSpec, A.AdmitSpec, A.CreateRequestSpec, A.InvalidateSpec,
         A.ConsumeSpec;
    if c.Approve? {
      ApproveTold(db.flow, g, c.approval);
    } else if c.RejectRequest? {
      DecideTold(g, c.id, RejectedRequest, c.at, c.decision);
    } else if c.CancelRequest? {
      DecideTold(g, c.id, CancelledRequest, c.at, c.decision);
    } else if c.ExpireRequest? {
      DecideTold(g, c.id, ExpiredRequest, c.at, c.decision);
    } else if c.AdmitAuthorization? {
      PresentTold(db.flow, g, c.candidate, c.authority, c.at);
    } else if c.CreateRequest? {
      RequestTold(db.flow, g, c.id, c.request);
    } else {
      SettleTold(db, c);
    }
  }

  lemma GrantCallIsNotAtomic(db: Db, c: Call)
    requires IsGrantCall(c)
    ensures var d := Exec(db, c).0;
      forall x :: x in d.grants.admissions && x !in db.grants.admissions ==>
                    !d.grants.admissions[x].reason.AtomicExecutionAdmission?
  {
    GrantCallFrame(db, c);
    if c.AdmitAuthorization? {
      PresentIsNotAtomic(db.flow, db.grants, c.candidate, c.authority, c.at);
      hide A.AdmitSpec;
    }
    hide IsGrantCall, A.ApproveSpec, A.DecideSpec, A.CreateRequestSpec, A.InvalidateSpec, A.ConsumeSpec;
  }

  lemma PresentIsNotAtomic(flow: Flow, g: Grants, candidate: Authorization, authority: Id, at: Time)
    ensures var d := A.AdmitSpec(flow, g, candidate, authority, at).0;
      forall x :: x in d.admissions && x !in g.admissions ==> !d.admissions[x].reason.AtomicExecutionAdmission?
  {
    hide A.Matches;
  }

  lemma RequestTold(flow: Flow, g: Grants, id: Id, q: Request)
    requires GrantsTold(g)
    ensures GrantsTold(A.CreateRequestSpec(flow, g, id, q).0)
  {
    hide A.Matches;
    var d := A.CreateRequestSpec(flow, g, id, q).0;
    if d != g {
      assert d == g.(requests := g.requests[id := q]) && id !in g.requests;
      assert GrantsGrow(g, d);
      KeptGrants(g, d);
      KeptDecisions(g, d);
      hide Granted, Answered, GrantsGrow, DecisionsTimed, A.CreateRequestSpec;
    }
  }

  lemma LeaseCallTold(db: Db, c: Call)
    requires Valid(db) && FencesTold(db.fences) && IsLeaseCall(c)
    ensures FencesTold(Exec(db, c).0.fences) && Exec(db, c).0 == db.(fences := Exec(db, c).0.fences)
  {
    forall s | s in db.fences.leases
      ensures db.fences.leases[s].scope == s && ModeHeld(db.fences.leases[s])
    {
      assert LeaseRowOk(db.flow.workflows, db.fences.counters, s, db.fences.leases[s]);
    }
    hide Valid, FencesTold, LeaseClash, ReleaseSpec, StartCallSpec, FinishCallSpec, AcquireSpec, ExpireSpec;
    match c {
      case Acquire(a) => AcquireTold(db.flow, db.fences, a);
      case Release(claim) => ReleaseTold(db.flow, db.fences, claim, false);
      case ReleaseForAuthorization(claim) => ReleaseTold(db.flow, db.fences, claim, true);
      case StartAtomicCall(claim, operation) => StartTold(db.flow, db.fences, claim, operation);
      case FinishAtomicCall(claim, operation) => FinishTold(db.flow, db.fences, claim, operation);
      case ExpireLease(s, at) => ExpireTold(db.fences, s, at);
      case _ =>
    }
  }

  lemma EvidenceCallTold(db: Db, c: Call)
    requires Valid(db) && IntentsTold(db.flow.workflows, db.evidence.intents) && IsEvidenceCall(c)
    ensures IntentsTold(db.flow.workflows, Exec(db, c).0.evidence.intents)
    ensures Exec(db, c).0 == db.(evidence := Exec(db, c).0.evidence)
  {
    assert FlowOk(db.flow);
    hide Valid, R.Unsupported, R.FindRecord;
  }

  lemma AdmissionFacts(db: Db, a: C.AdmitArgs)
    requires Valid(db) && Exec(db, AdmitAndBeginWrite(a)).0 != db
    ensures C.Aligned(a) && C.Refusal(db, a).None? && C.Usable(db, a) && C.Awaiting(db, a) && a.at < a.leaseExpiresAt
    ensures a.intent.workflow in db.flow.workflows && Exec(db, AdmitAndBeginWrite(a)).0 == C.Committed(db, a)
    ensures db.flow.workflows[a.intent.workflow].createdAt <= a.at && a.intent.id !in db.evidence.intents
    ensures FlowOk(db.flow)
  {
    hide FlowOk, C.Aligned, C.Usable, C.Committed, CommandClash, LeaseClash, EnvelopeClash;
  }

  lemma NewIntentTold(flow: Flow, a: C.AdmitArgs)
    requires FlowOk(flow) && C.Aligned(a) && a.intent.workflow in flow.workflows
    ensures IntentTold(C.MovedFlow(flow, a).workflows, a.intent)
  {
  }

  lemma AdmissionTold(db: Db, a: C.AdmitArgs)
    requires Valid(db) && Told(db) && Exec(db, AdmitAndBeginWrite(a)).0 != db
    ensures Told(Exec(db, AdmitAndBeginWrite(a)).0)
  {
    hide Valid, FlowOk, Grows, GrantsTold, FencesTold, FlowTold, AllAuthorized, IntentTold, Exec, C.Aligned, C.Refusal,
         C.SpentGrants, C.StartedFences, C.MovedFlow, FlowGrows;
    AdmissionFacts(db, a);
    var d := C.Committed(db, a);
    CommittedGrows(db, a);
    SpentTold(db.grants, a);
    StartedTold(db.fences, a);
    AdmissionFlowTold(db.flow, a);
    assert FlowGrows(db.flow, d.flow) by {
      CommittedGrows(db, a);
      GrowsFlow(db, d);
    }
    KeptIntents(db.flow, d.flow, db.evidence.intents);
    AdmissionAuthorized(db, a);
    NewIntentTold(db.flow, a);
  }

  lemma GrowsFlow(before: Db, after: Db)
    requires Grows(before, after)
    ensures FlowGrows(before.flow, after.flow)
  {
  }

  lemma FlowCallTold(db: Db, c: Call)
    requires Valid(db) && Told(db) && (c.Transition? || c.RecordWorkflow?)
    ensures var d := Exec(db, c).0;
      d == db.(flow := d.flow) && FlowTold(d.flow) && IntentsTold(d.flow.workflows, d.evidence.intents)
  {
    hide Valid, FlowTold, GrantsTold, FencesTold, AllAuthorized, IntentsTold, W.TransitionSpec, W.RecordSpec, FlowGrows;
    if c.Transition? {
      TransitionTold(db.flow, c.move);
      TransitionGrows(db.flow, c.move);
    } else {
      RecordTold(db.flow, c.id, c.row);
      RecordGrows(db.flow, c.id, c.row);
    }
    KeptIntents(db.flow, Exec(db, c).0.flow, db.evidence.intents);
  }

  lemma ExecTold(db: Db, c: Call)
    requires Valid(db) && Told(db)
    ensures Told(Exec(db, c).0)
  {
    var d := Exec(db, c).0;
    hide Valid, Grows, GrantsTold, FencesTold, FlowTold, AllAuthorized, IntentsTold, Exec;
    ExecGrows(db, c);
    if c.AdmitAndBeginWrite? {
      if d != db {
        AdmissionTold(db, c.admission);
      }
    } else {
      if IsGrantCall(c) {
        GrantCallTold(db, c);
        GrantCallFrame(db, c);
        GrantCallIsNotAtomic(db, c);
      } else if IsLeaseCall(c) {
        LeaseCallTold(db, c);
      } else if IsEvidenceCall(c) {
        EvidenceCallTold(db, c);
      } else {
        FlowCallTold(db, c);
      }
      OthersAuthorized(db, d);
    }
  }

  lemma {:induction false} RunTold(db: Db, cs: seq<Call>)
    requires Valid(db) && Told(db)
    ensures Told(Run(db, cs))
    decreases |cs|
  {
    hide Valid, Told, Exec;
    if cs != [] {
      ExecValid(db, cs[0]);
      ExecTold(db, cs[0]);
      RunTold(Exec(db, cs[0]).0, cs[1..]);
    }
  }

  /** In every reachable state every row tells what it took to store it: each
      decision, authorization and admission its request's terms and times; each
      lease row its mode, its time and its call; each command its version; each
      intent its workflow's state; and each envelope an authorization in time,
      with the very terms of the stored intent. */
  lemma RowsTellTheirCalls(db: Db)
    requires Reachable(db)
    ensures Told(db)
  {
    var cs :| db == Run(EMPTY_DB, cs);
    EmptyIsValid();
    assert Told(EMPTY_DB);
    RunTold(EMPTY_DB, cs);
    hide Told, Valid, Run;
  }

  /** In every reachable state a stored classification is what its own listed observations show. */
  lemma ClassificationsAreShown(db: Db, r: Record)
    requires Reachable(db) && r in db.evidence.records
    ensures Classified(db.evidence, r)
  {
    ReachableIsValid(db);
    assert EvidenceOk(db.evidence);
    ClassifiedIff(db.evidence, r);
    hide Valid, Classified, R.Unsupported, Reachable;
  }
}
