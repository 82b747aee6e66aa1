/** The joint invariant of all tables, and what no call ever takes back. */
module ProtocolInvariant {
  import opened Common
  import opened Tables
  import opened Leases
  import opened Protocol
  import W = Workflows
  import A = Approvals
  import R = Reconciliation
  import C = Coordinator

  // ---------------------------------------------------------------------
  // The invariant
  // ---------------------------------------------------------------------

  ghost predicate FlowOk(flow: Flow) {
    && (forall id :: id in flow.workflows ==> flow.workflows[id].version.scope == id)
    && (forall c :: c in flow.commands ==> c.workflow in flow.workflows)
    && CommandsUnique(flow.commands)
  }

  ghost predicate CommandsUnique(commands: seq<Command>) {
    forall i, j :: 0 <= i < j < |commands| ==>
                     commands[i].id != commands[j].id
                     && (commands[i].workflow, commands[i].key) != (commands[j].workflow, commands[j].key)
  }

  ghost predicate LeaseRowOk(workflows: map<Id, Workflow>, counters: map<Scope, nat>, s: Scope, l: Lease) {
    && l.scope == s && l.workflow in workflows && l.version.scope == l.workflow
    && l.version.counter <= workflows[l.workflow].version.counter
    && l.token == LastToken(counters, s)
    && (if Held(l.state) then l.state == HeldState(l.mode) else l.state.InFlightExpired? && l.operation.Some?)
  }

  ghost predicate LeaseRowsOk(workflows: map<Id, Workflow>, counters: map<Scope, nat>, leases: map<Scope, Lease>) {
    && (forall s :: s in leases ==> LeaseRowOk(workflows, counters, s, leases[s]))
    && UniqueLeaseIds(leases)
  }

  function RowView(leases: map<Scope, Lease>, s: Scope): Option<View> {
    if s in leases then Some(ViewOf(leases[s])) else None
  }

  ghost predicate Gapless(tokens: seq<nat>, n: nat) {
    |tokens| == n && forall i :: 0 <= i < n ==> tokens[i] == i + 1
  }

  ghost predicate ScopeLogOk(fences: Fences, s: Scope) {
    && Fold(fences.events, s) == RowView(fences.leases, s)
    && Gapless(Tokens(fences.events, s), LastToken(fences.counters, s))
  }

  ghost predicate LeaseLogOk(fences: Fences) {
    forall s :: ScopeLogOk(fences, s)
  }

  predicate Spent(s: AuthorizationState) {
    s.Consuming? || s.Consumed?
  }

  /** One authorization row against its event log and its admission. */
  ghost predicate GrantOk(row: AuthorizationRow, events: seq<AuthorizationEvent>, admissions: map<Id, Admission>,
                          x: Id)
  {
    && row.body.execution == x
    && !row.state.Rejected? && !row.state.Cancelled?
    && StateFrom(events, x) == Some(row.state)
    && Consumptions(events, x) == (if Spent(row.state) then 1 else 0)
    && (x in admissions ==>
          row.state != Issued && (admissions[x].status.Admitted? <==> Spent(row.state))
          && !admissions[x].reason.UnsafeAuthorizationState?)
    && (Spent(row.state) ==> x in admissions)
  }

  ghost predicate GrantsOk(authorizations: map<Id, AuthorizationRow>, events: seq<AuthorizationEvent>,
                           admissions: map<Id, Admission>)
  {
    && (forall x :: x in authorizations ==> GrantOk(authorizations[x], events, admissions, x))
    && (forall x :: x in admissions ==> x in authorizations)
    && (forall e :: e in events ==> e.execution in authorizations)
  }

  /** An authorization comes from an approved request over a stored workflow. */
  ghost predicate OriginOk(workflows: map<Id, Workflow>, requests: map<Id, Request>, decisions: map<Id, Decision>,
                           b: Authorization)
  {
    && b.workflow in workflows && b.request in requests && requests[b.request].workflow == b.workflow
    && b.request in decisions && decisions[b.request].kind.Approved?
  }

  ghost predicate OriginsOk(workflows: map<Id, Workflow>, requests: map<Id, Request>, decisions: map<Id, Decision>,
                            authorizations: map<Id, AuthorizationRow>) {
    && (forall r :: r in requests ==> requests[r].workflow in workflows)
    && (forall r :: r in decisions ==> r in requests)
    && (forall x :: x in authorizations ==> OriginOk(workflows, requests, decisions, authorizations[x].body))
    && (forall x, y ::
          (x in authorizations && y in authorizations
           && authorizations[x].body.request == authorizations[y].body.request) ==> x == y)
  }

  ghost predicate ObservationOk(intents: map<Id, Intent>, id: Id, o: Observation) {
    o.id == id && o.intent in intents && o.operation == intents[o.intent].operation
  }

  ghost predicate EvidenceOk(ev: Evidence) {
    && (forall i :: i in ev.intents ==> ev.intents[i].id == i)
    && (forall o :: o in ev.observations ==> ObservationOk(ev.intents, o, ev.observations[o]))
    && (forall r :: r in ev.records ==> R.Unsupported(ev.intents, ev.observations, r).None?)
    && (forall i, j :: 0 <= i < j < |ev.records| ==> ev.records[i].id != ev.records[j].id)
  }

  /** The command an envelope was committed with. */
  function CommandOf(e: Envelope): Command {
    Command(e.command, e.workflow, AdmitExecutionAndCommitIntent, e.key, e.digest,
            Version(e.workflow, if e.version.counter > 0 then e.version.counter - 1 else 0), e.version,
            Some(e.operation), e.at)
  }

  function AcquiredFor(e: Envelope, s: Scope): LeaseEvent {
    LeaseEvent(e.lease, s, e.workflow, e.version, e.token, LeaseEventKind.Acquired, e.at, Available, HeldExecution,
               None)
  }

  function StartedFor(e: Envelope, s: Scope): LeaseEvent {
    LeaseEvent(e.lease, s, e.workflow, e.version, e.token, LeaseEventKind.AtomicCallStarted, e.at, HeldExecution,
               HeldExecution, Some(e.operation))
  }

  ghost predicate FlowBacks(flow: Flow, e: Envelope) {
    && e.workflow in flow.workflows && Rank(flow.workflows[e.workflow].state) >= Rank(Executing)
    && e.version.scope == e.workflow && e.version.counter > 0
    && CommandOf(e) in flow.commands
  }

  ghost predicate GrantsBack(grants: Grants, e: Envelope) {
    && e.execution in grants.admissions && grants.admissions[e.execution].status.Admitted?
    && grants.admissions[e.execution].workflow == e.workflow
    && AuthorizationEvent(e.execution, Some(Issued), Consuming, e.at) in grants.events
  }

  ghost predicate LeasedFor(events: seq<LeaseEvent>, e: Envelope, s: Scope) {
    AcquiredFor(e, s) in events && StartedFor(e, s) in events
  }

  /** The lease was acquired and its call started in one scope of this configuration. */
  ghost predicate FencesBack(events: seq<LeaseEvent>, e: Envelope, config: Digest) {
    exists s: Scope :: s.config == config && LeasedFor(events, e, s)
  }

  ghost predicate IntentBacks(intents: map<Id, Intent>, e: Envelope) {
    && e.intent in intents
    && var i := intents[e.intent];
       && i.operation == e.operation && i.workflow == e.workflow && i.version == e.version && i.execution == e.execution
       && i.lease == e.lease && i.token == e.token && i.digest == e.digest
  }

  /** All the durable facts an envelope stands for. */
  ghost predicate Backed(db: Db, e: Envelope) {
    && FlowBacks(db.flow, e) && GrantsBack(db.grants, e) && IntentBacks(db.evidence.intents, e)
    && FencesBack(db.fences.events, e, db.evidence.intents[e.intent].config)
  }

  /** Every command of the coordinator has its envelope. */
  ghost predicate Enveloped(commands: seq<Command>, envelopes: seq<Envelope>) {
    forall c :: c in commands && c.name.AdmitExecutionAndCommitIntent? ==>
                  exists e :: e in envelopes && CommandOf(e) == c
  }

  ghost predicate OnePerWorkflow(envelopes: seq<Envelope>) {
    forall i, j :: 0 <= i < j < |envelopes| ==> envelopes[i].workflow != envelopes[j].workflow
  }

  ghost predicate EnvelopesOk(db: Db) {
    && (forall e :: e in db.envelopes ==> Backed(db, e))
    && OnePerWorkflow(db.envelopes)
    && Enveloped(db.flow.commands, db.envelopes)
  }

  ghost predicate Valid(db: Db) {
    && FlowOk(db.flow)
    && LeaseRowsOk(db.flow.workflows, db.fences.counters, db.fences.leases)
    && LeaseLogOk(db.fences)
    && GrantsOk(db.grants.authorizations, db.grants.events, db.grants.admissions)
    && OriginsOk(db.flow.workflows, db.grants.requests, db.grants.decisions, db.grants.authorizations)
    && EvidenceOk(db.evidence)
    && EnvelopesOk(db)
  }

  lemma EmptyIsValid()
    ensures Valid(EMPTY_DB)
  {
    forall s ensures ScopeLogOk(EMPTY_DB.fences, s) {
    }
  }

  // ---------------------------------------------------------------------
  // Growth: what no call ever takes back
  // ---------------------------------------------------------------------

  ghost predicate WorkflowGrows(before: Workflow, after: Workflow) {
    && after.version.scope == before.version.scope && before.version.counter <= after.version.counter
    && Rank(before.state) + (after.version.counter - before.version.counter) <= Rank(after.state)
    && after.config == before.config && after.proposal == before.proposal && after.createdAt == before.createdAt
    && (after.version == before.version ==> after == before)
  }

  ghost predicate Keeps<V>(before: map<Id, V>, after: map<Id, V>) {
    forall k :: k in before ==> k in after && after[k] == before[k]
  }

  ghost predicate FlowGrows(before: Flow, after: Flow) {
    && (forall w :: w in before.workflows ==>
                      w in after.workflows && WorkflowGrows(before.workflows[w], after.workflows[w]))
    && before.commands <= after.commands
  }

  /** An authorization keeps its terms, never returns to ISSUED, and is final once expired or invalidated. */
  ghost predicate AuthorizationGrows(before: AuthorizationRow, after: AuthorizationRow) {
    && after.body == before.body
    && (before.state.Issued? || after.state == before.state || (before.state.Consuming? && after.state.Consumed?))
  }

  ghost predicate GrantsGrow(before: Grants, after: Grants) {
    && Keeps(before.requests, after.requests) && Keeps(before.decisions, after.decisions)
    && (forall x :: x in before.authorizations ==>
          x in after.authorizations && AuthorizationGrows(before.authorizations[x], after.authorizations[x]))
    && before.events <= after.events
    && Keeps(before.admissions, after.admissions)
  }

  /** A counter never falls, and a scope with a call in flight past its expiry stays as it is. */
  ghost predicate FencesGrow(before: Fences, after: Fences) {
    && (forall s :: LastToken(before.counters, s) <= LastToken(after.counters, s))
    && before.events <= after.events
    && (forall s :: s in before.leases && before.leases[s].state.InFlightExpired? ==>
          s in after.leases && after.leases[s] == before.leases[s]
          && LastToken(after.counters, s) == LastToken(before.counters, s))
  }

  ghost predicate EvidenceGrows(before: Evidence, after: Evidence) {
    && Keeps(before.intents, after.intents) && Keeps(before.observations, after.observations)
    && before.records <= after.records
  }

  ghost predicate Grows(before: Db, after: Db) {
    && FlowGrows(before.flow, after.flow) && GrantsGrow(before.grants, after.grants)
    && FencesGrow(before.fences, after.fences) && EvidenceGrows(before.evidence, after.evidence)
    && before.envelopes <= after.envelopes
  }

  lemma GrowsIsReflexive(db: Db)
    ensures FlowGrows(db.flow, db.flow) && GrantsGrow(db.grants, db.grants) && FencesGrow(db.fences, db.fences)
    ensures EvidenceGrows(db.evidence, db.evidence) && Grows(db, db)
  {
  }

  lemma FlowGrowsTransitive(a: Flow, b: Flow, c: Flow)
    requires FlowGrows(a, b) && FlowGrows(b, c)
    ensures FlowGrows(a, c)
  {
    forall w | w in a.workflows
      ensures w in c.workflows && WorkflowGrows(a.workflows[w], c.workflows[w])
    {
      assert WorkflowGrows(a.workflows[w], b.workflows[w]) && WorkflowGrows(b.workflows[w], c.workflows[w]);
    }
  }

  lemma GrowsIsTransitive(a: Db, b: Db, c: Db)
    requires Grows(a, b) && Grows(b, c)
    ensures Grows(a, c)
  {
    FlowGrowsTransitive(a.flow, b.flow, c.flow);
    forall s | s in a.fences.leases && a.fences.leases[s].state.InFlightExpired?
      ensures s in c.fences.leases && c.fences.leases[s] == a.fences.leases[s]
      ensures LastToken(c.fences.counters, s) == LastToken(a.fences.counters, s)
    {
      assert s in b.fences.leases && b.fences.leases[s] == a.fences.leases[s];
    }
    hide FlowGrows;
  }

  lemma TransitionRaisesRank(name: CommandName)
    requires W.LegalTransition(name).Some?
    ensures var (from, target) := W.LegalTransition(name).value; Rank(from) < Rank(target) <= 13
  {
  }

  lemma TransitionGrows(flow: Flow, a: W.TransitionArgs)
    ensures FlowGrows(flow, W.TransitionSpec(flow, a).0)
  {
    hide FindCommand, CommandClash;
    var d := W.TransitionSpec(flow, a).0;
    if d != flow {
      TransitionRaisesRank(a.name);
      assert WorkflowGrows(flow.workflows[a.workflow], d.workflows[a.workflow]);
    }
  }

  lemma RecordGrows(flow: Flow, id: Id, row: Workflow)
    ensures FlowGrows(flow, W.RecordSpec(flow, id, row).0)
  {
  }

  predicate IsGrantCall(c: Call) {
    c.CreateRequest? || c.Approve? || c.RejectRequest? || c.CancelRequest? || c.ExpireRequest?
    || c.InvalidateAuthorization? || c.AdmitAuthorization? || c.MarkConsumed?
  }

  predicate IsLeaseCall(c: Call) {
    c.Acquire? || c.Release? || c.ReleaseForAuthorization? || c.StartAtomicCall? || c.FinishAtomicCall?
    || c.ExpireLease?
  }

  predicate IsEvidenceCall(c: Call) {
    c.CommitIntent? || c.AppendObservation? || c.RecordClassification?
  }

  lemma SetStateGrows(grants: Grants, x: Id, after: AuthorizationState, at: Time)
    requires x in grants.authorizations
    requires grants.authorizations[x].state.Issued? || (grants.authorizations[x].state.Consuming? && after.Consumed?)
    ensures GrantsGrow(grants, A.SetState(grants, x, after, at))
  {
  }

  lemma PresentGrows(flow: Flow, grants: Grants, candidate: Authorization, authority: Id, at: Time)
    requires GrantsOk(grants.authorizations, grants.events, grants.admissions)
    ensures GrantsGrow(grants, A.AdmitSpec(flow, grants, candidate, authority, at).0)
  {
    var d := A.AdmitSpec(flow, grants, candidate, authority, at).0;
    var x := candidate.execution;
    if d != grants {
      var row := grants.authorizations[x];
      assert GrantOk(row, grants.events, grants.admissions, x);
      assert row.state.Issued?
             || row.state == A.AdmissionOutcome(flow, grants, candidate, row, authority, at).value.target;
      hide GrantOk, A.Matches;
      assert d.requests == grants.requests && d.decisions == grants.decisions;
      assert Keeps(grants.admissions, d.admissions);
    }
  }

  lemma ApproveGrows(flow: Flow, grants: Grants, a: A.ApproveArgs)
    ensures GrantsGrow(grants, A.ApproveSpec(flow, grants, a).0)
  {
    hide A.DecisionClash, A.Matches;
    var d := A.ApproveSpec(flow, grants, a).0;
    assert d.requests == grants.requests && d.admissions == grants.admissions;
    assert Keeps(grants.decisions, d.decisions);
  }

  lemma RequestGrows(db: Db, c: Call)
    requires c.CreateRequest? || c.RejectRequest? || c.CancelRequest? || c.ExpireRequest?
    ensures GrantsGrow(db.grants, Exec(db, c).0.grants)
  {
    hide A.DecisionClash, A.Matches;
    var d := Exec(db, c).0.grants;
    assert d.authorizations == db.grants.authorizations && d.admissions == db.grants.admissions;
    assert if c.CreateRequest? then d.decisions == db.grants.decisions else d.requests == db.grants.requests;
  }

  lemma GrantCallGrows(db: Db, c: Call)
    requires IsGrantCall(c) && GrantsOk(db.grants.authorizations, db.grants.events, db.grants.admissions)
    ensures GrantsGrow(db.grants, Exec(db, c).0.grants)
  {
    GrowsIsReflexive(db);
    hide A.ApproveSpec, A.AdmitSpec, A.DecideSpec, A.CreateRequestSpec, A.SetState, GrantsOk, GrantsGrow;
    if c.Approve? {
      ApproveGrows(db.flow, db.grants, c.approval);
    } else if c.AdmitAuthorization? {
      PresentGrows(db.flow, db.grants, c.candidate, c.authority, c.at);
    } else if c.InvalidateAuthorization? {
      if Exec(db, c).0.grants != db.grants { SetStateGrows(db.grants, c.id, Invalidated, c.at); }
    } else if c.MarkConsumed? {
      if Exec(db, c).0.grants != db.grants { SetStateGrows(db.grants, c.id, Consumed, c.at); }
    } else {
      RequestGrows(db, c);
    }
  }

  lemma ReleaseGrows(flow: Flow, fences: Fences, c: Claim, forAuthorization: bool)
    requires forall s :: s in fences.leases ==> fences.leases[s].scope == s
    ensures FencesGrow(fences, ReleaseSpec(flow, fences, c, forAuthorization).0)
  {
    assert ReleaseSpec(flow, fences, c, forAuthorization).0.counters == fences.counters;
  }

  lemma StartGrows(flow: Flow, fences: Fences, c: Claim, operation: Id)
    requires forall s :: s in fences.leases ==> fences.leases[s].scope == s
    ensures FencesGrow(fences, StartCallSpec(flow, fences, c, operation).0)
  {
    assert StartCallSpec(flow, fences, c, operation).0.counters == fences.counters;
  }

  lemma FinishGrows(flow: Flow, fences: Fences, c: Claim, operation: Id)
    requires forall s :: s in fences.leases ==> fences.leases[s].scope == s
    ensures FencesGrow(fences, FinishCallSpec(flow, fences, c, operation).0)
  {
    assert FinishCallSpec(flow, fences, c, operation).0.counters == fences.counters;
  }

  lemma LeaseCallGrows(db: Db, c: Call)
    requires IsLeaseCall(c)
    requires forall s :: s in db.fences.leases ==> db.fences.leases[s].scope == s
    ensures FencesGrow(db.fences, Exec(db, c).0.fences)
  {
    hide LeaseClash, ReleaseSpec, StartCallSpec, FinishCallSpec;
    if c.Acquire? {
    } else if c.ExpireLease? {
      assert Exec(db, c).0.fences.counters == db.fences.counters;
    } else if c.StartAtomicCall? {
      StartGrows(db.flow, db.fences, c.claim, c.operation);
    } else if c.FinishAtomicCall? {
      FinishGrows(db.flow, db.fences, c.claim, c.operation);
    } else {
      ReleaseGrows(db.flow, db.fences, c.claim, c.ReleaseForAuthorization?);
    }
  }

  lemma EvidenceCallGrows(db: Db, c: Call)
    requires IsEvidenceCall(c)
    ensures EvidenceGrows(db.evidence, Exec(db, c).0.evidence)
  {
    hide R.Unsupported, R.FindRecord;
    var d := Exec(db, c).0.evidence;
    assert !c.CommitIntent? ==> d.intents == db.evidence.intents;
    assert !c.AppendObservation? ==> d.observations == db.evidence.observations;
  }

  lemma CommittedFlowGrows(flow: Flow, a: C.AdmitArgs)
    requires a.intent.workflow in flow.workflows && C.Aligned(a)
    requires flow.workflows[a.intent.workflow].version == a.authorization.expected
    requires flow.workflows[a.intent.workflow].version.scope == a.intent.workflow
    requires flow.workflows[a.intent.workflow].state == AwaitingAuthorization
    ensures FlowGrows(flow, C.MovedFlow(flow, a))
  {
    assert WorkflowGrows(flow.workflows[a.intent.workflow], C.MovedFlow(flow, a).workflows[a.intent.workflow]);
  }

  lemma CommittedGrows(db: Db, a: C.AdmitArgs)
    requires FlowOk(db.flow) && C.Aligned(a) && C.Refusal(db, a).None?
    ensures Grows(db, C.Committed(db, a))
  {
    hide CommandClash, LeaseClash, EnvelopeClash, WorkflowGrows;
    CommittedFlowGrows(db.flow, a);
    hide FlowGrows;
    var g := C.SpentGrants(db.grants, a);
    assert g.requests == db.grants.requests && g.decisions == db.grants.decisions;
    assert GrantsGrow(db.grants, g);
    assert FencesGrow(db.fences, C.StartedFences(db.fences, a));
    assert C.Committed(db, a).evidence.observations == db.evidence.observations;
  }

  /** No call takes back anything recorded, lowers a counter, frees an expired
      in-flight scope or moves a workflow or an authorization backwards. */
  lemma ExecGrows(db: Db, c: Call)
    requires Valid(db)
    ensures Grows(db, Exec(db, c).0)
  {
    hide W.TransitionSpec, EnvelopesOk, C.Committed;
    GrowsIsReflexive(db);
    if IsGrantCall(c) {
      assert GrantsOk(db.grants.authorizations, db.grants.events, db.grants.admissions);
      GrantCallGrows(db, c);
    } else if IsLeaseCall(c) {
      assert forall s :: s in db.fences.leases ==> db.fences.leases[s].scope == s;
      LeaseCallGrows(db, c);
    } else if IsEvidenceCall(c) {
      EvidenceCallGrows(db, c);
    } else if c.Transition? {
      TransitionGrows(db.flow, c.move);
    } else if c.RecordWorkflow? {
      RecordGrows(db.flow, c.id, c.row);
    } else {
      if Exec(db, c).0 != db {
        assert FlowOk(db.flow);
        CommittedGrows(db, c.admission);
      }
    }
  }
}
