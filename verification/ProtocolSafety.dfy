/** What holds over every run of public calls. */
module ProtocolSafety {
  import opened Common
  import opened Tables
  import opened Leases
  import opened Protocol
  import opened ProtocolInvariant
  import opened ProtocolPreservation
  import W = Workflows
  import A = Approvals
  import R = Reconciliation
  import C = Coordinator

  /** Any run keeps the invariant and takes nothing back. */
  lemma {:induction false} RunKeeps(db: Db, cs: seq<Call>)
    requires Valid(db)
    ensures Valid(Run(db, cs)) && Grows(db, Run(db, cs))
    decreases |cs|
  {
    if cs == [] {
      GrowsIsReflexive(db);
    } else {
      var d := Exec(db, cs[0]).0;
      hide Valid, Grows, Exec;
      ExecValid(db, cs[0]);
      ExecGrows(db, cs[0]);
      RunKeeps(d, cs[1..]);
      GrowsIsTransitive(db, d, Run(d, cs[1..]));
    }
  }

  ghost predicate Reachable(db: Db) {
    exists cs :: db == Run(EMPTY_DB, cs)
  }

  lemma ReachableIsValid(db: Db)
    requires Reachable(db)
    ensures Valid(db)
  {
    var cs :| db == Run(EMPTY_DB, cs);
    EmptyIsValid();
    RunKeeps(EMPTY_DB, cs);
  }

  // ---------------------------------------------------------------------
  // Failed calls
  // ---------------------------------------------------------------------

  /** The one thing a refused claim commits: a rejection event on the lease's row, with the caller's token. */
  ghost predicate OnlyRejected(before: Fences, after: Fences, c: Claim) {
    exists s, operation ::
      && s in before.leases && before.leases[s].id == c.lease && c.token > 0
      && after == before.(events := before.events + [StaleEvent(before.leases[s], c, operation)])
  }

  lemma RefusedHolderCall(flow: Flow, fences: Fences, c: Claim, operation: Id, forAuthorization: bool)
    ensures forall r | r in [ReleaseSpec(flow, fences, c, forAuthorization), StartCallSpec(flow, fences, c, operation),
                             FinishCallSpec(flow, fences, c, operation)] ::
              r.1.Err? ==> if r.1.error.FenceRejected? then OnlyRejected(fences, r.0, c) else r.0 == fences
  {
    var found := ScopeOf(fences.leases, c.lease);
    if found.Some? && c.token > 0 {
      var l := fences.leases[found.value];
      assert forall operation ::
          OnlyRejected(fences, fences.(events := fences.events + [StaleEvent(l, c, operation)]), c);
    }
    hide HolderFailure, OnlyRejected;
  }

  /** A call that raises leaves every table as it was, except that a fence
      rejection commits exactly its own event. */
  lemma FailedCallChangesNothing(db: Db, c: Call)
    ensures var (d, reply) := Exec(db, c);
      reply.Raised? ==>
        if reply.failure.FenceRejected? then
          d == db.(fences := d.fences)
          && (c.Release? || c.ReleaseForAuthorization? || c.StartAtomicCall? || c.FinishAtomicCall?)
          && OnlyRejected(db.fences, d.fences, c.claim)
        else d == db
  {
    hide OnlyRejected, CommandClash, LeaseClash, EnvelopeClash, A.DecisionClash, A.Matches, R.Supports, C.Committed,
         C.Aligned, C.Usable, C.Awaiting;
    if c.Release? || c.ReleaseForAuthorization? {
      RefusedHolderCall(db.flow, db.fences, c.claim, 0, c.ReleaseForAuthorization?);
      hide ReleaseSpec;
    } else if c.StartAtomicCall? || c.FinishAtomicCall? {
      RefusedHolderCall(db.flow, db.fences, c.claim, c.operation, false);
      hide StartCallSpec, FinishCallSpec;
    }
  }

  // ---------------------------------------------------------------------
  // Replays
  // ---------------------------------------------------------------------

  lemma {:induction false} FoundCommand(commands: seq<Command>, c: Command)
    requires CommandsUnique(commands) && c in commands
    ensures FindCommand(commands, c.workflow, c.key) == Some(c)
  {
    var i :| 0 <= i < |commands| && commands[i] == c;
    var found := FindCommand(commands, c.workflow, c.key);
    assert found.Some?;
    var j :| 0 <= j < |commands| && commands[j] == found.value;
  }

  lemma {:induction false} FoundEnvelope(envelopes: seq<Envelope>, e: Envelope)
    requires OnePerWorkflow(envelopes) && e in envelopes
    ensures FindEnvelope(envelopes, e.workflow, e.key) == Some(e)
  {
    var i :| 0 <= i < |envelopes| && envelopes[i] == e;
    var found := FindEnvelope(envelopes, e.workflow, e.key);
    assert found.Some?;
    var j :| 0 <= j < |envelopes| && envelopes[j] == found.value;
  }

  /** What a successful admission leaves for its own replay to find. */
  ghost predicate Answers(db: Db, a: C.AdmitArgs, e: Envelope) {
    && a.leaseExpiresAt > a.at && C.Aligned(a)
    && e in db.envelopes && e.workflow == a.intent.workflow && e.key == a.key
    && e.digest == a.intent.digest && e.execution == a.intent.execution && e.intent == a.intent.id
  }

  lemma AdmissionAnswers(db: Db, a: C.AdmitArgs)
    requires Exec(db, AdmitAndBeginWrite(a)).1.EnvelopeReply?
    ensures var (d, reply) := Exec(db, AdmitAndBeginWrite(a)); Answers(d, a, reply.envelope)
  {
    hide C.Refusal, C.Aligned;
  }

  lemma AnswersReplay(db: Db, a: C.AdmitArgs, e: Envelope)
    requires OnePerWorkflow(db.envelopes) && Answers(db, a, e)
    ensures Exec(db, AdmitAndBeginWrite(a)) == (db, EnvelopeReply(e))
  {
    FoundEnvelope(db.envelopes, e);
    hide C.Refusal, C.Aligned, OnePerWorkflow;
  }

  /** An admission that succeeded returns the same envelope, and changes
      nothing, whatever ran since. */
  lemma EnvelopeReplay(db: Db, a: C.AdmitArgs, cs: seq<Call>)
    requires Valid(db) && Exec(db, AdmitAndBeginWrite(a)).1.EnvelopeReply?
    ensures var (d, reply) := Exec(db, AdmitAndBeginWrite(a));
      reply.envelope in d.envelopes && Exec(Run(d, cs), AdmitAndBeginWrite(a)) == (Run(d, cs), reply)
  {
    var (d, reply) := Exec(db, AdmitAndBeginWrite(a));
    var e := reply.envelope;
    hide Exec, OnePerWorkflow, Run;
    AdmissionAnswers(db, a);
    ExecValid(db, AdmitAndBeginWrite(a));
    RunKeeps(d, cs);
    var later := Run(d, cs);
    assert Answers(later, a, e) && e in d.envelopes by {
      hide C.Aligned, FlowGrows, GrantsGrow, FencesGrow, EvidenceGrows;
      StillThere(d.envelopes, later.envelopes, e);
    }
    assert OnePerWorkflow(later.envelopes) by {
    }
    AnswersReplay(later, a, e);
  }

  /** A transition that succeeded returns the same command, and changes nothing, whatever ran since. */
  lemma CommandReplay(db: Db, move: W.TransitionArgs, cs: seq<Call>)
    requires Valid(db) && Exec(db, Transition(move)).1.CommandReply?
    ensures var (d, reply) := Exec(db, Transition(move));
      reply.command in d.flow.commands && Exec(Run(d, cs), Transition(move)) == (Run(d, cs), reply)
  {
    var (d, reply) := Exec(db, Transition(move));
    var c := reply.command;
    hide CommandClash;
    assert c in d.flow.commands && c.workflow == move.workflow && c.key == move.key && c.name == move.name
           && c.digest == move.digest;
    ExecValid(db, Transition(move));
    RunKeeps(d, cs);
    assert FlowOk(Run(d, cs).flow) && FlowGrows(d.flow, Run(d, cs).flow);
    StillThere(d.flow.commands, Run(d, cs).flow.commands, c);
    FoundCommand(Run(d, cs).flow.commands, c);
    hide FlowGrows;
  }

  // ---------------------------------------------------------------------
  // Fencing
  // ---------------------------------------------------------------------

  predicate IsHolderCall(c: Call) {
    c.Release? || c.ReleaseForAuthorization? || c.StartAtomicCall? || c.FinishAtomicCall?
  }

  /** The claim names the row of `s`, with the newest token ever acquired there and its workflow's current version. */
  ghost predicate Current(db: Db, c: Claim, s: Scope) {
    && s in db.fences.leases
    && var l := db.fences.leases[s];
       && l.id == c.lease && l.owner == c.owner && Held(l.state) && c.at < l.expiresAt
       && c.token == l.token == LastToken(db.fences.counters, s)
       && Tokens(db.fences.events, s) != [] && c.token == Tokens(db.fences.events, s)[|Tokens(db.fences.events, s)| - 1]
       && l.workflow in db.flow.workflows && db.flow.workflows[l.workflow].version == l.version == c.version
  }

  lemma SuccessfulHolder(db: Db, c: Call) returns (s: Scope)
    requires IsHolderCall(c) && Exec(db, c).1.LeaseReply?
    ensures ScopeOf(db.fences.leases, c.claim.lease) == Some(s)
    ensures HolderFailure(db.flow, db.fences.leases[s], c.claim, !c.FinishAtomicCall?).None?
  {
    s := ScopeOf(db.fences.leases, c.claim.lease).value;
    hide HolderFailure;
  }

  /** A release, start or finish succeeds only for the current holder. */
  lemma HolderIsCurrent(db: Db, c: Call)
    requires Valid(db) && IsHolderCall(c)
    ensures Exec(db, c).1.LeaseReply? ==>
              ScopeOf(db.fences.leases, c.claim.lease).Some?
              && Current(db, c.claim, ScopeOf(db.fences.leases, c.claim.lease).value)
  {
    if Exec(db, c).1.LeaseReply? {
      var s := SuccessfulHolder(db, c);
      var l := db.fences.leases[s];
      assert LeaseRowOk(db.flow.workflows, db.fences.counters, s, l);
      assert ScopeLogOk(db.fences, s);
      FoldNeedsToken(db.fences.events, s);
      assert Tokens(db.fences.events, s) != [];
    }
  }

  /** Once a scope has minted a newer token, an older claim on that scope is
      refused in every later state, and moves no lease. */
  lemma SupersededForever(db: Db, cs: seq<Call>, s: Scope, c: Call)
    requires Valid(db) && IsHolderCall(c)
    requires c.claim.token < LastToken(db.fences.counters, s)
    requires ScopeOf(Run(db, cs).fences.leases, c.claim.lease) == Some(s)
    ensures var d := Run(db, cs); Exec(d, c).1.Raised? && Exec(d, c).0.fences.leases == d.fences.leases
  {
    hide Run, Valid, C.AdmitAndBeginWriteSpec, W.TransitionSpec, ReleaseSpec, FinishCallSpec;
    var d := Run(db, cs);
    RunKeeps(db, cs);
    assert LastToken(db.fences.counters, s) <= LastToken(d.fences.counters, s);
    HolderIsCurrent(d, c);
    FailedCallChangesNothing(d, c);
    assert Exec(d, c).1.LeaseReply? || Exec(d, c).1.Raised?;
  }

  /** A lease whose workflow has moved past the version it was taken for. */
  ghost predicate Stranded(db: Db, s: Scope, l: Lease) {
    && s in db.fences.leases && db.fences.leases[s] == l && Held(l.state)
    && l.workflow in db.flow.workflows && l.version.counter < db.flow.workflows[l.workflow].version.counter
  }

  /** An expiry of `l`, not before its time, is among the events. */
  ghost predicate ExpiredIn(events: seq<LeaseEvent>, l: Lease) {
    exists e :: e in events && e.kind.ExpiredLease? && e.lease == l.id && e.scope == l.scope && e.token == l.token
                && e.at >= l.expiresAt
  }

  /** A holder call writes no scope but its lease's. */
  lemma HolderCallTouches(flow: Flow, fences: Fences, c: Claim, operation: Id, forAuthorization: bool, t: Scope)
    requires t in fences.leases
    requires ScopeOf(fences.leases, c.lease).Some? ==> fences.leases[ScopeOf(fences.leases, c.lease).value].scope != t
    ensures forall r | r in [ReleaseSpec(flow, fences, c, forAuthorization), StartCallSpec(flow, fences, c, operation),
                             FinishCallSpec(flow, fences, c, operation)] ::
              t in r.0.leases && r.0.leases[t] == fences.leases[t]
  {
    hide HolderFailure;
  }

  lemma StrandedHolderCall(db: Db, c: Call, s: Scope, l: Lease)
    requires Valid(db) && Stranded(db, s, l) && IsHolderCall(c)
    ensures var d := Exec(db, c).0; s in d.fences.leases && d.fences.leases[s] == l
  {
    HolderIsCurrent(db, c);
    FailedCallChangesNothing(db, c);
    assert s in db.fences.leases && db.fences.leases[s] == l;
    if Exec(db, c).1.Raised? {
    } else {
      var found := ScopeOf(db.fences.leases, c.claim.lease);
      assert Exec(db, c).1.LeaseReply?;
      assert found.value != s;
      assert LeaseRowOk(db.flow.workflows, db.fences.counters, found.value, db.fences.leases[found.value]);
      assert db.fences.leases[found.value].scope != s;
      HolderCallTouches(db.flow, db.fences, c.claim,
                        if c.StartAtomicCall? || c.FinishAtomicCall? then c.operation else 0,
                        c.ReleaseForAuthorization?, s);
    }
  }

  lemma StrandedExpiry(db: Db, s: Scope, l: Lease, scope: Scope, at: Time)
    requires Valid(db) && Stranded(db, s, l)
    ensures var d := ExpireSpec(db.fences, scope, at).0;
      (s in d.leases && d.leases[s] == l)
      || (db.fences.events <= d.events && ExpiredIn(d.events[|db.fences.events|..], l))
  {
    assert LeaseRowOk(db.flow.workflows, db.fences.counters, s, l);
    var n := |db.fences.events|;
    var d := ExpireSpec(db.fences, scope, at).0;
    if scope == s && at >= l.expiresAt {
      assert l.scope == s;
      assert d.events[n..] == [d.events[n]];
      assert d.events[n] in d.events[n..];
    } else if scope in db.fences.leases {
      assert db.fences.leases[scope].scope == scope by {
        assert LeaseRowOk(db.flow.workflows, db.fences.counters, scope, db.fences.leases[scope]);
      }
    }
  }

  lemma StrandedOtherCall(db: Db, c: Call, s: Scope, l: Lease)
    requires Stranded(db, s, l) && !IsHolderCall(c) && !c.ExpireLease?
    ensures var d := Exec(db, c).0; s in d.fences.leases && d.fences.leases[s] == l
  {
    hide C.Aligned, CommandClash, LeaseClash, EnvelopeClash, A.AdmissionOutcome, A.Matches, C.Usable, C.Awaiting;
    if IsGrantCall(c) || IsEvidenceCall(c) || c.Transition? || c.RecordWorkflow? {
      assert Exec(db, c).0.fences == db.fences;
    }
  }

  lemma StrandedStep(db: Db, c: Call, s: Scope, l: Lease)
    requires Valid(db) && Stranded(db, s, l)
    ensures var d := Exec(db, c).0;
      db.fences.events <= d.fences.events && (Stranded(d, s, l) || ExpiredIn(d.fences.events[|db.fences.events|..], l))
  {
    var d := Exec(db, c).0;
    ExecGrows(db, c);
    assert db.fences.events <= d.fences.events
           && WorkflowGrows(db.flow.workflows[l.workflow], d.flow.workflows[l.workflow]);
    if IsHolderCall(c) {
      StrandedHolderCall(db, c, s, l);
    } else if c.ExpireLease? {
      StrandedExpiry(db, s, l, c.scope, c.at);
      assert d.fences == ExpireSpec(db.fences, c.scope, c.at).0;
    } else {
      StrandedOtherCall(db, c, s, l);
    }
  }

  /** In every later state such a lease is still there untouched, or an expiry ended it. */
  lemma {:induction false} StrandedEndsOnlyByExpiry(db: Db, cs: seq<Call>, s: Scope, l: Lease)
    requires Valid(db) && Stranded(db, s, l)
    ensures var d := Run(db, cs);
      db.fences.events <= d.fences.events
      && (Stranded(d, s, l) || ExpiredIn(d.fences.events[|db.fences.events|..], l))
    decreases |cs|
  {
    hide Exec, Valid;
    var n, d := |db.fences.events|, Run(db, cs);
    if cs == [] {
    } else {
      var m := Exec(db, cs[0]).0;
      assert d == Run(m, cs[1..]);
      ExecValid(db, cs[0]);
      RunKeeps(m, cs[1..]);
      assert m.fences.events <= d.fences.events;
      StrandedStep(db, cs[0], s, l);
      if Stranded(m, s, l) {
        StrandedEndsOnlyByExpiry(m, cs[1..], s, l);
        if !Stranded(d, s, l) {
          ExpiryWidens(d.fences.events, |m.fences.events|, n, l);
        }
      } else {
        ExpiryPersists(m.fences.events[n..], d.fences.events[n..], l);
      }
    }
  }

  lemma ExpiryWidens(events: seq<LeaseEvent>, from: nat, earlier: nat, l: Lease)
    requires earlier <= from <= |events| && ExpiredIn(events[from..], l)
    ensures ExpiredIn(events[earlier..], l)
  {
    var e :| e in events[from..] && e.kind.ExpiredLease? && e.lease == l.id && e.scope == l.scope
             && e.token == l.token && e.at >= l.expiresAt;
    var k :| 0 <= k < |events[from..]| && events[from..][k] == e;
    assert events[earlier..][k + from - earlier] == e;
  }

  lemma ExpiryPersists(before: seq<LeaseEvent>, after: seq<LeaseEvent>, l: Lease)
    requires before <= after && ExpiredIn(before, l)
    ensures ExpiredIn(after, l)
  {
    var e :| e in before && e.kind.ExpiredLease? && e.lease == l.id && e.scope == l.scope && e.token == l.token
             && e.at >= l.expiresAt;
    StillThere(before, after, e);
  }

  /** A scope that expired with a call in flight is never leased again: its row,
      its counter and its list of acquired tokens are final. */
  lemma InFlightExpiryIsFinal(db: Db, cs: seq<Call>, s: Scope)
    requires Valid(db) && s in db.fences.leases && db.fences.leases[s].state.InFlightExpired?
    ensures var d := Run(db, cs);
      && s in d.fences.leases && d.fences.leases[s] == db.fences.leases[s]
      && Tokens(d.fences.events, s) == Tokens(db.fences.events, s)
  {
    hide Run;
    RunKeeps(db, cs);
    var d := Run(db, cs);
    assert FencesGrow(db.fences, d.fences);
    assert LeaseLogOk(db.fences) && LeaseLogOk(d.fences);
    assert ScopeLogOk(db.fences, s) && ScopeLogOk(d.fences, s);
    assert |Tokens(d.fences.events, s)| == |Tokens(db.fences.events, s)|;
  }

  /** In every reachable state a scope's events rebuild its current row or its
      absence, and its acquired tokens are exactly 1, 2, ..., n with n the
      counter and the token of any live row. */
  lemma LogsRebuildLeases(db: Db, s: Scope)
    requires Reachable(db)
    ensures Fold(db.fences.events, s) == if s in db.fences.leases then Some(ViewOf(db.fences.leases[s])) else None
    ensures Tokens(db.fences.events, s) == seq(LastToken(db.fences.counters, s), i => i + 1)
    ensures s in db.fences.leases ==> db.fences.leases[s].token == LastToken(db.fences.counters, s) > 0
  {
    ReachableIsValid(db);
    assert ScopeLogOk(db.fences, s);
    if s in db.fences.leases {
      assert LeaseRowOk(db.flow.workflows, db.fences.counters, s, db.fences.leases[s]);
      FoldNeedsToken(db.fences.events, s);
    }
  }

  /** A row can only come from an acquisition. */
  lemma {:induction false} FoldNeedsToken(events: seq<LeaseEvent>, s: Scope)
    ensures Fold(events, s).Some? ==> Tokens(events, s) != []
  {
    if events != [] {
      FoldNeedsToken(events[..|events| - 1], s);
    }
  }

  // ---------------------------------------------------------------------
  // Authorizations
  // ---------------------------------------------------------------------

  /** An authorization leaves ISSUED for CONSUMING at most once, and exactly
      when an ADMITTED admission exists, which is exactly when its state is
      CONSUMING or CONSUMED; its event log ends in its current state. */
  lemma AuthorizationIsSingleUse(db: Db, x: Id)
    requires Reachable(db)
    ensures Consumptions(db.grants.events, x) <= 1
    ensures Consumptions(db.grants.events, x) == 1
       <==> x in db.grants.admissions && db.grants.admissions[x].status.Admitted?
    ensures Consumptions(db.grants.events, x) == 1
       <==> x in db.grants.authorizations && Spent(db.grants.authorizations[x].state)
    ensures x in db.grants.authorizations ==> StateFrom(db.grants.events, x) == Some(db.grants.authorizations[x].state)
  {
    ReachableIsValid(db);
    if x in db.grants.authorizations {
      assert GrantOk(db.grants.authorizations[x], db.grants.events, db.grants.admissions, x);
    } else {
      NeverMentioned(db.grants.events, x);
    }
  }

  /** Presenting an authorization never takes the unsafe-state branch. */
  lemma UnsafeStateIsUnreachable(db: Db, candidate: Authorization, authority: Id, at: Time)
    requires Reachable(db)
    ensures var reply := Exec(db, AdmitAuthorization(candidate, authority, at)).1;
      reply.AdmissionReply? ==> !reply.admission.reason.UnsafeAuthorizationState?
  {
    ReachableIsValid(db);
    var x := candidate.execution;
    if x in db.grants.authorizations {
      assert GrantOk(db.grants.authorizations[x], db.grants.events, db.grants.admissions, x);
    }
    hide A.Matches, StateFrom, Consumptions;
  }

  // ---------------------------------------------------------------------
  // Envelopes
  // ---------------------------------------------------------------------

  /** Every envelope of a reachable state has its command, intent, admission,
      consumption event and lease events; a workflow has one exactly when it
      has a coordinator command, and never two. */
  lemma EnvelopesAreWhole(db: Db, w: Id)
    requires Reachable(db)
    ensures forall e :: e in db.envelopes ==> Backed(db, e)
    ensures (exists e :: e in db.envelopes && e.workflow == w)
       <==> (exists c :: c in db.flow.commands && c.name.AdmitExecutionAndCommitIntent? && c.workflow == w)
    ensures forall i, j :: 0 <= i < j < |db.envelopes| ==> db.envelopes[i].workflow != db.envelopes[j].workflow
  {
    hide Reachable, EvidenceOk;
    ReachableIsValid(db);
    assert EnvelopesOk(db);
    if e :| e in db.envelopes && e.workflow == w {
      assert Backed(db, e);
      assert CommandOf(e) in db.flow.commands;
    }
  }

  // ---------------------------------------------------------------------
  // Classifications
  // ---------------------------------------------------------------------

  /** A classification stored at any time is supported by the observations it lists in every later state. */
  lemma ClassificationsStaySupported(db: Db, cs: seq<Call>, r: Record)
    requires Valid(db) && r in db.evidence.records
    ensures var d := Run(db, cs).evidence;
      && r in d.records && r.intent in d.intents && R.Listed(d.observations, r.intent, r.observations)
      && R.Supports(d.intents[r.intent], R.Gather(d.observations, r.observations), r.classification)
      && R.Gather(d.observations, r.observations) == R.Gather(db.evidence.observations, r.observations)
  {
    RunKeeps(db, cs);
    var d := Run(db, cs).evidence;
    assert EvidenceGrows(db.evidence, d) && EvidenceOk(db.evidence);
    hide Valid, Grows;
    assert R.Unsupported(db.evidence.intents, db.evidence.observations, r).None?;
    StillSupported(db.evidence.intents, db.evidence.observations, d.intents, d.observations, r);
    StillThere(db.evidence.records, d.records, r);
    assert R.Gather(d.observations, r.observations) == R.Gather(db.evidence.observations, r.observations);
  }
}
