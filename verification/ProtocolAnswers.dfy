/** Exactly when each public call succeeds, and what it then leaves, on the stored rows. */
module ProtocolAnswers {
  import opened Common
  import opened Tables
  import opened Leases
  import opened Protocol
  import opened ProtocolInvariant
  import opened ProtocolSafety
  import opened ProtocolPaths
  import opened ProtocolTerms
  import W = Workflows
  import A = Approvals
  import R = Reconciliation
  import C = Coordinator

  // ---------------------------------------------------------------------
  // Lease holders
  // ---------------------------------------------------------------------

  /** Whether the row lets this call go ahead: a finish names the call in
      flight, anything else finds none, and only a preview is released for authorization. */
  predicate Fits(c: Call, l: Lease)
    requires IsHolderCall(c)
  {
    match c
    case FinishAtomicCall(_, operation) => l.operation == Some(operation)
    case ReleaseForAuthorization(_) => l.operation.None? && l.mode == Preview
    case _ => l.operation.None?
  }

  /** The claim is the current holder's, and the row lets the call go ahead. */
  ghost predicate Allowed(db: Db, c: Call, s: Scope)
    requires IsHolderCall(c)
  {
    Current(db, c.claim, s) && Fits(c, db.fences.leases[s])
  }

  lemma FoundScope(leases: map<Scope, Lease>, s: Scope)
    requires UniqueLeaseIds(leases) && s in leases
    ensures ScopeOf(leases, leases[s].id) == Some(s)
  {
  }

  /** What a holder call leaves when it succeeds: the row with its operation set
      or cleared, or no row, and one event of the row's own binding. */
  ghost predicate HolderLeaves(before: Fences, c: Call, s: Scope, after: Fences, reply: Lease)
    requires IsHolderCall(c) && s in before.leases
  {
    var l := before.leases[s];
    var at := c.claim.at;
    && after.counters == before.counters
    && match c
       case StartAtomicCall(_, operation) =>
         && reply == l.(operation := Some(operation)) && after.leases == before.leases[s := reply]
         && after.events == before.events + [LeaseEvent(l.id, s, l.workflow, l.version, l.token, AtomicCallStarted, at,
                                                        l.state, l.state, Some(operation))]
       case FinishAtomicCall(_, operation) =>
         && reply == l.(operation := None) && after.leases == before.leases[s := reply]
         && after.events == before.events + [LeaseEvent(l.id, s, l.workflow, l.version, l.token, AtomicCallFinished, at,
                                                        l.state, l.state, Some(operation))]
       case _ =>
         && reply == l && after.leases == before.leases - {s}
         && after.events == before.events + [LeaseEvent(l.id, s, l.workflow, l.version, l.token,
                                                        if c.Release? then Released else ReleasedForAuthorization, at,
                                                        l.state, Available, None)]
  }

  lemma CurrentPasses(db: Db, claim: Claim, s: Scope, noOperation: bool)
    requires Valid(db) && Current(db, claim, s) && (noOperation ==> db.fences.leases[s].operation.None?)
    ensures ScopeOf(db.fences.leases, claim.lease) == Some(s) && claim.token > 0 && db.fences.leases[s].scope == s
    ensures HolderFailure(db.flow, db.fences.leases[s], claim, noOperation).None?
  {
    FoundScope(db.fences.leases, s);
    assert LeaseRowOk(db.flow.workflows, db.fences.counters, s, db.fences.leases[s]);
    assert ScopeLogOk(db.fences, s);
  }

  lemma HolderSucceeds(db: Db, c: Call, s: Scope)
    requires Valid(db) && IsHolderCall(c) && Allowed(db, c, s)
    ensures var (d, reply) := Exec(db, c);
      && reply.LeaseReply? && d == db.(fences := d.fences)
      && s in db.fences.leases && HolderLeaves(db.fences, c, s, d.fences, reply.lease)
  {
    CurrentPasses(db, c.claim, s, !c.FinishAtomicCall?);
    hide Valid, Current, HolderFailure;
  }

  lemma HolderFits(db: Db, c: Call)
    requires Valid(db) && IsHolderCall(c) && Exec(db, c).1.LeaseReply?
    ensures exists s :: Allowed(db, c, s)
  {
    HolderIsCurrent(db, c);
    var s := SuccessfulHolder(db, c);
    HolderSays(db, c, s);
    assert Allowed(db, c, s);
    hide Valid, Exec, Current, HolderFailure;
  }

  lemma HolderSays(db: Db, c: Call, s: Scope)
    requires IsHolderCall(c) && Exec(db, c).1.LeaseReply? && ScopeOf(db.fences.leases, c.claim.lease) == Some(s)
    ensures Fits(c, db.fences.leases[s])
  {
  }

  /** A release, start or finish succeeds exactly for the current holder of a
      row that the call fits, and then leaves just what it says. */
  lemma HolderSucceedsIff(db: Db, c: Call)
    requires Valid(db) && IsHolderCall(c)
    ensures Exec(db, c).1.LeaseReply? <==> exists s :: Allowed(db, c, s)
    ensures forall s :: Allowed(db, c, s) ==>
              var (d, reply) := Exec(db, c);
              && reply.LeaseReply? && d == db.(fences := d.fences)
              && s in db.fences.leases && HolderLeaves(db.fences, c, s, d.fences, reply.lease)
  {
    hide Valid, Exec, Current, Fits, HolderLeaves;
    forall s | Allowed(db, c, s)
      ensures var (d, reply) := Exec(db, c);
        && reply.LeaseReply? && d == db.(fences := d.fences)
        && s in db.fences.leases && HolderLeaves(db.fences, c, s, d.fences, reply.lease)
    {
      HolderSucceeds(db, c, s);
    }
    if Exec(db, c).1.LeaseReply? {
      HolderFits(db, c);
    }
  }

  /** Why a known lease refuses a claim: the first of these that holds. */
  ghost predicate FirstObjection(flow: Flow, l: Lease, c: Call, why: StaleReason)
    requires IsHolderCall(c)
  {
    var held := l.state == HeldPreview || l.state == HeldExecution || l.state == HeldRollback;
    var token, owner := l.token == c.claim.token, l.owner == c.claim.owner;
    var version, inTime := l.version == c.claim.version, c.claim.at < l.expiresAt;
    var idle := c.FinishAtomicCall? || l.operation.None?;
    var current := l.workflow in flow.workflows && flow.workflows[l.workflow].version == l.version;
    match why
    case NotHeld(state) => !held && state == l.state
    case TokenNotCurrent => held && !token
    case OwnerNotCurrent => held && token && !owner
    case VersionNotCurrent => held && token && owner && !version
    case LeaseHasExpired => held && token && owner && version && !inTime
    case CallInFlight => held && token && owner && version && inTime && !idle
    case WorkflowMoved => held && token && owner && version && inTime && idle && !current
    case OperationMismatch =>
      held && token && owner && version && inTime && current && c.FinishAtomicCall? && l.operation != Some(c.operation)
    case NotPreview =>
      && held && token && owner && version && inTime && idle && current && c.ReleaseForAuthorization?
      && l.mode != Preview
  }

  /** A claim on a known lease with a token below 1 is invalid; any other refusal
      gives the first objection and commits one event with the caller's token. */
  lemma HolderRefusals(db: Db, c: Call, s: Scope)
    requires Valid(db) && IsHolderCall(c) && s in db.fences.leases && db.fences.leases[s].id == c.claim.lease
    ensures var (d, reply) := Exec(db, c);
      var l := db.fences.leases[s];
      && reply != Raised(NotFound) && (reply == Raised(Invalid) <==> c.claim.token <= 0)
      && (forall why :: reply == Raised(FenceRejected(why)) <==>
                          c.claim.token > 0 && FirstObjection(db.flow, l, c, why))
      && (reply.Raised? && reply.failure.FenceRejected? ==>
            d.fences == db.fences.(events := db.fences.events + [
              LeaseEvent(l.id, l.scope, l.workflow, l.version, c.claim.token, StaleFenceRejected, c.claim.at, l.state,
                         l.state, if c.FinishAtomicCall? then Some(c.operation) else None)]))
  {
    FoundScope(db.fences.leases, s);
    HolderRefused(db, c, s);
    HolderRejected(db, c, s);
    hide Valid, Exec, FirstObjection;
  }

  lemma ObjectionIs(flow: Flow, l: Lease, c: Call)
    requires IsHolderCall(c)
    ensures var failure := HolderFailure(flow, l, c.claim, !c.FinishAtomicCall?);
      forall why :: FirstObjection(flow, l, c, why) <==>
        || failure == Some(why)
        || (failure.None? && why.OperationMismatch? && c.FinishAtomicCall? && l.operation != Some(c.operation))
        || (failure.None? && why.NotPreview? && c.ReleaseForAuthorization? && l.mode != Preview)
  {
  }

  lemma HolderRefused(db: Db, c: Call, s: Scope)
    requires IsHolderCall(c) && ScopeOf(db.fences.leases, c.claim.lease) == Some(s)
    ensures var (d, reply) := Exec(db, c);
      var l := db.fences.leases[s];
      && reply != Raised(NotFound) && (reply == Raised(Invalid) <==> c.claim.token <= 0)
      && (forall why :: reply == Raised(FenceRejected(why)) <==>
                          c.claim.token > 0 && FirstObjection(db.flow, l, c, why))
  {
    hide AcquireSpec, ExpireSpec, A.ApproveSpec, A.DecideSpec, A.AdmitSpec, A.CreateRequestSpec, A.InvalidateSpec,
         A.ConsumeSpec, W.TransitionSpec, W.RecordSpec, R.CommitIntentSpec, R.AppendObservationSpec, R.RecordSpec,
         C.AdmitAndBeginWriteSpec, WithFlow, WithGrants, WithEvidence;
    ObjectionIs(db.flow, db.fences.leases[s], c);
    hide HolderFailure, FirstObjection;
    match c {
      case Release(_) =>
      case ReleaseForAuthorization(_) =>
      case StartAtomicCall(_, _) =>
      case FinishAtomicCall(_, _) =>
    }
  }

  lemma HolderRejected(db: Db, c: Call, s: Scope)
    requires IsHolderCall(c) && ScopeOf(db.fences.leases, c.claim.lease) == Some(s)
    ensures var (d, reply) := Exec(db, c);
      var l := db.fences.leases[s];
      reply.Raised? && reply.failure.FenceRejected? ==>
        d.fences == db.fences.(events := db.fences.events + [
          LeaseEvent(l.id, l.scope, l.workflow, l.version, c.claim.token, StaleFenceRejected, c.claim.at, l.state,
                     l.state, if c.FinishAtomicCall? then Some(c.operation) else None)])
  {
    hide AcquireSpec, ExpireSpec, A.ApproveSpec, A.DecideSpec, A.AdmitSpec, A.CreateRequestSpec, A.InvalidateSpec,
         A.ConsumeSpec, W.TransitionSpec, W.RecordSpec, R.CommitIntentSpec, R.AppendObservationSpec, R.RecordSpec,
         C.AdmitAndBeginWriteSpec, WithFlow, WithGrants, WithEvidence,
         HolderFailure;
  }

  /** A claim is unknown exactly when no row has its lease. */
  lemma UnknownLease(db: Db, c: Call)
    requires IsHolderCall(c) && forall s :: s in db.fences.leases ==> db.fences.leases[s].id != c.claim.lease
    ensures Exec(db, c) == (db, Raised(NotFound))
  {
    hide HolderFailure;
    assert db.(fences := db.fences) == db;
  }

  /** A call started and finished in time by its holder leaves the leases as they were. */
  lemma StartThenFinish(db: Db, s: Scope, start: Claim, finish: Claim, operation: Id)
    requires Valid(db) && Current(db, start, s) && db.fences.leases[s].operation.None?
    requires finish == start.(at := finish.at) && finish.at < db.fences.leases[s].expiresAt
    ensures var (started, first) := Exec(db, StartAtomicCall(start, operation));
      var (finished, second) := Exec(started, FinishAtomicCall(finish, operation));
      && first == LeaseReply(db.fences.leases[s].(operation := Some(operation)))
      && second == LeaseReply(db.fences.leases[s])
      && finished.fences.leases == db.fences.leases && finished.fences.counters == db.fences.counters
  {
    var s1 := StartAtomicCall(start, operation);
    var started := Exec(db, s1).0;
    HolderSucceeds(db, s1, s);
    CurrentPasses(db, start, s, true);
    StillUnique(db.fences.leases, s, operation);
    FinishReturns(db, started, s, finish, operation);
    hide Valid, HolderFailure, UniqueLeaseIds, Exec;
  }

  lemma StillUnique(leases: map<Scope, Lease>, s: Scope, operation: Id)
    requires s in leases && (forall t, u :: t in leases && u in leases && leases[t].id == leases[u].id ==> t == u)
    ensures UniqueLeaseIds(leases[s := leases[s].(operation := Some(operation))])
  {
  }

  lemma FinishReturns(db: Db, started: Db, s: Scope, finish: Claim, operation: Id)
    requires s in db.fences.leases && started == db.(fences := started.fences) && db.fences.leases[s].scope == s
    requires db.fences.leases[s].operation.None? && db.fences.leases[s].id == finish.lease && finish.token > 0
    requires HolderFailure(db.flow, db.fences.leases[s], finish, false).None?
    requires started.fences.leases == db.fences.leases[s := db.fences.leases[s].(operation := Some(operation))]
    requires UniqueLeaseIds(started.fences.leases)
    ensures var (finished, reply) := Exec(started, FinishAtomicCall(finish, operation));
      && reply == LeaseReply(db.fences.leases[s])
      && finished.fences.leases == db.fences.leases && finished.fences.counters == started.fences.counters
  {
    FoundScope(started.fences.leases, s);
    assert HolderFailure(started.flow, started.fences.leases[s], finish, false).None?;
    assert started.fences.leases[s := db.fences.leases[s]] == db.fences.leases;
    hide HolderFailure, UniqueLeaseIds, ScopeOf;
  }

  // ---------------------------------------------------------------------
  // Acquiring and expiring
  // ---------------------------------------------------------------------

  /** The token after the last one acquired in the scope. */
  ghost function NextToken(db: Db, s: Scope): nat {
    |Tokens(db.fences.events, s)| + 1
  }

  ghost function Leased(db: Db, a: AcquireArgs): Lease {
    Lease(a.lease, a.scope, a.workflow, a.expected, NextToken(db, a.scope), a.mode, StateOf(a.mode), a.issuedAt,
          a.expiresAt, a.owner, None)
  }

  /** A free scope is leased for a workflow's current version and a time ahead,
      with the token after the last; an occupied one is refused before all else
      but a version of another workflow. */
  lemma AcquireAnswers(db: Db, a: AcquireArgs)
    requires Valid(db)
    ensures var (d, reply) := Exec(db, Acquire(a));
      var own := a.expected.scope == a.workflow;
      var free := a.scope !in db.fences.leases;
      var known := a.workflow in db.flow.workflows;
      var current := known && db.flow.workflows[a.workflow].version == a.expected;
      var unused := forall s :: s in db.fences.leases ==> db.fences.leases[s].id != a.lease;
      && (reply.LeaseReply? <==> own && free && current && a.issuedAt < a.expiresAt && unused)
      && (reply == Raised(Busy) <==> own && !free)
      && (reply == Raised(NotFound) <==> own && free && !known)
      && (reply == Raised(VersionConflict) <==> own && free && known && !current)
      && (reply == Raised(Invalid) <==> !own || (free && current && a.expiresAt <= a.issuedAt))
      && (reply == Raised(IntegrityError) <==> own && free && current && a.issuedAt < a.expiresAt && !unused)
      && (reply.LeaseReply? ==>
            var l := Leased(db, a);
            && reply == LeaseReply(l)
            && d == db.(fences := Fences(
              db.fences.counters[a.scope := l.token], db.fences.leases[a.scope := l],
              db.fences.events + [LeaseEvent(l.id, l.scope, l.workflow, l.version, l.token, AcquireAttempted,
                                             a.issuedAt, Available, l.state, None),
                                  LeaseEvent(l.id, l.scope, l.workflow, l.version, l.token,
                                             LeaseEventKind.Acquired, a.issuedAt, Available, l.state, None)])))
  {
    assert ScopeLogOk(db.fences, a.scope);
    hide Valid;
  }

  /** A held lease past its time goes free when idle and is blocked when a call is in flight; any other is left. */
  lemma ExpireAnswers(db: Db, s: Scope, at: Time)
    requires Valid(db)
    ensures var (d, reply) := Exec(db, ExpireLease(s, at));
      && (reply == Raised(NotFound) <==> s !in db.fences.leases)
      && (s in db.fences.leases ==>
            var l := db.fences.leases[s];
            var held := l.state == HeldPreview || l.state == HeldExecution || l.state == HeldRollback;
            && (reply == Raised(StateConflict) <==> !held || at < l.expiresAt)
            && (held && l.expiresAt <= at ==>
                  var next := l.(state := if l.operation.None? then LeaseExpired else InFlightExpired);
                  && reply == LeaseReply(next)
                  && d == db.(fences := Fences(
                    db.fences.counters,
                    if l.operation.None? then db.fences.leases - {s} else db.fences.leases[s := next],
                    db.fences.events + [LeaseEvent(l.id, s, l.workflow, l.version, l.token, ExpiredLease, at, l.state,
                                                   next.state, l.operation)]))))
  {
    if s in db.fences.leases {
      assert LeaseRowOk(db.flow.workflows, db.fences.counters, s, db.fences.leases[s]);
    }
    hide Valid;
  }

  // ---------------------------------------------------------------------
  // Workflows
  // ---------------------------------------------------------------------

  /** A workflow is recorded exactly when its id is free and its row is of that id and does not end before it begins. */
  lemma RecordAnswers(db: Db, id: Id, row: Workflow)
    ensures var (d, reply) := Exec(db, RecordWorkflow(id, row));
      var sound := row.version.scope == id && row.createdAt <= row.updatedAt;
      && (reply == Done <==> sound && id !in db.flow.workflows)
      && (reply == Raised(Invalid) <==> !sound)
      && (reply == Raised(IntegrityError) <==> sound && id in db.flow.workflows)
      && (reply == Done ==> d == db.(flow := db.flow.(workflows := db.flow.workflows[id := row])))
  {
  }

  /** The command is already recorded under its workflow's key. */
  ghost predicate Keyed(commands: seq<Command>, w: Id, key: Id) {
    exists c :: c in commands && c.workflow == w && c.key == key
  }

  ghost predicate Repeats(commands: seq<Command>, m: W.TransitionArgs, c: Command) {
    c in commands && c.workflow == m.workflow && c.key == m.key && c.name == m.name && c.digest == m.digest
  }

  ghost function CommandFor(m: W.TransitionArgs): Command {
    Command(m.command, m.workflow, m.name, m.key, m.digest, m.expected, Version(m.workflow, m.expected.counter + 1),
            m.operation, m.at)
  }

  /** A transition is answered by its recorded command when its key is known;
      else it is made exactly when it is against the workflow's current version,
      leads on from its state, does not come before it, and its id is new. */
  lemma TransitionAnswers(db: Db, m: W.TransitionArgs)
    requires Valid(db)
    ensures var (d, reply) := Exec(db, Transition(m));
      var own := m.expected.scope == m.workflow && !m.name.AdmitExecutionAndCommitIntent?;
      var keyed := Keyed(db.flow.commands, m.workflow, m.key);
      var known := m.workflow in db.flow.workflows;
      var current := known && db.flow.workflows[m.workflow].version == m.expected;
      var leads := current && Leads(m.name, db.flow.workflows[m.workflow].state, m.target)
                   && db.flow.workflows[m.workflow].createdAt <= m.at;
      var unused := forall c :: c in db.flow.commands ==> c.id != m.command;
      && (reply.CommandReply? <==>
            own && if keyed then exists c :: Repeats(db.flow.commands, m, c) else leads && unused)
      && (reply == Raised(Conflict) <==> own && keyed && forall c :: !Repeats(db.flow.commands, m, c))
      && (reply == Raised(NotFound) <==> own && !keyed && !known)
      && (reply == Raised(VersionConflict) <==> own && !keyed && known && !current)
      && (reply == Raised(Invalid) <==> !own || (!keyed && current && !leads))
      && (reply == Raised(IntegrityError) <==> own && !keyed && leads && !unused)
      && (reply.CommandReply? && keyed ==> d == db && Repeats(db.flow.commands, m, reply.command))
      && (reply.CommandReply? && !keyed ==>
            var w := db.flow.workflows[m.workflow];
            var c := CommandFor(m);
            && reply.command == c && d.flow.commands == db.flow.commands + [c] && d == db.(flow := d.flow)
            && d.flow.workflows == db.flow.workflows[m.workflow := w.(
                 state := m.target, version := c.resulting, updatedAt := m.at, latestCommand := Some(m.command),
                 latestOperation := if m.operation.Some? then m.operation else w.latestOperation)])
  {
    hide Valid, Leads, Edge, Keyed, Repeats, Exec;
    if m.workflow in db.flow.workflows {
      LegalIffLeads(m.name, db.flow.workflows[m.workflow].state, m.target);
    }
    if Keyed(db.flow.commands, m.workflow, m.key) {
      TransitionRepeats(db, m);
    } else {
      TransitionMoves(db, m);
    }
  }

  lemma TransitionRepeats(db: Db, m: W.TransitionArgs)
    requires Valid(db) && Keyed(db.flow.commands, m.workflow, m.key)
    ensures var (d, reply) := Exec(db, Transition(m));
      var own := m.expected.scope == m.workflow && !m.name.AdmitExecutionAndCommitIntent?;
      && d == db
      && (!own ==> reply == Raised(Invalid))
      && (own && (exists c :: Repeats(db.flow.commands, m, c)) ==>
            reply.CommandReply? && Repeats(db.flow.commands, m, reply.command))
      && (own && (forall c :: !Repeats(db.flow.commands, m, c)) ==> reply == Raised(Conflict))
  {
    assert FlowOk(db.flow);
    hide Valid;
    var found := FindCommand(db.flow.commands, m.workflow, m.key);
    forall c | Repeats(db.flow.commands, m, c)
      ensures found == Some(c)
    {
      FoundCommand(db.flow.commands, c);
    }
    hide FlowOk, CommandsUnique;
  }

  lemma TransitionMoves(db: Db, m: W.TransitionArgs)
    requires Valid(db) && !Keyed(db.flow.commands, m.workflow, m.key)
    ensures var (d, reply) := Exec(db, Transition(m));
      var own := m.expected.scope == m.workflow && !m.name.AdmitExecutionAndCommitIntent?;
      var known := m.workflow in db.flow.workflows;
      var current := known && db.flow.workflows[m.workflow].version == m.expected;
      var leads := current && Edge(m.name, db.flow.workflows[m.workflow].state, m.target)
                   && db.flow.workflows[m.workflow].createdAt <= m.at;
      var unused := forall c :: c in db.flow.commands ==> c.id != m.command;
      && (reply.CommandReply? <==> own && leads && unused)
      && (reply == Raised(NotFound) <==> own && !known)
      && (reply == Raised(VersionConflict) <==> own && known && !current)
      && (reply == Raised(Invalid) <==> !own || (current && !leads))
      && (reply == Raised(IntegrityError) <==> own && leads && !unused)
      && reply != Raised(Conflict)
      && (reply.CommandReply? ==>
            var w := db.flow.workflows[m.workflow];
            var c := CommandFor(m);
            && reply.command == c && d.flow.commands == db.flow.commands + [c] && d == db.(flow := d.flow)
            && d.flow.workflows == db.flow.workflows[m.workflow := w.(
                 state := m.target, version := c.resulting, updatedAt := m.at, latestCommand := Some(m.command),
                 latestOperation := if m.operation.Some? then m.operation else w.latestOperation)])
  {
    hide Valid, W.LegalTransition;
    assert FindCommand(db.flow.commands, m.workflow, m.key).None?;
    assert W.LegalTransition(m.name).Some? <==> !m.name.AdmitExecutionAndCommitIntent? by {
      TableCovers(m.name);
    }
    assert CommandClash(db.flow.commands, W.NewCommand(m)) <==> exists c :: c in db.flow.commands && c.id == m.command;
    hide FindCommand, CommandClash;
  }

  lemma TableCovers(name: CommandName)
    ensures W.LegalTransition(name).Some? <==> !name.AdmitExecutionAndCommitIntent?
  {
  }

  // ---------------------------------------------------------------------
  // Requests and decisions
  // ---------------------------------------------------------------------

  /** The workflow awaits authorization of just this request. */
  ghost predicate AwaitedBy(flow: Flow, q: Request) {
    && q.workflow in flow.workflows
    && var w := flow.workflows[q.workflow];
       w.state == AwaitingAuthorization && w.version == q.expected && w.config == q.config && w.proposal == q.proposal
  }

  lemma RequestAnswers(db: Db, id: Id, q: Request)
    ensures var (d, reply) := Exec(db, CreateRequest(id, q));
      var known := q.workflow in db.flow.workflows;
      && (reply == Done <==> AwaitedBy(db.flow, q) && id !in db.grants.requests)
      && (reply == Raised(NotFound) <==> !known)
      && (reply == Raised(Invalid) <==> known && !AwaitedBy(db.flow, q))
      && (reply == Raised(TerminalDecision) <==> AwaitedBy(db.flow, q) && id in db.grants.requests)
      && (reply == Done ==> d == db.(grants := db.grants.(requests := db.grants.requests[id := q])))
  {
  }

  ghost predicate Undecided(g: Grants, request: Id) {
    request in g.requests && request !in g.decisions
  }

  ghost predicate UnusedDecision(g: Grants, id: Id) {
    forall r :: r in g.decisions ==> g.decisions[r].id != id
  }

  /** Rejecting and cancelling decide an undecided request in time, expiring one
      past its time, each under an unused decision id. */
  lemma DecideAnswers(db: Db, c: Call)
    requires c.RejectRequest? || c.CancelRequest? || c.ExpireRequest?
    ensures var (d, reply) := Exec(db, c);
      var g := db.grants;
      var unused := UnusedDecision(g, c.decision);
      && (reply == Raised(NotFound) <==> c.id !in g.requests)
      && (reply == Raised(TerminalDecision) <==> c.id in g.requests && c.id in g.decisions)
      && (Undecided(g, c.id) ==>
            var late := g.requests[c.id].expiresAt <= c.at;
            var kind := if c.RejectRequest? then RejectedRequest
                        else if c.CancelRequest? then CancelledRequest
                        else ExpiredRequest;
            && (reply == Done <==> unused && (late <==> c.ExpireRequest?))
            && (reply == Raised(Invalid) <==> c.ExpireRequest? && !late)
            && (reply == Raised(RequestExpired) <==> unused && late && !c.ExpireRequest?)
            && (reply == Raised(IntegrityError) <==> !unused && (c.ExpireRequest? ==> late))
            && (reply == Done ==>
                  d == db.(grants := g.(decisions := g.decisions[c.id := Decision(c.decision, kind, c.at)]))))
  {
  }

  /** An approval decides an undecided, awaited request in time, for a time
      ahead within the request's, and issues the one authorization it may have. */
  lemma ApproveAnswers(db: Db, a: A.ApproveArgs)
    requires Valid(db)
    ensures var (d, reply) := Exec(db, Approve(a));
      var g := db.grants;
      var unused := UnusedDecision(g, a.decision);
      && (reply == Raised(NotFound) <==> a.request !in g.requests)
      && (a.request in g.decisions ==> reply == Raised(TerminalDecision))
      && (Undecided(g, a.request) ==>
            var q := g.requests[a.request];
            var late := q.expiresAt <= a.at;
            var sound := a.at < a.expiresAt <= q.expiresAt;
            var awaited := AwaitedBy(db.flow, q);
            var first := a.execution !in g.authorizations
                         && forall x :: x in g.authorizations ==> g.authorizations[x].body.request != a.request;
            && (reply.AuthorizationReply? <==> !late && sound && unused && awaited && first)
            && (reply == Raised(RequestExpired) <==> late && unused)
            && (reply == Raised(Invalid) <==> !late && !sound)
            && (reply == Raised(TerminalDecision) <==> !late && sound && unused && !awaited)
            && (reply == Raised(IntegrityError) <==> (late || sound) && (!unused || (!late && awaited && !first)))
            && (reply.AuthorizationReply? ==>
                  var b := Authorization(a.execution, q.workflow, a.request, q.proposal, q.config, q.fingerprint,
                                         q.expected, a.at, a.expiresAt, a.principal, a.decision, a.authority,
                                         q.workspace, q.policies);
                  && reply == AuthorizationReply(b)
                  && d == db.(grants := g.(
                    decisions := g.decisions[a.request := Decision(a.decision, Approved, a.at)],
                    authorizations := g.authorizations[a.execution := AuthorizationRow(Issued, b)],
                    events := g.events + [AuthorizationEvent(a.execution, None, Issued, a.at)]))))
  {
    assert OriginsOk(db.flow.workflows, db.grants.requests, db.grants.decisions, db.grants.authorizations);
    hide Valid;
  }

  /** Invalidating takes an ISSUED authorization, consuming a CONSUMING one; any
      other keeps its state, which is the answer. */
  lemma SettleAnswers(db: Db, c: Call)
    requires c.InvalidateAuthorization? || c.MarkConsumed?
    ensures var (d, reply) := Exec(db, c);
      var g := db.grants;
      var from, target := if c.MarkConsumed? then Consuming else Issued,
                          if c.MarkConsumed? then Consumed else AuthorizationState.Invalidated;
      && (reply == Raised(NotFound) <==> c.id !in g.authorizations)
      && (c.id in g.authorizations ==>
            var row := g.authorizations[c.id];
            if row.state == from then
              && reply == StateReply(target)
              && d == db.(grants := g.(authorizations := g.authorizations[c.id := row.(state := target)],
                                       events := g.events + [AuthorizationEvent(c.id, Some(from), target, c.at)]))
            else reply == StateReply(row.state) && d == db)
  {
  }

  /** What a first presentation of a stored authorization comes to: stored ones
      that are final keep their state; one that is not the stored one, or is
      presented elsewhere, too late, or after its workflow has moved on, ends there. */
  ghost function Outcome(db: Db, b: Authorization, row: AuthorizationRow, authority: Id, at: Time)
    : (AuthorizationState, AdmissionReason)
    requires row.body.request in db.grants.requests
  {
    if row.state != Issued then (row.state, AlreadyFinal)
    else if b != row.body || row.body.authority != authority then (Invalidated, IntegrityFailed)
    else if row.body.expiresAt <= at then (Expired, TooLate)
    else if !AwaitedBy(db.flow, db.grants.requests[row.body.request]) then (Invalidated, WorkflowBindingChanged)
    else (Consuming, AdmittedAlone)
  }

  /** A presented authorization is answered as before, or by its outcome, which
      moves it at most once, with its event. */
  lemma PresentAnswers(db: Db, b: Authorization, authority: Id, at: Time)
    requires Valid(db)
    ensures var (d, reply) := Exec(db, AdmitAuthorization(b, authority, at));
      var g, x := db.grants, b.execution;
      && (reply == Raised(NotFound) <==> x !in g.authorizations)
      && (x in g.admissions ==> reply == AdmissionReply(g.admissions[x]) && d == db)
      && (x in g.authorizations && x !in g.admissions ==>
            var row := g.authorizations[x];
            && row.body.request in g.requests
            && var (target, reason) := Outcome(db, b, row, authority, at);
               var m := Admission(row.body.workflow, if target == Consuming then Admitted else NotAdmitted(target),
                                  reason, at);
               && reply == AdmissionReply(m)
               && d.grants.admissions == g.admissions[x := m]
               && d.grants.authorizations == g.authorizations[x := row.(state := target)]
               && d.grants.events == (if target == row.state then g.events
                                      else g.events + [AuthorizationEvent(x, Some(row.state), target, at)])
               && d == db.(grants := g.(admissions := d.grants.admissions, authorizations := d.grants.authorizations,
                                        events := d.grants.events)))
  {
    var g, x := db.grants, b.execution;
    PresentedRow(db, x);
    hide Valid;
    if x in g.authorizations {
      assert g.authorizations[x := g.authorizations[x]] == g.authorizations;
      if x !in g.admissions {
        VerdictIs(db, b, g.authorizations[x], authority, at);
      }
    }
    hide Outcome, A.AdmissionOutcome;
  }

  lemma PresentedRow(db: Db, x: Id)
    requires Valid(db)
    ensures x in db.grants.admissions ==> x in db.grants.authorizations
    ensures x in db.grants.authorizations ==>
              var row := db.grants.authorizations[x];
              && row.body.request in db.grants.requests && row.body.workflow in db.flow.workflows
              && db.grants.requests[row.body.request].workflow == row.body.workflow
              && (x !in db.grants.admissions ==> row.state in {Issued, Expired, AuthorizationState.Invalidated})
  {
    var g := db.grants;
    assert GrantsOk(g.authorizations, g.events, g.admissions);
    assert OriginsOk(db.flow.workflows, g.requests, g.decisions, g.authorizations);
    hide Valid;
    if x in g.authorizations {
      assert GrantOk(g.authorizations[x], g.events, g.admissions, x);
      assert OriginOk(db.flow.workflows, g.requests, g.decisions, g.authorizations[x].body);
    }
    hide StateFrom, Consumptions;
  }

  lemma VerdictIs(db: Db, b: Authorization, row: AuthorizationRow, authority: Id, at: Time)
    requires row.body.request in db.grants.requests && row.body.workflow in db.flow.workflows
    requires db.grants.requests[row.body.request].workflow == row.body.workflow
    requires row.state in {Issued, Expired, AuthorizationState.Invalidated}
    ensures var (target, reason) := Outcome(db, b, row, authority, at);
      A.AdmissionOutcome(db.flow, db.grants, b, row, authority, at) ==
      Some(A.Verdict(if target == Consuming then Admitted else NotAdmitted(target), target, reason))
  {
  }

  // ---------------------------------------------------------------------
  // Intents, observations and classifications
  // ---------------------------------------------------------------------

  /** The workflow is executing, or rolling back, this intent's operation at its version. */
  ghost predicate Performs(flow: Flow, i: Intent) {
    && i.workflow in flow.workflows
    && var w := flow.workflows[i.workflow];
       && w.version == i.version && w.latestOperation == Some(i.operation)
       && (w.state == Executing || w.state == RollingBack)
  }

  lemma IntentAnswers(db: Db, i: Intent)
    ensures var (d, reply) := Exec(db, CommitIntent(i));
      var ev, known := db.evidence, i.workflow in db.flow.workflows;
      && (i.id in ev.intents ==> d == db && reply == if ev.intents[i.id] == i then Done else Raised(Conflict))
      && (i.id !in ev.intents ==>
            && (reply == Done <==> Performs(db.flow, i)) && (reply == Raised(NotFound) <==> !known)
            && (reply == Raised(Conflict) <==> known && !Performs(db.flow, i))
            && (reply == Done ==> d == db.(evidence := ev.(intents := ev.intents[i.id := i]))))
  {
  }

  lemma ObservationAnswers(db: Db, o: Observation)
    ensures var (d, reply) := Exec(db, AppendObservation(o));
      var ev := db.evidence;
      var own := o.intent in ev.intents && ev.intents[o.intent].operation == o.operation;
      && (reply == Raised(NotFound) <==> o.intent !in ev.intents)
      && (reply == Done <==> own && (o.id in ev.observations ==> ev.observations[o.id] == o))
      && (reply == Raised(Conflict) <==> o.intent in ev.intents && reply != Done)
      && (reply == Done ==> d == db.(evidence := ev.(observations := ev.observations[o.id := o])))
  {
    var ev := db.evidence;
    assert o.id in ev.observations && ev.observations[o.id] == o ==> ev.observations[o.id := o] == ev.observations;
  }

  /** A classification is stored exactly when its id is new and it is what its
      listed observations show; an equal repeat is answered alike. */
  lemma ClassificationAnswers(db: Db, r: Record)
    requires Valid(db)
    ensures var (d, reply) := Exec(db, RecordClassification(r));
      var ev := db.evidence;
      var unused := forall s :: s in ev.records ==> s.id != r.id;
      && (reply == Done <==> Classified(ev, r) && (unused || r in ev.records))
      && (reply == Raised(NotFound) <==> r.intent !in ev.intents)
      && (reply == Raised(Invalid) <==> r.intent in ev.intents && reply != Done)
      && (reply == Done ==> d == db.(evidence := ev.(records := if unused then ev.records + [r] else ev.records)))
  {
    assert EvidenceOk(db.evidence);
    RecordAnswered(db.evidence, r);
    ExecRecord(db, r);
    hide Valid, EvidenceOk, Classified, R.RecordSpec, Exec;
  }

  lemma ExecRecord(db: Db, r: Record)
    ensures var (after, answer) := R.RecordSpec(db.evidence, r);
      Exec(db, RecordClassification(r)) == (db.(evidence := after), if answer.Ok? then Done else Raised(answer.error))
  {
    hide R.RecordSpec;
  }

  lemma RecordAnswered(ev: Evidence, r: Record)
    requires EvidenceOk(ev)
    ensures var (after, answer) := R.RecordSpec(ev, r);
      var unused := forall s :: s in ev.records ==> s.id != r.id;
      && (answer.Ok? <==> Classified(ev, r) && (unused || r in ev.records))
      && (answer == Err(NotFound) <==> r.intent !in ev.intents)
      && (answer == Err(Invalid) <==> r.intent in ev.intents && !answer.Ok?)
      && (answer.Ok? ==> after == ev.(records := if unused then ev.records + [r] else ev.records))
      && (!answer.Ok? ==> after == ev)
  {
    ClassifiedIff(ev, r);
    UnsupportedIs(ev, r);
    if r in ev.records {
      FoundRecord(ev.records, r);
    }
    hide R.Unsupported, R.FindRecord, Classified;
  }

  lemma UnsupportedIs(ev: Evidence, r: Record)
    ensures var u := R.Unsupported(ev.intents, ev.observations, r);
      u.None? || u == Some(if r.intent in ev.intents then Invalid else NotFound)
    ensures r.intent !in ev.intents ==> R.Unsupported(ev.intents, ev.observations, r) == Some(NotFound)
  {
    hide R.Supports, R.Listed, R.Gather;
  }

  lemma FoundRecord(records: seq<Record>, r: Record)
    requires r in records && forall i, j :: 0 <= i < j < |records| ==> records[i].id != records[j].id
    ensures R.FindRecord(records, r.id) == Some(r)
  {
    var i :| 0 <= i < |records| && records[i] == r;
    var found := R.FindRecord(records, r.id);
    assert found.Some?;
    var j :| 0 <= j < |records| && records[j] == found.value;
  }

  // ---------------------------------------------------------------------
  // Execution admission
  // ---------------------------------------------------------------------

  /** The intent and the call repeat every term of the authorization, for the workflow's next version. */
  ghost predicate SameTerms(a: C.AdmitArgs) {
    var b, i := a.authorization, a.intent;
    && i.workflow == b.workflow && i.execution == b.execution && i.digest == b.proposal && i.config == b.config
    && i.fingerprint == b.fingerprint && i.workspace == b.workspace && i.policies == b.policies
    && i.version.scope == b.workflow && i.version.counter == b.expected.counter + 1 && i.owner == a.owner
  }

  /** The stored authorization is just this one, issued, in time and never presented. */
  ghost predicate InForce(g: Grants, b: Authorization, at: Time) {
    && b.execution in g.authorizations && g.authorizations[b.execution].state == Issued
    && g.authorizations[b.execution].body == b && at < b.expiresAt && b.execution !in g.admissions
  }

  /** The workflow awaits the authorization of just this proposal, at the version it was given for. */
  ghost predicate Awaits(flow: Flow, b: Authorization) {
    && b.workflow in flow.workflows
    && var w := flow.workflows[b.workflow];
       w.state == AwaitingAuthorization && w.version == b.expected && w.config == b.config && w.proposal == b.proposal
  }

  /** None of the ids a first admission would store is in use. */
  ghost predicate UnusedIds(db: Db, a: C.AdmitArgs) {
    var i := a.intent;
    && (forall c :: c in db.flow.commands ==> c.id != a.command && (c.workflow, c.key) != (i.workflow, a.key))
    && (forall s :: s in db.fences.leases ==> db.fences.leases[s].id != i.lease)
    && (forall e :: e in db.envelopes ==>
          e.admission != a.admission && e.execution != i.execution && e.operation != i.operation && e.intent != i.id)
  }

  ghost predicate EnvelopeFor(db: Db, a: C.AdmitArgs, e: Envelope) {
    e in db.envelopes && e.workflow == a.intent.workflow && e.key == a.key
  }

  /** What a first admission asks of the stored rows before any id is stored. */
  ghost predicate Open(db: Db, a: C.AdmitArgs) {
    InForce(db.grants, a.authorization, a.at) && Awaits(db.flow, a.authorization)
    && Scope(a.service, a.intent.config) !in db.fences.leases
  }

  ghost predicate UnusedCommand(db: Db, a: C.AdmitArgs) {
    forall c :: c in db.flow.commands ==> c.id != a.command && (c.workflow, c.key) != (a.intent.workflow, a.key)
  }

  /** A first admission succeeds exactly when the lease ends ahead, the terms
      agree, the authorization is in force, its workflow awaits it and is not
      younger, the scope is free, the intent is new and carries the scope's next
      token, and no other id is in use. Each refusal names what is missing. */
  lemma AdmissionSucceedsIff(db: Db, a: C.AdmitArgs)
    requires Valid(db) && forall e :: !EnvelopeFor(db, a, e)
    ensures var (d, reply) := Exec(db, AdmitAndBeginWrite(a));
      var asked := a.at < a.leaseExpiresAt && SameTerms(a);
      var open := asked && Open(db, a);
      var isNew := open && a.intent.id !in db.evidence.intents;
      var timely := isNew && db.flow.workflows[a.authorization.workflow].createdAt <= a.at;
      var next := a.intent.token == NextToken(db, Scope(a.service, a.intent.config));
      && (reply.EnvelopeReply? <==> timely && next && UnusedIds(db, a))
      && (reply == Raised(AdmissionRejected) <==>
            || (a.at < a.leaseExpiresAt && (!SameTerms(a) || !Open(db, a)))
            || (timely && UnusedCommand(db, a) && !next))
      && (reply == Raised(Conflict) <==> open && !isNew)
      && (reply == Raised(Invalid) <==> a.leaseExpiresAt <= a.at || (isNew && !timely))
      && (reply == Raised(IntegrityError) <==>
            timely && (!UnusedCommand(db, a) || (next && !UnusedIds(db, a))))
  {
    NoEnvelope(db, a);
    AlignedIff(a);
    ExecAdmission(db, a);
    hide Exec, Valid, C.Aligned, SameTerms, FindEnvelope, EnvelopeFor, C.Refusal, C.Committed, Open, UnusedIds,
         UnusedCommand;
    if C.Aligned(a) {
      RefusalAnswers(db, a);
    }
  }

  lemma ExecAdmission(db: Db, a: C.AdmitArgs)
    ensures var (d, answer) := C.AdmitAndBeginWriteSpec(db, a);
      Exec(db, AdmitAndBeginWrite(a)) == (d, if answer.Ok? then EnvelopeReply(answer.value) else Raised(answer.error))
  {
    hide C.AdmitAndBeginWriteSpec;
  }

  lemma NoEnvelope(db: Db, a: C.AdmitArgs)
    requires forall e :: !EnvelopeFor(db, a, e)
    ensures FindEnvelope(db.envelopes, a.intent.workflow, a.key).None?
  {
    var found := FindEnvelope(db.envelopes, a.intent.workflow, a.key);
    if found.Some? {
      assert EnvelopeFor(db, a, found.value);
    }
  }

  lemma RefusalAnswers(db: Db, a: C.AdmitArgs)
    requires Valid(db) && C.Aligned(a) && forall e :: !EnvelopeFor(db, a, e)
    ensures Open(db, a) ==> a.authorization.workflow in db.flow.workflows
    ensures var isNew := Open(db, a) && a.intent.id !in db.evidence.intents;
      var timely := isNew && db.flow.workflows[a.authorization.workflow].createdAt <= a.at;
      var next := a.intent.token == NextToken(db, Scope(a.service, a.intent.config));
      C.Refusal(db, a) ==
        if !Open(db, a) then Some(AdmissionRejected)
        else if !isNew then Some(Conflict)
        else if !timely then Some(Invalid)
        else if !UnusedCommand(db, a) then Some(IntegrityError)
        else if !next then Some(AdmissionRejected)
        else if !UnusedIds(db, a) then Some(IntegrityError)
        else None
  {
    assert ScopeLogOk(db.fences, Scope(a.service, a.intent.config));
    AlignedIff(a);
    UsableIff(db, a);
    hide Valid, C.Aligned, C.Usable, InForce, Fold;
    assert CommandClash(db.flow.commands, C.AdmitCommand(a)) <==> !UnusedCommand(db, a);
    if Open(db, a) {
      UnusedIff(db, a);
    }
    hide CommandClash, EnvelopeClash, LeaseClash, UnusedIds, UnusedCommand, EnvelopeFor;
  }

  lemma AlignedIff(a: C.AdmitArgs)
    ensures C.Aligned(a) <==> SameTerms(a)
    ensures C.Aligned(a) ==> a.intent.workflow == a.authorization.workflow && a.intent.config == a.authorization.config
                             && a.intent.digest == a.authorization.proposal
  {
  }

  lemma UsableIff(db: Db, a: C.AdmitArgs)
    ensures C.Usable(db, a) <==> InForce(db.grants, a.authorization, a.at)
  {
  }

  lemma UnusedIff(db: Db, a: C.AdmitArgs)
    requires C.ScopeFor(a) !in db.fences.leases && forall e :: !EnvelopeFor(db, a, e)
    ensures UnusedIds(db, a) <==>
              && !CommandClash(db.flow.commands, C.AdmitCommand(a)) && !EnvelopeClash(db.envelopes, C.NewEnvelope(a))
              && !LeaseClash(db.fences.leases, C.HeldLease(a, a.intent.token))
  {
    forall e | e in db.envelopes
      ensures (e.workflow, e.key) != (a.intent.workflow, a.key)
    {
      assert !EnvelopeFor(db, a, e);
    }
  }

  /** A first admission that succeeds commits, together: the command, the move to
      EXECUTING, the lease with its call started and three events, the intent, the
      authorization's move with its event and answer, and the envelope. */
  lemma AdmissionCommits(db: Db, a: C.AdmitArgs)
    requires Valid(db) && (forall e :: !EnvelopeFor(db, a, e)) && Exec(db, AdmitAndBeginWrite(a)).1.EnvelopeReply?
    ensures var (d, reply) := Exec(db, AdmitAndBeginWrite(a));
      var i, b, s := a.intent, a.authorization, Scope(a.service, a.intent.config);
      var c := Command(a.command, i.workflow, AdmitExecutionAndCommitIntent, a.key, i.digest, b.expected, i.version,
                       Some(i.operation), a.at);
      var l := Lease(i.lease, s, i.workflow, i.version, i.token, LeaseMode.Execution, HeldExecution, a.at,
                     a.leaseExpiresAt, a.owner, Some(i.operation));
      var e := Envelope(a.admission, i.workflow, a.key, i.version, a.command, i.operation, i.execution, i.lease,
                        i.token, i.id, i.digest, a.at);
      && reply == EnvelopeReply(e) && i.workflow in db.flow.workflows
      && d.flow == Flow(db.flow.workflows[i.workflow := db.flow.workflows[i.workflow].(
        state := Executing, version := i.version, updatedAt := a.at, latestCommand := Some(a.command),
        latestOperation := Some(i.operation))], db.flow.commands + [c])
      && d.grants == db.grants.(
        authorizations := db.grants.authorizations[b.execution := AuthorizationRow(Consuming, b)],
        events := db.grants.events + [AuthorizationEvent(b.execution, Some(Issued), Consuming, a.at)],
        admissions := db.grants.admissions[
          b.execution := Admission(b.workflow, Admitted, AtomicExecutionAdmission, a.at)])
      && d.fences == Fences(db.fences.counters[s := i.token], db.fences.leases[s := l], db.fences.events + [
        LeaseEvent(i.lease, s, i.workflow, i.version, i.token, AcquireAttempted, a.at, Available, HeldExecution, None),
        LeaseEvent(i.lease, s, i.workflow, i.version, i.token, LeaseEventKind.Acquired, a.at, Available, HeldExecution,
                   None),
        LeaseEvent(i.lease, s, i.workflow, i.version, i.token, AtomicCallStarted, a.at, HeldExecution, HeldExecution,
                   Some(i.operation))])
      && d.evidence == db.evidence.(intents := db.evidence.intents[i.id := i]) && d.envelopes == db.envelopes + [e]
  {
    NoEnvelope(db, a);
    ExecAdmission(db, a);
    hide C.Refusal, Valid, C.Aligned, C.Usable, CommandClash, LeaseClash, EnvelopeClash, FindEnvelope, EnvelopeFor,
         Exec;
  }

  /** A repeated admission is answered by its envelope exactly when it is for the
      same intent, execution and proposal; whatever is refused changes nothing. */
  lemma AdmissionRepeats(db: Db, a: C.AdmitArgs, e: Envelope)
    requires Valid(db) && EnvelopeFor(db, a, e)
    ensures var (d, reply) := Exec(db, AdmitAndBeginWrite(a));
      var asked := a.at < a.leaseExpiresAt && SameTerms(a);
      var same := e.digest == a.intent.digest && e.execution == a.intent.execution && e.intent == a.intent.id;
      && d == db && (reply == EnvelopeReply(e) <==> asked && same)
      && (reply == Raised(Conflict) <==> asked && !same)
      && (reply == Raised(Invalid) <==> a.leaseExpiresAt <= a.at)
      && (reply == Raised(AdmissionRejected) <==> a.at < a.leaseExpiresAt && !SameTerms(a))
  {
    assert OnePerWorkflow(db.envelopes);
    FoundEnvelope(db.envelopes, e);
    AlignedIff(a);
    ExecAdmission(db, a);
    hide Valid, C.Aligned, SameTerms, OnePerWorkflow, FindEnvelope, C.Refusal, C.Committed, EvidenceOk, EnvelopesOk,
         Exec;
  }
}
