/** Every public call keeps the joint invariant. */
module ProtocolPreservation {
  import opened Common
  import opened Tables
  import opened Leases
  import opened Protocol
  import opened ProtocolInvariant
  import W = Workflows
  import A = Approvals
  import R = Reconciliation
  import C = Coordinator

  // ---------------------------------------------------------------------
  // The logs, one event at a time
  // ---------------------------------------------------------------------

  lemma FoldAppend(events: seq<LeaseEvent>, e: LeaseEvent, s: Scope)
    ensures Fold(events + [e], s) == if e.scope == s then Replay(Fold(events, s), e) else Fold(events, s)
    ensures Tokens(events + [e], s) == Tokens(events, s) + if e.scope == s && e.kind.Acquired? then [e.token] else []
  {
    assert (events + [e])[..|events|] == events;
  }

  lemma StateFromAppend(events: seq<AuthorizationEvent>, e: AuthorizationEvent, x: Id)
    ensures StateFrom(events + [e], x) == if e.execution == x then Some(e.after) else StateFrom(events, x)
    ensures Consumptions(events + [e], x) ==
            Consumptions(events, x)
            + if e.execution == x && e.before == Some(Issued) && e.after == Consuming then 1 else 0
  {
    assert (events + [e])[..|events|] == events;
  }

  lemma {:induction false} NeverMentioned(events: seq<AuthorizationEvent>, x: Id)
    requires forall e :: e in events ==> e.execution != x
    ensures Consumptions(events, x) == 0
  {
    if events == [] {
    } else {
      assert events[|events| - 1] in events;
      NeverMentioned(events[..|events| - 1], x);
    }
  }

  // ---------------------------------------------------------------------
  // Workflow tables
  // ---------------------------------------------------------------------

  lemma CommandsStayUnique(commands: seq<Command>, c: Command)
    requires CommandsUnique(commands) && !CommandClash(commands, c)
    ensures CommandsUnique(commands + [c])
  {
    forall i, j | 0 <= i < j < |commands + [c]|
      ensures var cs := commands + [c];
        cs[i].id != cs[j].id && (cs[i].workflow, cs[i].key) != (cs[j].workflow, cs[j].key)
    {
      if j == |commands| {
        assert commands[i] in commands;
      }
    }
  }

  lemma MovedFlowOk(flow: Flow, w: Workflow, c: Command)
    requires FlowOk(flow) && !CommandClash(flow.commands, c)
    requires c.workflow in flow.workflows && w.version.scope == c.workflow
    ensures FlowOk(Flow(flow.workflows[c.workflow := w], flow.commands + [c]))
  {
    CommandsStayUnique(flow.commands, c);
    hide CommandsUnique, CommandClash;
  }

  lemma TransitionFlowOk(flow: Flow, a: W.TransitionArgs)
    requires FlowOk(flow)
    ensures var d := W.TransitionSpec(flow, a).0;
      && FlowOk(d)
      && (forall c :: c in d.commands && c.name.AdmitExecutionAndCommitIntent? ==> c in flow.commands)
  {
    hide FindCommand, CommandClash, FlowOk;
    var d := W.TransitionSpec(flow, a).0;
    if d != flow {
      MovedFlowOk(flow, W.Moved(flow.workflows[a.workflow], a.target, W.NewCommand(a)), W.NewCommand(a));
    }
  }

  lemma LeaseRowsStable(before: Flow, after: Flow, counters: map<Scope, nat>, leases: map<Scope, Lease>)
    requires LeaseRowsOk(before.workflows, counters, leases) && FlowGrows(before, after)
    ensures LeaseRowsOk(after.workflows, counters, leases)
  {
    forall s | s in leases
      ensures LeaseRowOk(after.workflows, counters, s, leases[s])
    {
      assert LeaseRowOk(before.workflows, counters, s, leases[s]);
    }
  }

  lemma OriginsStable(before: Flow, after: Flow, grants: Grants)
    requires OriginsOk(before.workflows, grants.requests, grants.decisions, grants.authorizations)
             && FlowGrows(before, after)
    ensures OriginsOk(after.workflows, grants.requests, grants.decisions, grants.authorizations)
  {
    forall x | x in grants.authorizations
      ensures OriginOk(after.workflows, grants.requests, grants.decisions, grants.authorizations[x].body)
    {
      assert OriginOk(before.workflows, grants.requests, grants.decisions, grants.authorizations[x].body);
    }
  }

  // ---------------------------------------------------------------------
  // Lease tables
  // ---------------------------------------------------------------------

  /** A row whose id no other scope uses can be written without breaking uniqueness. */
  lemma RowWritten(workflows: map<Id, Workflow>, counters: map<Scope, nat>, leases: map<Scope, Lease>, l: Lease,
                   counters': map<Scope, nat>)
    requires LeaseRowsOk(workflows, counters, leases) && !LeaseClash(leases, l)
    requires LeaseRowOk(workflows, counters', l.scope, l)
    requires forall s :: s != l.scope ==> LastToken(counters', s) == LastToken(counters, s)
    ensures LeaseRowsOk(workflows, counters', leases[l.scope := l])
  {
    var after := leases[l.scope := l];
    forall s | s in after
      ensures LeaseRowOk(workflows, counters', s, after[s])
    {
      if s != l.scope {
        assert LeaseRowOk(workflows, counters, s, leases[s]);
      }
    }
  }

  lemma RowRemoved(workflows: map<Id, Workflow>, counters: map<Scope, nat>, leases: map<Scope, Lease>, s: Scope)
    requires LeaseRowsOk(workflows, counters, leases)
    ensures LeaseRowsOk(workflows, counters, Without(leases, s))
  {
  }

  /** Appending one event that no token comes from, with the row change it describes. */
  lemma Logged(before: Fences, after: Fences, e: LeaseEvent)
    requires LeaseLogOk(before)
    requires after.counters == before.counters && after.events == before.events + [e] && !e.kind.Acquired?
    requires forall s :: s != e.scope ==> RowView(after.leases, s) == RowView(before.leases, s)
    requires RowView(after.leases, e.scope) == Replay(RowView(before.leases, e.scope), e)
    ensures LeaseLogOk(after)
  {
    forall s
      ensures ScopeLogOk(after, s)
    {
      assert ScopeLogOk(before, s);
      FoldAppend(before.events, e, s);
      hide Fold, Tokens, RowView, Replay;
    }
  }

  /** A fresh lease: its attempt, its row with the next token, its acquisition. */
  function Granted(fences: Fences, l: Lease, at: Time): Fences {
    Fences(fences.counters[l.scope := l.token], fences.leases[l.scope := l],
           fences.events + [Event(l, AcquireAttempted, at, Available, l.state, None),
                            Event(l, Acquired, at, Available, l.state, None)])
  }

  lemma GrantedLog(fences: Fences, l: Lease, at: Time)
    requires LeaseLogOk(fences) && l.operation.None? && l.token == LastToken(fences.counters, l.scope) + 1
    ensures LeaseLogOk(Granted(fences, l, at))
  {
    var attempt, acquired := Event(l, AcquireAttempted, at, Available, l.state, None),
                             Event(l, Acquired, at, Available, l.state, None);
    assert Granted(fences, l, at).events == (fences.events + [attempt]) + [acquired];
    forall s
      ensures ScopeLogOk(Granted(fences, l, at), s)
    {
      assert ScopeLogOk(fences, s);
      FoldAppend(fences.events, attempt, s);
      FoldAppend(fences.events + [attempt], acquired, s);
      hide Fold, Tokens;
    }
  }

  ghost predicate FencesOk(flow: Flow, fences: Fences) {
    LeaseRowsOk(flow.workflows, fences.counters, fences.leases) && LeaseLogOk(fences)
  }

  lemma AcquireOk(flow: Flow, fences: Fences, a: AcquireArgs)
    requires FencesOk(flow, fences)
    ensures FencesOk(flow, AcquireSpec(flow, fences, a).0)
  {
    hide LeaseClash, LeaseLogOk, LeaseRowsOk, UniqueLeaseIds;
    var d := AcquireSpec(flow, fences, a).0;
    if d != fences {
      var l := NewLease(fences, a);
      assert d == Granted(fences, l, a.issuedAt);
      GrantedLog(fences, l, a.issuedAt);
      RowWritten(flow.workflows, fences.counters, fences.leases, l, d.counters);
    }
  }

  lemma RefusalLogged(flow: Flow, fences: Fences, l: Lease, c: Claim, operation: Option<Id>, why: StaleReason)
    requires FencesOk(flow, fences) && c.token > 0
    ensures FencesOk(flow, Refuse(fences, l, c, operation, why).0)
  {
    Logged(fences, Refuse(fences, l, c, operation, why).0, StaleEvent(l, c, operation));
    hide LeaseLogOk;
  }

  /** A row is rewritten in place with the event that describes it. */
  lemma RowRewritten(flow: Flow, fences: Fences, next: Lease, e: LeaseEvent)
    requires FencesOk(flow, fences) && next.scope in fences.leases && next.id == fences.leases[next.scope].id
    requires LeaseRowOk(flow.workflows, fences.counters, next.scope, next)
    requires e.scope == next.scope && !e.kind.Acquired?
    requires Replay(Some(ViewOf(fences.leases[next.scope])), e) == Some(ViewOf(next))
    ensures FencesOk(flow, fences.(leases := fences.leases[next.scope := next], events := fences.events + [e]))
  {
    Logged(fences, fences.(leases := fences.leases[next.scope := next], events := fences.events + [e]), e);
    hide LeaseLogOk;
    RowWritten(flow.workflows, fences.counters, fences.leases, next, fences.counters);
    hide LeaseRowsOk;
  }

  /** A row is deleted with the event that describes it. */
  lemma RowFreed(flow: Flow, fences: Fences, e: LeaseEvent)
    requires FencesOk(flow, fences) && e.scope in fences.leases && !e.kind.Acquired?
    requires Replay(Some(ViewOf(fences.leases[e.scope])), e).None?
    ensures FencesOk(flow, fences.(leases := Without(fences.leases, e.scope), events := fences.events + [e]))
  {
    Logged(fences, fences.(leases := Without(fences.leases, e.scope), events := fences.events + [e]), e);
    RowRemoved(flow.workflows, fences.counters, fences.leases, e.scope);
    hide LeaseLogOk, LeaseRowsOk;
  }

  lemma ReleaseOk(flow: Flow, fences: Fences, c: Claim, forAuthorization: bool)
    requires FencesOk(flow, fences)
    ensures FencesOk(flow, ReleaseSpec(flow, fences, c, forAuthorization).0)
  {
    hide LeaseLogOk, Without, UniqueLeaseIds;
    var found := ScopeOf(fences.leases, c.lease);
    if found.Some? && c.token > 0 {
      var lease := fences.leases[found.value];
      assert LeaseRowOk(flow.workflows, fences.counters, found.value, lease);
      var why := HolderFailure(flow, lease, c, true);
      hide HolderFailure;
      if why.Some? {
        RefusalLogged(flow, fences, lease, c, None, why.value);
      } else if forAuthorization && lease.mode != Preview {
        RefusalLogged(flow, fences, lease, c, None, NotPreview);
      } else {
        var kind := if forAuthorization then ReleasedForAuthorization else LeaseEventKind.Released;
        assert lease.scope == found.value;
        RowFreed(flow, fences, Event(lease, kind, c.at, lease.state, Available, None));
      }
    }
  }

  lemma StartOk(flow: Flow, fences: Fences, c: Claim, operation: Id)
    requires FencesOk(flow, fences)
    ensures FencesOk(flow, StartCallSpec(flow, fences, c, operation).0)
  {
    hide LeaseLogOk, UniqueLeaseIds;
    var found := ScopeOf(fences.leases, c.lease);
    if found.Some? && c.token > 0 {
      var lease := fences.leases[found.value];
      assert LeaseRowOk(flow.workflows, fences.counters, found.value, lease);
      var why := HolderFailure(flow, lease, c, true);
      if why.Some? {
        RefusalLogged(flow, fences, lease, c, None, why.value);
      } else {
        var next := lease.(operation := Some(operation));
        RowRewritten(flow, fences, next,
                     Event(next, AtomicCallStarted, c.at, lease.state, next.state, Some(operation)));
      }
    }
  }

  lemma FinishOk(flow: Flow, fences: Fences, c: Claim, operation: Id)
    requires FencesOk(flow, fences)
    ensures FencesOk(flow, FinishCallSpec(flow, fences, c, operation).0)
  {
    hide LeaseLogOk, UniqueLeaseIds;
    var found := ScopeOf(fences.leases, c.lease);
    if found.Some? && c.token > 0 {
      var lease := fences.leases[found.value];
      assert LeaseRowOk(flow.workflows, fences.counters, found.value, lease);
      var why := HolderFailure(flow, lease, c, false);
      if why.Some? {
        RefusalLogged(flow, fences, lease, c, Some(operation), why.value);
      } else if lease.operation != Some(operation) {
        RefusalLogged(flow, fences, lease, c, Some(operation), OperationMismatch);
      } else {
        var next := lease.(operation := None);
        RowRewritten(flow, fences, next,
                     Event(next, AtomicCallFinished, c.at, lease.state, next.state, Some(operation)));
      }
    }
  }

  lemma ExpireOk(flow: Flow, fences: Fences, scope: Scope, at: Time)
    requires FencesOk(flow, fences)
    ensures FencesOk(flow, ExpireSpec(fences, scope, at).0)
  {
    hide LeaseLogOk, UniqueLeaseIds, Without;
    if scope in fences.leases {
      var lease := fences.leases[scope];
      assert LeaseRowOk(flow.workflows, fences.counters, scope, lease);
      if Held(lease.state) && at >= lease.expiresAt {
        if lease.operation.None? {
          var next := lease.(state := LeaseExpired);
          RowFreed(flow, fences, Event(next, ExpiredLease, at, lease.state, next.state, None));
        } else {
          var next := lease.(state := InFlightExpired);
          RowRewritten(flow, fences, next, Event(next, ExpiredLease, at, lease.state, next.state, lease.operation));
        }
      }
    }
  }

  lemma LeaseCallOk(db: Db, c: Call)
    requires IsLeaseCall(c) && FencesOk(db.flow, db.fences)
    ensures FencesOk(db.flow, Exec(db, c).0.fences)
  {
    hide AcquireSpec, ReleaseSpec, StartCallSpec, FinishCallSpec, ExpireSpec, FencesOk;
    if c.Acquire? {
      AcquireOk(db.flow, db.fences, c.lease);
    } else if c.ExpireLease? {
      ExpireOk(db.flow, db.fences, c.scope, c.at);
    } else if c.StartAtomicCall? {
      StartOk(db.flow, db.fences, c.claim, c.operation);
    } else if c.FinishAtomicCall? {
      FinishOk(db.flow, db.fences, c.claim, c.operation);
    } else {
      ReleaseOk(db.flow, db.fences, c.claim, c.ReleaseForAuthorization?);
    }
  }

  // ---------------------------------------------------------------------
  // Approval tables
  // ---------------------------------------------------------------------

  /** One authorization row moves with its event; the others do not notice. */
  lemma GrantMoves(authorizations: map<Id, AuthorizationRow>, events: seq<AuthorizationEvent>,
                   admissions: map<Id, Admission>, x: Id, row: AuthorizationRow, e: AuthorizationEvent,
                   admissions': map<Id, Admission>)
    requires GrantsOk(authorizations, events, admissions) && e.execution == x
    requires forall y :: y != x ==> (y in admissions' <==> y in admissions)
                                    && (y in admissions ==> admissions'[y] == admissions[y])
    requires GrantOk(row, events + [e], admissions', x)
    ensures GrantsOk(authorizations[x := row], events + [e], admissions')
  {
    var after := authorizations[x := row];
    forall y | y in after
      ensures GrantOk(after[y], events + [e], admissions', y)
    {
      if y != x {
        assert GrantOk(authorizations[y], events, admissions, y);
        StateFromAppend(events, e, y);
        hide StateFrom, Consumptions;
      }
    }
    forall f | f in events + [e]
      ensures f.execution in after
    {
      assert f in events || f == e;
    }
  }

  /** A stored authorization's state change, before and after in agreement with its admission. */
  lemma StateMoves(grants: Grants, x: Id, after: AuthorizationState, at: Time, admissions: map<Id, Admission>)
    requires GrantsOk(grants.authorizations, grants.events, grants.admissions) && x in grants.authorizations
    requires forall y :: y != x ==> (y in admissions <==> y in grants.admissions)
                                    && (y in admissions ==> admissions[y] == grants.admissions[y])
    requires var before := grants.authorizations[x].state;
      || (before.Issued? && after.Consuming? && x in admissions && admissions[x].status.Admitted?)
      || (before.Issued? && (after.Invalidated? || after.Expired?)
          && (x in admissions ==> !admissions[x].status.Admitted?))
      || (before.Consuming? && after.Consumed? && admissions == grants.admissions)
    requires x in admissions ==> !admissions[x].reason.UnsafeAuthorizationState?
    ensures var d := A.SetState(grants, x, after, at); GrantsOk(d.authorizations, d.events, admissions)
  {
    var row := grants.authorizations[x];
    var e := AuthorizationEvent(x, Some(row.state), after, at);
    assert GrantOk(row, grants.events, grants.admissions, x);
    StateFromAppend(grants.events, e, x);
    hide StateFrom, Consumptions;
    GrantMoves(grants.authorizations, grants.events, grants.admissions, x, row.(state := after), e, admissions);
  }

  /** An admission noted for an authorization that is already expired or invalidated. */
  lemma GrantNoted(grants: Grants, x: Id, admission: Admission)
    requires GrantsOk(grants.authorizations, grants.events, grants.admissions) && x in grants.authorizations
    requires grants.authorizations[x].state.Expired? || grants.authorizations[x].state.Invalidated?
    requires !admission.status.Admitted? && !admission.reason.UnsafeAuthorizationState?
    ensures GrantsOk(grants.authorizations, grants.events, grants.admissions[x := admission])
  {
    hide StateFrom, Consumptions;
    forall y | y in grants.authorizations
      ensures GrantOk(grants.authorizations[y], grants.events, grants.admissions[x := admission], y)
    {
      assert GrantOk(grants.authorizations[y], grants.events, grants.admissions, y);
    }
  }

  ghost predicate AuthorityOk(flow: Flow, grants: Grants) {
    && GrantsOk(grants.authorizations, grants.events, grants.admissions)
    && OriginsOk(flow.workflows, grants.requests, grants.decisions, grants.authorizations)
  }

  lemma ApproveGrantsOk(flow: Flow, grants: Grants, a: A.ApproveArgs)
    requires GrantsOk(grants.authorizations, grants.events, grants.admissions)
    ensures var d := A.ApproveSpec(flow, grants, a).0; GrantsOk(d.authorizations, d.events, d.admissions)
  {
    hide A.DecisionClash, A.Matches;
    if A.ApproveSpec(flow, grants, a).1.Ok? {
      var e := AuthorizationEvent(a.execution, None, Issued, a.at);
      var row := AuthorizationRow(Issued, A.NewAuthorization(grants.requests[a.request], a));
      NeverMentioned(grants.events, a.execution);
      StateFromAppend(grants.events, e, a.execution);
      assert GrantOk(row, grants.events + [e], grants.admissions, a.execution);
      GrantMoves(grants.authorizations, grants.events, grants.admissions, a.execution, row, e, grants.admissions);
    }
  }

  lemma ApproveOriginsOk(flow: Flow, grants: Grants, a: A.ApproveArgs)
    requires OriginsOk(flow.workflows, grants.requests, grants.decisions, grants.authorizations)
    ensures var d := A.ApproveSpec(flow, grants, a).0;
      OriginsOk(flow.workflows, d.requests, d.decisions, d.authorizations)
  {
    hide A.DecisionClash;
    var d := A.ApproveSpec(flow, grants, a).0;
    if d != grants {
      forall x | x in d.authorizations
        ensures OriginOk(flow.workflows, d.requests, d.decisions, d.authorizations[x].body)
      {
        if x != a.execution {
          assert OriginOk(flow.workflows, grants.requests, grants.decisions, grants.authorizations[x].body);
        }
      }
    }
  }

  /** A new request, or a decision on an undecided one, leaves every authorization's origin alone. */
  lemma RequestOriginsOk(flow: Flow, grants: Grants, requests: map<Id, Request>, decisions: map<Id, Decision>)
    requires OriginsOk(flow.workflows, grants.requests, grants.decisions, grants.authorizations)
    requires Keeps(grants.requests, requests) && Keeps(grants.decisions, decisions)
    requires forall r :: r in requests ==> requests[r].workflow in flow.workflows
    requires forall r :: r in decisions ==> r in requests
    ensures OriginsOk(flow.workflows, requests, decisions, grants.authorizations)
  {
    forall x | x in grants.authorizations
      ensures OriginOk(flow.workflows, requests, decisions, grants.authorizations[x].body)
    {
      assert OriginOk(flow.workflows, grants.requests, grants.decisions, grants.authorizations[x].body);
    }
  }

  lemma CreateRequestOk(flow: Flow, grants: Grants, id: Id, q: Request)
    requires AuthorityOk(flow, grants)
    ensures AuthorityOk(flow, A.CreateRequestSpec(flow, grants, id, q).0)
  {
    hide GrantsOk, OriginOk, A.Matches;
    var d := A.CreateRequestSpec(flow, grants, id, q).0;
    assert d.authorizations == grants.authorizations && d.decisions == grants.decisions;
    RequestOriginsOk(flow, grants, d.requests, d.decisions);
  }

  lemma DecideOk(flow: Flow, grants: Grants, id: Id, kind: DecisionKind, at: Time, decision: Id)
    requires kind.RejectedRequest? || kind.CancelledRequest? || kind.ExpiredRequest?
    requires AuthorityOk(flow, grants)
    ensures AuthorityOk(flow, A.DecideSpec(grants, id, kind, at, decision).0)
  {
    hide GrantsOk, OriginOk, A.DecisionClash;
    var d := A.DecideSpec(grants, id, kind, at, decision).0;
    assert d.authorizations == grants.authorizations && d.requests == grants.requests;
    RequestOriginsOk(flow, grants, d.requests, d.decisions);
  }

  lemma PresentGrantsOk(flow: Flow, grants: Grants, candidate: Authorization, authority: Id, at: Time)
    requires GrantsOk(grants.authorizations, grants.events, grants.admissions)
    ensures var d := A.AdmitSpec(flow, grants, candidate, authority, at).0;
      GrantsOk(d.authorizations, d.events, d.admissions)
  {
    var x := candidate.execution;
    if x in grants.authorizations && x !in grants.admissions {
      var row := grants.authorizations[x];
      assert GrantOk(row, grants.events, grants.admissions, x);
      var outcome := A.AdmissionOutcome(flow, grants, candidate, row, authority, at);
      hide GrantsOk, GrantOk, A.Matches;
      if outcome.Some? {
        var v := outcome.value;
        var admission := Admission(row.body.workflow, v.status, v.reason, at);
        if v.target == row.state {
          GrantNoted(grants, x, admission);
        } else {
          StateMoves(grants, x, v.target, at, grants.admissions[x := admission]);
        }
      }
    }
  }

  lemma PresentOriginsOk(flow: Flow, grants: Grants, candidate: Authorization, authority: Id, at: Time)
    requires OriginsOk(flow.workflows, grants.requests, grants.decisions, grants.authorizations)
    ensures var d := A.AdmitSpec(flow, grants, candidate, authority, at).0;
      OriginsOk(flow.workflows, d.requests, d.decisions, d.authorizations)
  {
    hide A.AdmissionOutcome, OriginOk;
  }

  lemma SetStateOrigins(flow: Flow, grants: Grants, x: Id, after: AuthorizationState, at: Time)
    requires OriginsOk(flow.workflows, grants.requests, grants.decisions, grants.authorizations)
             && x in grants.authorizations
    ensures OriginsOk(flow.workflows, grants.requests, grants.decisions,
                      A.SetState(grants, x, after, at).authorizations)
  {
    hide OriginOk;
  }

  lemma GrantCallOk(db: Db, c: Call)
    requires IsGrantCall(c) && AuthorityOk(db.flow, db.grants)
    ensures AuthorityOk(db.flow, Exec(db, c).0.grants)
  {
    hide A.ApproveSpec, A.AdmitSpec, A.DecideSpec, A.CreateRequestSpec, OriginsOk;
    if c.Approve? {
      ApproveGrantsOk(db.flow, db.grants, c.approval);
      ApproveOriginsOk(db.flow, db.grants, c.approval);
    } else if c.AdmitAuthorization? {
      PresentGrantsOk(db.flow, db.grants, c.candidate, c.authority, c.at);
      PresentOriginsOk(db.flow, db.grants, c.candidate, c.authority, c.at);
    } else if c.InvalidateAuthorization? {
      if Exec(db, c).0.grants != db.grants {
        assert GrantOk(db.grants.authorizations[c.id], db.grants.events, db.grants.admissions, c.id);
        StateMoves(db.grants, c.id, Invalidated, c.at, db.grants.admissions);
        SetStateOrigins(db.flow, db.grants, c.id, Invalidated, c.at);
      }
    } else if c.MarkConsumed? {
      if Exec(db, c).0.grants != db.grants {
        assert GrantOk(db.grants.authorizations[c.id], db.grants.events, db.grants.admissions, c.id);
        StateMoves(db.grants, c.id, Consumed, c.at, db.grants.admissions);
        SetStateOrigins(db.flow, db.grants, c.id, Consumed, c.at);
      }
    } else if c.CreateRequest? {
      CreateRequestOk(db.flow, db.grants, c.id, c.request);
    } else {
      var kind := if c.RejectRequest? then RejectedRequest
                  else if c.CancelRequest? then CancelledRequest
                  else ExpiredRequest;
      DecideOk(db.flow, db.grants, c.id, kind, c.at, c.decision);
    }
  }

  // ---------------------------------------------------------------------
  // Reconciliation tables
  // ---------------------------------------------------------------------

  /** A classification stays supported by what it lists, whatever is stored later. */
  lemma StillSupported(intents: map<Id, Intent>, stored: map<Id, Observation>, intents': map<Id, Intent>,
                       stored': map<Id, Observation>, r: Record)
    requires Keeps(intents, intents') && Keeps(stored, stored') && R.Unsupported(intents, stored, r).None?
    ensures R.Unsupported(intents', stored', r).None?
  {
    assert R.Gather(stored', r.observations) == R.Gather(stored, r.observations);
    hide R.Supports;
  }

  lemma EvidenceCallOk(db: Db, c: Call)
    requires IsEvidenceCall(c) && EvidenceOk(db.evidence)
    ensures EvidenceOk(Exec(db, c).0.evidence)
  {
    EvidenceCallGrows(db, c);
    var d := Exec(db, c).0.evidence;
    forall r | r in d.records
      ensures R.Unsupported(d.intents, d.observations, r).None?
    {
      if r in db.evidence.records {
        StillSupported(db.evidence.intents, db.evidence.observations, d.intents, d.observations, r);
      }
    }
    hide R.Unsupported, R.FindRecord;
    forall o | o in d.observations
      ensures ObservationOk(d.intents, o, d.observations[o])
    {
      if o in db.evidence.observations {
        assert ObservationOk(db.evidence.intents, o, db.evidence.observations[o]);
      }
    }
  }

  // ---------------------------------------------------------------------
  // Envelopes
  // ---------------------------------------------------------------------

  lemma StillThere<T>(before: seq<T>, after: seq<T>, x: T)
    requires before <= after && x in before
    ensures x in after
  {
    var k :| 0 <= k < |before| && before[k] == x;
    assert after[k] == x;
  }

  /** The facts behind an envelope are never taken back. */
  lemma StillBacked(db: Db, d: Db, e: Envelope)
    requires Grows(db, d) && Backed(db, e)
    ensures Backed(d, e)
  {
    assert WorkflowGrows(db.flow.workflows[e.workflow], d.flow.workflows[e.workflow]);
    StillThere(db.flow.commands, d.flow.commands, CommandOf(e));
    StillThere(db.grants.events, d.grants.events, AuthorizationEvent(e.execution, Some(Issued), Consuming, e.at));
    var s: Scope :| s.config == db.evidence.intents[e.intent].config && LeasedFor(db.fences.events, e, s);
    StillThere(db.fences.events, d.fences.events, AcquiredFor(e, s));
    StillThere(db.fences.events, d.fences.events, StartedFor(e, s));
    assert LeasedFor(d.fences.events, e, s);
  }

  lemma EnvelopesStable(db: Db, d: Db)
    requires EnvelopesOk(db) && Grows(db, d) && d.envelopes == db.envelopes
    requires forall c :: c in d.flow.commands && c.name.AdmitExecutionAndCommitIntent? ==> c in db.flow.commands
    ensures EnvelopesOk(d)
  {
    hide Grows, Backed;
    forall e | e in d.envelopes
      ensures Backed(d, e)
    {
      StillBacked(db, d, e);
    }
  }

  /** The new envelope is backed by what its own transaction wrote. */
  lemma NewlyBacked(db: Db, a: C.AdmitArgs)
    requires FlowOk(db.flow) && C.Aligned(a) && C.Refusal(db, a).None?
    ensures Backed(C.Committed(db, a), C.NewEnvelope(a)) && CommandOf(C.NewEnvelope(a)) == C.AdmitCommand(a)
  {
    hide CommandClash, LeaseClash, EnvelopeClash;
    var e := C.NewEnvelope(a);
    var d := C.Committed(db, a);
    var s := C.ScopeFor(a);
    var added := C.LeaseEvents(a, a.intent.token);
    assert added[1] == AcquiredFor(e, s) && added[2] == StartedFor(e, s);
    assert LeasedFor(d.fences.events, e, s);
    assert db.flow.workflows[a.intent.workflow].version.scope == a.intent.workflow;
  }

  lemma CommittedFencesOk(db: Db, a: C.AdmitArgs)
    requires FlowOk(db.flow) && FencesOk(db.flow, db.fences) && C.Aligned(a) && C.Refusal(db, a).None?
    ensures FencesOk(C.MovedFlow(db.flow, a), C.StartedFences(db.fences, a))
  {
    var flow := C.MovedFlow(db.flow, a);
    assert db.flow.workflows[a.intent.workflow].version.scope == a.intent.workflow;
    CommittedFlowGrows(db.flow, a);
    hide CommandClash, EnvelopeClash, LeaseLogOk, LeaseRowsOk, LeaseClash, FlowOk, FlowGrows;
    LeaseRowsStable(db.flow, flow, db.fences.counters, db.fences.leases);
    var held := C.HeldLease(a, a.intent.token);
    var granted := Granted(db.fences, held, a.at);
    GrantedLog(db.fences, held, a.at);
    RowWritten(flow.workflows, db.fences.counters, db.fences.leases, held, granted.counters);
    var started := held.(operation := Some(a.intent.operation));
    var e := C.LeaseEvents(a, a.intent.token)[2];
    RowRewritten(flow, granted, started, e);
    assert C.StartedFences(db.fences, a)
        == granted.(leases := granted.leases[started.scope := started], events := granted.events + [e]);
  }

  lemma CommittedAuthorityOk(db: Db, a: C.AdmitArgs)
    requires FlowOk(db.flow) && AuthorityOk(db.flow, db.grants) && C.Aligned(a) && C.Refusal(db, a).None?
    ensures AuthorityOk(C.MovedFlow(db.flow, a), C.SpentGrants(db.grants, a))
  {
    var x := a.authorization.execution;
    var admission := Admission(a.authorization.workflow, Admitted, AtomicExecutionAdmission, a.at);
    assert db.flow.workflows[a.intent.workflow].version.scope == a.intent.workflow;
    CommittedFlowGrows(db.flow, a);
    hide CommandClash, EnvelopeClash, LeaseClash, GrantsOk, OriginsOk, FlowOk, FlowGrows;
    StateMoves(db.grants, x, Consuming, a.at, db.grants.admissions[x := admission]);
    SetStateOrigins(db.flow, db.grants, x, Consuming, a.at);
    OriginsStable(db.flow, C.MovedFlow(db.flow, a), C.SpentGrants(db.grants, a));
  }

  lemma CommittedEnveloped(commands: seq<Command>, envelopes: seq<Envelope>, e: Envelope)
    requires Enveloped(commands, envelopes)
    ensures Enveloped(commands + [CommandOf(e)], envelopes + [e])
  {
    hide CommandOf;
    var es := envelopes + [e];
    assert e in es;
    forall c | c in commands + [CommandOf(e)] && c.name.AdmitExecutionAndCommitIntent?
      ensures exists f :: f in es && CommandOf(f) == c
    {
      if c in commands {
        var f :| f in envelopes && CommandOf(f) == c;
        assert f in es;
      }
    }
  }

  lemma CommittedEnvelopesOk(db: Db, a: C.AdmitArgs)
    requires FlowOk(db.flow) && EnvelopesOk(db) && C.Aligned(a) && C.Refusal(db, a).None?
    ensures EnvelopesOk(C.Committed(db, a))
  {
    hide Grows, C.StartedFences;
    var d := C.Committed(db, a);
    var e := C.NewEnvelope(a);
    CommittedGrows(db, a);
    NewlyBacked(db, a);
    assert a.intent.workflow in db.flow.workflows
           && db.flow.workflows[a.intent.workflow].state == AwaitingAuthorization;
    forall f | f in db.envelopes
      ensures Backed(d, f) && f.workflow != a.intent.workflow
    {
      assert Backed(db, f);
      StillBacked(db, d, f);
      assert FlowBacks(db.flow, f);
      assert db.flow.workflows[f.workflow].state != AwaitingAuthorization;
    }
    assert d.flow.commands == db.flow.commands + [CommandOf(e)] && d.envelopes == db.envelopes + [e];
    CommittedEnveloped(db.flow.commands, db.envelopes, e);
    assert OnePerWorkflow(d.envelopes);
  }

  lemma CommittedEvidenceOk(db: Db, a: C.AdmitArgs)
    requires EvidenceOk(db.evidence) && C.Refusal(db, a).None? && a.intent.workflow in db.flow.workflows
    ensures EvidenceOk(C.Committed(db, a).evidence)
  {
    assert a.intent.id !in db.evidence.intents;
    hide C.Refusal;
    var d := C.Committed(db, a).evidence;
    assert d.observations == db.evidence.observations;
    forall r | r in d.records
      ensures R.Unsupported(d.intents, d.observations, r).None?
    {
      StillSupported(db.evidence.intents, db.evidence.observations, d.intents, d.observations, r);
    }
    hide R.Unsupported;
  }

  lemma CommittedFlowOk(flow: Flow, a: C.AdmitArgs)
    requires FlowOk(flow) && C.Aligned(a) && a.intent.workflow in flow.workflows
    requires !CommandClash(flow.commands, C.AdmitCommand(a))
    ensures FlowOk(C.MovedFlow(flow, a))
  {
    hide CommandClash, FlowOk;
    MovedFlowOk(flow, W.Moved(flow.workflows[a.intent.workflow], Executing, C.AdmitCommand(a)), C.AdmitCommand(a));
  }

  lemma CommittedOk(db: Db, a: C.AdmitArgs)
    requires Valid(db) && C.Aligned(a) && C.Refusal(db, a).None?
    ensures Valid(C.Committed(db, a))
  {
    hide FlowOk, LeaseRowsOk, LeaseLogOk, GrantsOk, OriginsOk, EvidenceOk, EnvelopesOk, CommandClash, LeaseClash,
         EnvelopeClash;
    CommittedFencesOk(db, a);
    CommittedAuthorityOk(db, a);
    CommittedEnvelopesOk(db, a);
    CommittedFlowOk(db.flow, a);
    CommittedEvidenceOk(db, a);
  }

  /** Every public call of every store keeps the joint invariant. */
  lemma ExecValid(db: Db, c: Call)
    requires Valid(db)
    ensures Valid(Exec(db, c).0)
  {
    ExecGrows(db, c);
    var d := Exec(db, c).0;
    if IsGrantCall(c) {
      GrantCallOk(db, c);
      EnvelopesStable(db, d);
    } else if IsLeaseCall(c) {
      LeaseCallOk(db, c);
      EnvelopesStable(db, d);
    } else if IsEvidenceCall(c) {
      EvidenceCallOk(db, c);
      EnvelopesStable(db, d);
    } else if c.AdmitAndBeginWrite? {
      if d != db {
        CommittedOk(db, c.admission);
      }
    } else {
      hide FlowGrows;
      LeaseRowsStable(db.flow, d.flow, db.fences.counters, db.fences.leases);
      OriginsStable(db.flow, d.flow, db.grants);
      if c.Transition? {
        TransitionFlowOk(db.flow, c.move);
        EnvelopesStable(db, d);
      } else {
        assert FlowOk(d.flow);
        EnvelopesStable(db, d);
      }
    }
  }
}
