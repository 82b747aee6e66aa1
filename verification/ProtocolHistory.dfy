/** What the append-only tables tell about the past: workflow rows, decisions and the executing state. */
module ProtocolHistory {
  import opened Common
  import opened Tables
  import opened Leases
  import opened Protocol
  import opened ProtocolInvariant
  import opened ProtocolPreservation
  import opened ProtocolSafety
  import W = Workflows
  import A = Approvals
  import C = Coordinator

  // ---------------------------------------------------------------------
  // Workflow rows are folds of their commands
  // ---------------------------------------------------------------------

  /** The command was made against this very row, by the transition its name allows. */
  predicate StepsFrom(before: Workflow, c: Command) {
    && c.expected == before.version && c.resulting == Version(c.workflow, before.version.counter + 1)
    && if c.name.AdmitExecutionAndCommitIntent? then before.state.AwaitingAuthorization?
       else W.LegalTransition(c.name) == Some((before.state, TargetOf(c.name)))
  }

  /** Every command of the workflow steps from the row the earlier ones leave. */
  predicate Lawful(w: Workflow, commands: seq<Command>, id: Id) {
    commands == []
    || (var earlier := commands[..|commands| - 1];
        var c := commands[|commands| - 1];
        Lawful(w, earlier, id) && (c.workflow == id ==> StepsFrom(Commanded(w, earlier, id), c)))
  }

  /** `row` is how the workflow was first recorded: its commands lead from there to its current row. */
  ghost predicate History(flow: Flow, id: Id, row: Workflow) {
      && id in flow.workflows && flow.workflows[id] == Commanded(row, flow.commands, id)
      && Lawful(row, flow.commands, id)
  }

  /** A lawful log counts the versions and climbs the ranks, so it is short. */
  lemma {:induction false} LawfulIsBounded(w: Workflow, commands: seq<Command>, id: Id)
    requires Lawful(w, commands, id)
    ensures Commanded(w, commands, id).version.counter == w.version.counter + CountCommands(commands, id)
    ensures Rank(w.state) + CountCommands(commands, id) <= Rank(Commanded(w, commands, id).state) <= 13
  {
    if commands != [] {
      var c := commands[|commands| - 1];
      var earlier := commands[..|commands| - 1];
      LawfulIsBounded(w, earlier, id);
      if c.workflow == id && !c.name.AdmitExecutionAndCommitIntent? {
        TransitionRaisesRank(c.name);
      }
    }
  }

  lemma CommandedAppend(w: Workflow, commands: seq<Command>, c: Command, id: Id)
    ensures Commanded(w, commands + [c], id) ==
            if c.workflow == id then W.Moved(Commanded(w, commands, id), TargetOf(c.name), c)
            else Commanded(w, commands, id)
    ensures Lawful(w, commands + [c], id)
       <==> Lawful(w, commands, id) && (c.workflow == id ==> StepsFrom(Commanded(w, commands, id), c))
  {
    assert (commands + [c])[..|commands|] == commands;
  }

  lemma {:induction false} ForeignCommands(w: Workflow, commands: seq<Command>, id: Id)
    requires forall c :: c in commands ==> c.workflow != id
    ensures Commanded(w, commands, id) == w && Lawful(w, commands, id)
  {
    if commands != [] {
      assert commands[|commands| - 1] in commands;
      ForeignCommands(w, commands[..|commands| - 1], id);
    }
  }

  lemma TransitionHistory(flow: Flow, move: W.TransitionArgs, id: Id, row: Workflow)
    requires History(flow, id, row) && FlowOk(flow)
    ensures History(W.TransitionSpec(flow, move).0, id, row)
  {
    hide CommandClash, FindCommand, Commanded, Lawful, CommandsUnique;
    if W.TransitionSpec(flow, move).0 != flow {
      CommandedAppend(row, flow.commands, W.NewCommand(move), id);
    }
  }

  lemma AdmissionHistory(flow: Flow, a: C.AdmitArgs, id: Id, row: Workflow)
    requires History(flow, id, row) && FlowOk(flow) && C.Aligned(a) && a.intent.workflow in flow.workflows
    requires flow.workflows[a.intent.workflow].state.AwaitingAuthorization?
    requires flow.workflows[a.intent.workflow].version == a.authorization.expected
    ensures History(C.MovedFlow(flow, a), id, row)
  {
    assert flow.workflows[a.intent.workflow].version.scope == a.intent.workflow;
    hide Commanded, Lawful, FlowOk;
    CommandedAppend(row, flow.commands, C.AdmitCommand(a), id);
  }

  lemma HistoryStep(db: Db, c: Call, id: Id, row: Workflow)
    requires Valid(db) && History(db.flow, id, row)
    ensures History(Exec(db, c).0.flow, id, row)
  {
    assert FlowOk(db.flow);
    if c.Transition? {
      TransitionHistory(db.flow, c.move, id, row);
    } else if c.AdmitAndBeginWrite? {
      if Exec(db, c).0 != db {
        AdmissionHistory(db.flow, c.admission, id, row);
      }
    } else if c.RecordWorkflow? {
    } else {
    }
  }

  lemma {:induction false} HistoryRun(db: Db, cs: seq<Call>, id: Id, row: Workflow)
    requires Valid(db) && History(db.flow, id, row)
    ensures History(Run(db, cs).flow, id, row)
    decreases |cs|
  {
    hide Exec, History, Valid;
    if cs != [] {
      ExecValid(db, cs[0]);
      HistoryStep(db, cs[0], id, row);
      HistoryRun(Exec(db, cs[0]).0, cs[1..], id, row);
    }
  }

  lemma RecordedHistory(db: Db, id: Id, row: Workflow)
    requires Valid(db) && Exec(db, RecordWorkflow(id, row)).1 == Done
    ensures History(Exec(db, RecordWorkflow(id, row)).0.flow, id, row)
  {
    assert FlowOk(db.flow);
    hide Valid;
    ForeignCommands(row, db.flow.commands, id);
  }

  /** Once recorded, whatever runs, a workflow's row is the lawful fold of its
      commands over the row first recorded: its version has grown by their
      number, which is at most 13 (for a workflow recorded as NEW) less the rank
      it started with. */
  lemma WorkflowIsItsCommands(db: Db, id: Id, row: Workflow, cs: seq<Call>)
    requires Reachable(db) && Exec(db, RecordWorkflow(id, row)).1 == Done
    ensures var flow := Run(Exec(db, RecordWorkflow(id, row)).0, cs).flow;
      && id in flow.workflows && flow.workflows[id] == Commanded(row, flow.commands, id)
      && Lawful(row, flow.commands, id)
      && flow.workflows[id].version.counter == row.version.counter + CountCommands(flow.commands, id)
      && CountCommands(flow.commands, id) <= 13 - Rank(row.state)
  {
    ReachableIsValid(db);
    RecordedHistory(db, id, row);
    ExecValid(db, RecordWorkflow(id, row));
    var m := Exec(db, RecordWorkflow(id, row)).0;
    HistoryRun(m, cs, id, row);
    LawfulIsBounded(row, Run(m, cs).flow.commands, id);
  }

  ghost predicate Historied(flow: Flow) {
    forall id :: id in flow.workflows ==> exists row :: History(flow, id, row)
  }

  lemma HistoriedStep(db: Db, c: Call)
    requires Valid(db) && Historied(db.flow)
    ensures Historied(Exec(db, c).0.flow)
  {
    var d := Exec(db, c).0;
    forall id | id in d.flow.workflows
      ensures exists row :: History(d.flow, id, row)
    {
      if id in db.flow.workflows {
        var row :| History(db.flow, id, row);
        HistoryStep(db, c, id, row);
      } else {
        assert c.RecordWorkflow? && c.id == id && Exec(db, c).1 == Done;
        RecordedHistory(db, id, c.row);
      }
    }
  }

  /** Every workflow of every reachable state has such a history. */
  lemma {:induction false} EveryWorkflowIsHistoried(db: Db, cs: seq<Call>)
    requires Valid(db) && Historied(db.flow)
    ensures Historied(Run(db, cs).flow)
    decreases |cs|
  {
    hide Exec, Historied, Valid;
    if cs != [] {
      ExecValid(db, cs[0]);
      HistoriedStep(db, cs[0]);
      EveryWorkflowIsHistoried(Exec(db, cs[0]).0, cs[1..]);
    }
  }

  // ---------------------------------------------------------------------
  // Decisions
  // ---------------------------------------------------------------------

  /** The only calls that leave a durable decision, and which. */
  predicate Decides(c: Call, request: Id, kind: DecisionKind) {
    match c
    case Approve(a) => a.request == request && kind.Approved?
    case RejectRequest(id, _, _) => id == request && kind.RejectedRequest?
    case CancelRequest(id, _, _) => id == request && kind.CancelledRequest?
    case ExpireRequest(id, _, _) => id == request && kind.ExpiredRequest?
    case _ => false
  }

  lemma DecisionStep(db: Db, c: Call, request: Id)
    ensures var (d, reply) := Exec(db, c);
      request in d.grants.decisions ==>
        if request in db.grants.decisions && d.grants.decisions[request] == db.grants.decisions[request] then true
        else Decides(c, request, d.grants.decisions[request].kind) && !reply.Raised?
  {
    hide A.DecisionClash, A.Matches, A.AdmissionOutcome, C.Refusal, C.Aligned;
    var (d, reply) := Exec(db, c);
    if !(c.Approve? || c.RejectRequest? || c.CancelRequest? || c.ExpireRequest?) {
      assert d.grants.decisions == db.grants.decisions;
    }
  }

  /** Every durable decision was made by a call of the run that decides it so;
      no run leaves an INVALIDATED decision, and only `expire` leaves an EXPIRED one. */
  lemma {:induction false} DecisionsComeFromTheirCalls(db: Db, cs: seq<Call>, request: Id)
    requires request in Run(db, cs).grants.decisions
    ensures var made := Run(db, cs).grants.decisions[request];
      || (request in db.grants.decisions && db.grants.decisions[request] == made)
      || exists c :: c in cs && Decides(c, request, made.kind)
    decreases |cs|
  {
    hide Decides, Exec;
    if cs != [] {
      var m := Exec(db, cs[0]).0;
      DecisionStep(db, cs[0], request);
      DecisionsComeFromTheirCalls(m, cs[1..], request);
      var made := Run(db, cs).grants.decisions[request];
      if c :| c in cs[1..] && Decides(c, request, made.kind) {
        assert c in cs;
      } else {
        assert cs[0] in cs;
      }
    }
  }

  /** Approving too late raises and leaves the request undecided, although the
      code inserts an EXPIRED decision first; only `expire` makes it durable. */
  lemma LateApprovalDecidesNothing(db: Db, a: A.ApproveArgs)
    requires a.request in db.grants.requests && a.request !in db.grants.decisions
    requires a.at >= db.grants.requests[a.request].expiresAt && !A.DecisionClash(db.grants.decisions, a.decision)
    ensures Exec(db, Approve(a)) == (db, Raised(RequestExpired))
    ensures var (d, reply) := Exec(db, ExpireRequest(a.request, a.at, a.decision));
      reply == Done
      && d.grants.decisions == db.grants.decisions[a.request := Decision(a.decision, ExpiredRequest, a.at)]
  {
    assert db.(grants := db.grants) == db;
  }

  // ---------------------------------------------------------------------
  // EXECUTING without an envelope
  // ---------------------------------------------------------------------

  const AWAITING := Workflow(AwaitingAuthorization, Version(7, 1), 0, 0, 0, 0, None, None)
  const BARE_RUN := [
    RecordWorkflow(7, AWAITING),
    Transition(W.TransitionArgs(7, AdmitExecution, 1, 0, Version(7, 1), ExecutionAdmission, 1, None, 11)),
    Transition(W.TransitionArgs(7, StartExecution, 2, 0, Version(7, 2), Executing, 2, None, 12))]

  /** Plain transitions reach EXECUTING with no authorization and no envelope,
      so EXECUTING alone says nothing about either. */
  lemma ExecutingNeedsNoEnvelope()
    ensures var d := Run(EMPTY_DB, BARE_RUN);
      && 7 in d.flow.workflows && d.flow.workflows[7].state == Executing
      && d.grants == EMPTY_DB.grants && d.envelopes == []
  {
    var d1 := Exec(EMPTY_DB, BARE_RUN[0]).0;
    var d2 := Exec(d1, BARE_RUN[1]).0;
    var d3 := Exec(d2, BARE_RUN[2]).0;
    assert d1 == EMPTY_DB.(flow := Flow(map[7 := AWAITING], []));
    assert d2.flow.commands == [W.NewCommand(BARE_RUN[1].move)] && d2.flow.workflows[7].state == ExecutionAdmission;
    assert FindCommand(d2.flow.commands, 7, 2).None?;
    assert !CommandClash(d2.flow.commands, W.NewCommand(BARE_RUN[2].move));
    assert d3.flow.workflows[7].state == Executing;
    assert Run(EMPTY_DB, BARE_RUN) == Run(d1, BARE_RUN[1..]) == Run(d2, BARE_RUN[1..][1..])
           == Run(d3, BARE_RUN[1..][1..][1..]);
  }
}
