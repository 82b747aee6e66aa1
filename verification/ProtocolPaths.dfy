/** Which commands a workflow has behind it in each state. */
module ProtocolPaths {
  import opened Common
  import opened Tables
  import opened Protocol
  import opened ProtocolInvariant
  import opened ProtocolSafety
  import opened ProtocolHistory
  import W = Workflows

  // The commands from NEW up to an authorized preview, and how execution begins from there:
  // through its own admission, or by the coordinator's one command.

  const PREVIEWED := [StartPreview]
  const AWAITING_AUTHORIZATION := PREVIEWED + [RecordPreview]
  const ABANDONED := AWAITING_AUTHORIZATION + [RejectOrExpirePreview]
  const ADMITTED := AWAITING_AUTHORIZATION + [AdmitExecution]
  const TO_EXECUTION := {ADMITTED + [StartExecution], AWAITING_AUTHORIZATION + [AdmitExecutionAndCommitIntent]}

  // The commands after that.

  const UNCERTAIN := [RequireReconciliation]
  const CALCULATED := [StartCalculation]
  const VERIFIED := CALCULATED + [StartVerification]
  const COMPLETED := VERIFIED + [CompleteWorkflow]
  const UNDO_PREVIEWED := COMPLETED + [StartRollbackPreview]
  const UNDO_RECORDED := UNDO_PREVIEWED + [RecordRollbackPreview]
  const UNDO_ADMITTED := UNDO_RECORDED + [AdmitRollback]
  const UNDO_STARTED := UNDO_ADMITTED + [StartRollback]
  const UNDO_CHECKED := UNDO_STARTED + [StartRollbackVerification]
  const UNDONE := UNDO_CHECKED + [CompleteRollback]

  /** The commands from NEW to a state before execution. */
  function Before(s: WorkflowState): Option<seq<CommandName>> {
    match s
    case New => Some([])
    case Previewing => Some(PREVIEWED)
    case AwaitingAuthorization => Some(AWAITING_AUTHORIZATION)
    case Abandoned => Some(ABANDONED)
    case ExecutionAdmission => Some(ADMITTED)
    case _ => None
  }

  /** The commands from EXECUTING to a later state with one way there. */
  function RestTo(s: WorkflowState): seq<CommandName> {
    match s
    case ReconciliationRequired => UNCERTAIN
    case Quarantined => UNCERTAIN + [Quarantine]
    case Calculating => CALCULATED
    case Verifying => VERIFIED
    case Completed => COMPLETED
    case RollbackPreviewing => UNDO_PREVIEWED
    case AwaitingRollbackAuthorization => UNDO_RECORDED
    case RollbackAdmission => UNDO_ADMITTED
    case RollingBack => UNDO_STARTED
    case RollbackVerifying => UNDO_CHECKED
    case RolledBack => UNDONE
    case _ => []
  }

  /** The commands lead from EXECUTING to this state; a failure before any effect may be found out later. */
  predicate IsRest(rest: seq<CommandName>, s: WorkflowState) {
    if s.FailedBeforeEffect? then rest == [FailBeforeEffect] || rest == UNCERTAIN + [RecoverNoEffect]
    else rest == RestTo(s)
  }

  ghost predicate Joins(way: seq<CommandName>, entries: set<seq<CommandName>>, s: WorkflowState) {
    exists entry, rest :: entry in entries && IsRest(rest, s) && way == entry + rest
  }

  /** The commands lead from NEW to this state. */
  ghost predicate IsWay(way: seq<CommandName>, s: WorkflowState) {
    if Before(s).Some? then way == Before(s).value else Joins(way, TO_EXECUTION, s)
  }

  /** The command leads on from some way to `from`, to a way to `target`. */
  ghost predicate Leads(name: CommandName, from: WorkflowState, target: WorkflowState) {
    exists way :: IsWay(way, from) && IsWay(way + [name], target)
  }

  /** The steps a command makes, the coordinator's own included. */
  predicate Edge(name: CommandName, from: WorkflowState, target: WorkflowState) {
    if name.AdmitExecutionAndCommitIntent? then from.AwaitingAuthorization? && target.Executing?
    else W.LegalTransition(name) == Some((from, target))
  }

  lemma Snoc(a: seq<CommandName>, c: CommandName)
    ensures a + [c] != [] && (a + [c])[|a + [c]| - 1] == c && (a + [c])[..|a + [c]| - 1] == a
  {
  }

  /** One step after execution has begun goes one command further. */
  lemma RestExtends(name: CommandName, from: WorkflowState, target: WorkflowState)
    requires Edge(name, from, target) && Before(from).None?
    ensures Before(target).None? && !from.FailedBeforeEffect?
    ensures !target.FailedBeforeEffect? ==> RestTo(target) == RestTo(from) + [name]
    ensures target.FailedBeforeEffect? && from.Executing? ==> [name] == [FailBeforeEffect] && RestTo(from) == []
    ensures target.FailedBeforeEffect? && !from.Executing? ==> name == RecoverNoEffect && RestTo(from) == UNCERTAIN
  {
    assert [] + [name] == [name];
    match name {
      case StartCalculation =>
      case StartVerification =>
      case CompleteWorkflow =>
      case StartRollbackPreview =>
      case _ =>
    }
  }

  lemma RestIs(name: CommandName, from: WorkflowState, target: WorkflowState, r: seq<CommandName>)
    requires Edge(name, from, target) && Before(from).None?
    ensures Before(target).None? && (IsRest(r, from) <==> r == RestTo(from)) && IsRest(RestTo(from) + [name], target)
    ensures IsRest(r, target) ==> r != [] && (r[|r| - 1] == name ==> r == RestTo(from) + [name])
  {
    RestExtends(name, from, target);
    Snoc(RestTo(from), name);
    Snoc(UNCERTAIN, RecoverNoEffect);
    if from.Executing? && target.FailedBeforeEffect? {
      assert [] + [name] == [FailBeforeEffect];
    }
    hide RestTo, Edge;
  }

  lemma EarlyStep(name: CommandName, from: WorkflowState, target: WorkflowState, way: seq<CommandName>)
    requires Edge(name, from, target) && Before(from).Some?
    ensures IsWay(way, from) ==> IsWay(way + [name], target)
    ensures IsWay(way + [name], target) ==> IsWay(way, from)
  {
    assert [] + [StartPreview] == PREVIEWED && (way + [name])[..|way|] == way;
    if target.Executing? {
      assert way + [name] == (way + [name]) + [];
      if IsWay(way + [name], target) {
        var entry, rest :| entry in TO_EXECUTION && IsRest(rest, target) && way + [name] == entry + rest;
        assert rest == [] && entry + rest == entry;
      }
    }
  }

  lemma Rejoined(entry: seq<CommandName>, rest: seq<CommandName>, name: CommandName)
    ensures (entry + rest) + [name] == entry + (rest + [name])
  {
  }

  lemma LastIs(way: seq<CommandName>, name: CommandName, entry: seq<CommandName>, rest: seq<CommandName>)
    requires rest != [] && way + [name] == entry + rest
    ensures rest[|rest| - 1] == name
  {
    assert (entry + rest)[|way|] == rest[|way| - |entry|];
  }

  lemma FrontIs(way: seq<CommandName>, name: CommandName, entry: seq<CommandName>, rest: seq<CommandName>)
    requires way + [name] == entry + (rest + [name])
    ensures way == entry + rest
  {
    Rejoined(entry, rest, name);
    Snoc(way, name);
    Snoc(entry + rest, name);
  }

  lemma WayOn(way: seq<CommandName>, name: CommandName, entries: set<seq<CommandName>>, from: WorkflowState,
              target: WorkflowState)
    requires Edge(name, from, target) && Before(from).None? && Joins(way, entries, from)
    ensures Joins(way + [name], entries, target)
  {
    hide Edge, Before, RestTo, IsRest;
    var entry, r :| entry in entries && IsRest(r, from) && way == entry + r;
    RestIs(name, from, target, r);
    Rejoined(entry, r, name);
  }

  lemma WayBack(way: seq<CommandName>, name: CommandName, entries: set<seq<CommandName>>, from: WorkflowState,
                target: WorkflowState)
    requires Edge(name, from, target) && Before(from).None? && Joins(way + [name], entries, target)
    ensures Joins(way, entries, from)
  {
    hide Edge, Before, RestTo, IsRest;
    var entry, r :| entry in entries && IsRest(r, target) && way + [name] == entry + r;
    RestIs(name, from, target, r);
    LastIs(way, name, entry, r);
    FrontIs(way, name, entry, RestTo(from));
    RestIs(name, from, target, RestTo(from));
  }

  /** Every step leads each way on, and every way ends in the step that led there. */
  lemma StepsLead(name: CommandName, from: WorkflowState, target: WorkflowState, way: seq<CommandName>)
    requires Edge(name, from, target)
    ensures IsWay(way, from) ==> IsWay(way + [name], target)
    ensures IsWay(way + [name], target) ==> IsWay(way, from)
  {
    if Before(from).None? {
      RestIs(name, from, target, []);
      if IsWay(way, from) {
        WayOn(way, name, TO_EXECUTION, from, target);
      }
      if IsWay(way + [name], target) {
        WayBack(way, name, TO_EXECUTION, from, target);
      }
      hide Joins, Edge, Before;
    } else {
      EarlyStep(name, from, target, way);
    }
  }

  /** The state a command is made in. */
  function Origin(name: CommandName): WorkflowState {
    if name.AdmitExecutionAndCommitIntent? then AwaitingAuthorization else W.LegalTransition(name).value.0
  }

  /** The last command of a way tells where it leads. */
  lemma LastLeads(way: seq<CommandName>, s: WorkflowState)
    requires IsWay(way, s)
    ensures way == [] <==> s.New?
    ensures way != [] ==> Edge(way[|way| - 1], Origin(way[|way| - 1]), s)
  {
    if Before(s).Some? {
      Snoc(AWAITING_AUTHORIZATION, RejectOrExpirePreview);
      Snoc(AWAITING_AUTHORIZATION, AdmitExecution);
      Snoc(PREVIEWED, RecordPreview);
      if way != [] {
        EdgeOf(way, s);
      }
    } else {
      var entry, rest :| entry in TO_EXECUTION && IsRest(rest, s) && way == entry + rest;
      Snoc(ADMITTED, StartExecution);
      Snoc(AWAITING_AUTHORIZATION, AdmitExecutionAndCommitIntent);
      if rest == [] {
        assert way == entry;
        assert s.Executing? by { RestNotEmpty(s, rest); }
        EdgeOf(way, s);
      } else {
        assert way[|way| - 1] == rest[|rest| - 1];
        RestNotEmpty(s, rest);
      }
    }
  }

  lemma EdgeOf(way: seq<CommandName>, s: WorkflowState)
    requires way != [] && (W.LegalTransition(way[|way| - 1]).Some? ==> W.LegalTransition(way[|way| - 1]).value.1 == s)
    requires way[|way| - 1].AdmitExecutionAndCommitIntent? ==> s.Executing?
    ensures Edge(way[|way| - 1], Origin(way[|way| - 1]), s)
  {
  }

  lemma RestNotEmpty(s: WorkflowState, rest: seq<CommandName>)
    requires Before(s).None? && IsRest(rest, s)
    ensures rest == [] <==> s.Executing?
    ensures rest != [] ==> Edge(rest[|rest| - 1], Origin(rest[|rest| - 1]), s)
  {
    Snoc(UNCERTAIN, RecoverNoEffect);
    Snoc(UNCERTAIN, Quarantine);
    Snoc(CALCULATED, StartVerification);
    Snoc(VERIFIED, CompleteWorkflow);
    Snoc(COMPLETED, StartRollbackPreview);
    Snoc(UNDO_PREVIEWED, RecordRollbackPreview);
    Snoc(UNDO_RECORDED, AdmitRollback);
    Snoc(UNDO_ADMITTED, StartRollback);
    Snoc(UNDO_STARTED, StartRollbackVerification);
    Snoc(UNDO_CHECKED, CompleteRollback);
    if rest != [] {
      EdgeOf(rest, s);
    }
  }

  /** A way leads to one state only. */
  lemma WayDetermines(way: seq<CommandName>, s: WorkflowState, t: WorkflowState)
    requires IsWay(way, s) && IsWay(way, t)
    ensures s == t
  {
    LastLeads(way, s);
    LastLeads(way, t);
    hide IsWay;
  }

  /** Every state can be reached. */
  lemma SomeWay(s: WorkflowState) returns (way: seq<CommandName>)
    ensures IsWay(way, s)
  {
    if Before(s).Some? {
      way := Before(s).value;
    } else {
      var entry := ADMITTED + [StartExecution];
      var rest := if s.FailedBeforeEffect? then [FailBeforeEffect] else RestTo(s);
      way := entry + rest;
      assert entry in TO_EXECUTION && IsRest(rest, s);
    }
  }

  /** The transition table allows exactly the steps that lead on from one state's ways to another's. */
  lemma LegalIffLeads(name: CommandName, from: WorkflowState, target: WorkflowState)
    ensures Edge(name, from, target) <==> Leads(name, from, target)
  {
    hide IsWay, Edge;
    if Edge(name, from, target) {
      var way := SomeWay(from);
      StepsLead(name, from, target, way);
    }
    forall way | IsWay(way, from) && IsWay(way + [name], target)
      ensures Edge(name, from, target)
    {
      LedFrom(way, name, from, target);
    }
  }

  lemma LedFrom(way: seq<CommandName>, name: CommandName, from: WorkflowState, target: WorkflowState)
    requires IsWay(way, from) && IsWay(way + [name], target)
    ensures Edge(name, from, target)
  {
    hide IsWay, Edge, Origin;
    LastLeads(way + [name], target);
    Snoc(way, name);
    StepsLead(name, Origin(name), target, way);
    WayDetermines(way, from, Origin(name));
  }

  function NamesOf(commands: seq<Command>, id: Id): seq<CommandName> {
    if commands == [] then []
    else
      var c := commands[|commands| - 1];
      NamesOf(commands[..|commands| - 1], id) + if c.workflow == id then [c.name] else []
  }

  lemma {:induction false} LawfulIsWay(w: Workflow, commands: seq<Command>, id: Id)
    requires Lawful(w, commands, id) && w.state.New?
    ensures IsWay(NamesOf(commands, id), Commanded(w, commands, id).state)
  {
    if commands != [] {
      var c, earlier := commands[|commands| - 1], commands[..|commands| - 1];
      LawfulIsWay(w, earlier, id);
      hide IsWay;
      if c.workflow == id {
        StepsLead(c.name, Commanded(w, earlier, id).state, TargetOf(c.name), NamesOf(earlier, id));
      } else {
        assert NamesOf(earlier, id) + [] == NamesOf(earlier, id);
      }
    }
  }

  /** Whatever runs, the commands of a workflow recorded as NEW are one of the
      ways to the state it is in. */
  lemma WorkflowsFollowWays(db: Db, id: Id, row: Workflow, cs: seq<Call>)
    requires Reachable(db) && Exec(db, RecordWorkflow(id, row)).1 == Done && row.state.New?
    ensures var flow := Run(Exec(db, RecordWorkflow(id, row)).0, cs).flow;
      id in flow.workflows && IsWay(NamesOf(flow.commands, id), flow.workflows[id].state)
  {
    WorkflowIsItsCommands(db, id, row, cs);
    LawfulIsWay(row, Run(Exec(db, RecordWorkflow(id, row)).0, cs).flow.commands, id);
    hide IsWay, Exec, Run, Reachable;
  }
}
