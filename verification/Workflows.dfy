/** Versioned workflow rows, named transitions and their idempotent command records. */
module Workflows {
  import opened Common
  import opened Tables

  /** The transition a named command makes; the coordinator's own command is not one of these. */
  function LegalTransition(name: CommandName): Option<(WorkflowState, WorkflowState)> {
    match name
    case StartPreview => Some((New, Previewing))
    case RecordPreview => Some((Previewing, AwaitingAuthorization))
    case RejectOrExpirePreview => Some((AwaitingAuthorization, Abandoned))
    case AdmitExecution => Some((AwaitingAuthorization, ExecutionAdmission))
    case StartExecution => Some((ExecutionAdmission, Executing))
    case StartCalculation => Some((Executing, Calculating))
    case StartVerification => Some((Calculating, Verifying))
    case CompleteWorkflow => Some((Verifying, Completed))
    case FailBeforeEffect => Some((Executing, FailedBeforeEffect))
    case RequireReconciliation => Some((Executing, ReconciliationRequired))
    case RecoverNoEffect => Some((ReconciliationRequired, FailedBeforeEffect))
    case Quarantine => Some((ReconciliationRequired, Quarantined))
    case StartRollbackPreview => Some((Completed, RollbackPreviewing))
    case RecordRollbackPreview => Some((RollbackPreviewing, AwaitingRollbackAuthorization))
    case AdmitRollback => Some((AwaitingRollbackAuthorization, RollbackAdmission))
    case StartRollback => Some((RollbackAdmission, RollingBack))
    case StartRollbackVerification => Some((RollingBack, RollbackVerifying))
    case CompleteRollback => Some((RollbackVerifying, RolledBack))
    case AdmitExecutionAndCommitIntent => None
  }

  datatype TransitionArgs = TransitionArgs(
    workflow: Id, name: CommandName, key: Id, digest: Digest, expected: Version, target: WorkflowState, at: Time,
    operation: Option<Id>, command: Id)

  type CommandResult = Result<Command, Failure>

  function NewCommand(a: TransitionArgs): Command {
    Command(a.command, a.workflow, a.name, a.key, a.digest, a.expected, Version(a.workflow, a.expected.counter + 1),
            a.operation, a.at)
  }

  /** The row after a recorded command. */
  function Moved(w: Workflow, target: WorkflowState, c: Command): Workflow {
    w.(state := target, version := c.resulting, updatedAt := c.at, latestCommand := Some(c.id),
       latestOperation := if c.operation.Some? then c.operation else w.latestOperation)
  }

  /** `record`: a new workflow may start in any state its caller gives it. */
  function RecordSpec(flow: Flow, id: Id, w: Workflow): (Flow, Result<Workflow, Failure>)
  {
    if w.version.scope != id || w.updatedAt < w.createdAt then (flow, Err(Invalid))
    else if id in flow.workflows then (flow, Err(IntegrityError))
    else (flow.(workflows := flow.workflows[id := w]), Ok(w))
  }

  function TransitionSpec(flow: Flow, a: TransitionArgs): (Flow, CommandResult) {
    if a.expected.scope != a.workflow || LegalTransition(a.name).None? then (flow, Err(Invalid))
    else match FindCommand(flow.commands, a.workflow, a.key)
      case Some(replay) =>
        (flow, if replay.name == a.name && replay.digest == a.digest then Ok(replay) else Err(Conflict))
      case None =>
        if a.workflow !in flow.workflows then (flow, Err(NotFound))
        else
          var previous := flow.workflows[a.workflow];
          if previous.version != a.expected then (flow, Err(VersionConflict))
          else if LegalTransition(a.name) != Some((previous.state, a.target)) then (flow, Err(Invalid))
          else if a.at < previous.createdAt then (flow, Err(Invalid))
          else if CommandClash(flow.commands, NewCommand(a)) then (flow, Err(IntegrityError))
          else
            (flow.(workflows := flow.workflows[a.workflow := Moved(previous, a.target, NewCommand(a))],
                 commands := flow.commands + [NewCommand(a)]),
             Ok(NewCommand(a)))
  }

  class WorkflowStore {
    const database: SQLiteDatabase

    constructor (database: SQLiteDatabase)
      ensures this.database == database
    {
      this.database := database;
    }

    method Record(id: Id, w: Workflow) returns (r: Result<Workflow, Failure>)
      modifies database`flow
      ensures (database.flow, r) == RecordSpec(old(database.flow), id, w)
    {
      if w.version.scope != id || w.updatedAt < w.createdAt {
        return Err(Invalid);
      }
      if id in database.flow.workflows {
        return Err(IntegrityError);
      }
      database.flow := database.flow.(workflows := database.flow.workflows[id := w]);
      return Ok(w);
    }

    /** Inserts the command, then moves the row by compare-and-swap, or rolls both back. */
    method Transition(a: TransitionArgs) returns (r: CommandResult)
      modifies database`flow
      ensures (database.flow, r) == TransitionSpec(old(database.flow), a)
    {
      if a.expected.scope != a.workflow {
        return Err(Invalid);
      }
      var legal := LegalTransition(a.name);
      if legal.None? {
        return Err(Invalid);
      }
      var replay := FindCommand(database.flow.commands, a.workflow, a.key);
      if replay.Some? {
        if replay.value.name != a.name || replay.value.digest != a.digest {
          return Err(Conflict);
        }
        return Ok(replay.value);
      }
      if a.workflow !in database.flow.workflows {
        return Err(NotFound);
      }
      var previous := database.flow.workflows[a.workflow];
      if previous.version != a.expected {
        return Err(VersionConflict);
      }
      if legal.value != (previous.state, a.target) {
        return Err(Invalid);
      }
      if a.at < previous.createdAt {
        return Err(Invalid);
      }
      var resulting := Version(a.workflow, previous.version.counter + 1);
      var command := Command(a.command, a.workflow, a.name, a.key, a.digest, a.expected, resulting, a.operation, a.at);
      var inserted := database.InsertWorkflowCommand(command);
      if !inserted {
        return Err(IntegrityError);
      }
      var next := previous.(state := a.target, version := resulting, updatedAt := a.at,
                            latestCommand := Some(a.command),
                            latestOperation := if a.operation.Some? then a.operation else previous.latestOperation);
      var updated := database.UpdateWorkflow(a.workflow, a.expected, next);
      // The transaction holds the write lock, so the row read above is still there.
      assert updated;
      return Ok(command);
    }
  }
}
