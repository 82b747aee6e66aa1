/** What the operation owner guarantees over every schedule, crash and restart. */
module WorkerSafety {
  import opened Common
  import opened Operations
  import opened Worker
  import opened WorkerInvariant

  /** `v` is reached from the first process by the schedule `es`. */
  ghost predicate Reaches(config: Config, es: seq<Event>, v: World) {
    Run(Init(config), es) == Some(v)
  }

  lemma ReachableInv(config: Config, es: seq<Event>, v: World)
    requires Reaches(config, es, v)
    ensures Inv(v)
  {
    InitInv(config);
    RunInv(Init(config), es);
  }

  // ---------------------------------------------------------------------
  // One operation at a time
  // ---------------------------------------------------------------------

  /** In every reachable state at most one record is in flight, timed out or
      unresponsive; it is the one the owner has dequeued and is executing; the
      handler only ever runs on such a record; and whenever `_execute` has
      returned, or the dequeued record was not executed, it is terminal. */
  lemma AtMostOneRunning(config: Config, es: seq<Event>, v: World)
    requires Reaches(config, es, v) && v.phase.Running?
    ensures forall i, j :: 0 <= i < |v.rows| && 0 <= j < |v.rows| && Live(v.rows[i].state) && Live(v.rows[j].state) ==>
                             i == j
    ensures forall i :: 0 <= i < |v.rows| && Live(v.rows[i].state) ==> v.born <= i && Executing(v.owner, i)
    ensures InHandler(v.owner) ==>
              v.owner.op < |v.rows| && Live(v.rows[v.owner.op].state) && v.active == Some(v.owner.op)
    ensures v.owner.OwnerFinally? ==> v.owner.op < |v.rows| && Terminal(v.rows[v.owner.op].state)
  {
    ReachableInv(config, es, v);
    hide RowsOk, LogOk, HolderOk, CoverOk, ShutOk, FrontierOk;
    forall i | 0 <= i < |v.rows| && Live(v.rows[i].state)
      ensures Executing(v.owner, i)
    {
    }
  }

  ghost predicate OneLive(rows: seq<Row>) {
    forall i, j :: 0 <= i < |rows| && 0 <= j < |rows| && Live(rows[i].state) && Live(rows[j].state) ==> i == j
  }

  lemma ExecutingIsOne(rows: seq<Row>, owner: OwnerPc)
    requires LiveOk(rows, owner)
    ensures OneLive(rows)
  {
  }

  lemma OneLiveBoot(rows: seq<Row>, u: Update)
    requires OneLive(rows) && (u.ReconcileOrphans? || u.CancelAll?)
    ensures OneLive(Apply(rows, u))
  {
  }

  lemma OneLiveNext(w: World, e: Event)
    requires Inv(w) && OneLive(w.rows) && Next(w, e).Some?
    ensures OneLive(Next(w, e).value.rows)
  {
    hide RowsOk, LogOk, QueueOk, HolderOk, WatchOk, CloserOk, CoverOk, LiveOk, ActiveOk, ShutOk, FrontierOk, OneLive,
         Apply;
    if e.Crash? {
    } else if e.BootStep? {
      OneLiveBoot(w.rows, if w.phase.ReconcilingOrphans? then ReconcileOrphans(e.now) else CancelAll(e.now));
    } else {
      var v := Next(w, e).value;
      NextInv(w, e);
      RunningStays(w, e);
      ExecutingIsOne(v.rows, v.owner);
    }
  }

  lemma RunningStays(w: World, e: Event)
    requires w.phase.Running? && !e.Crash? && !e.BootStep? && Next(w, e).Some?
    ensures Next(w, e).value.phase.Running?
  {
    hide Apply, Accepted, FindKey;
  }

  lemma {:induction false} OneLiveRun(w: World, es: seq<Event>)
    requires Inv(w) && OneLive(w.rows) && Run(w, es).Some?
    ensures OneLive(Run(w, es).value.rows)
    decreases |es|
  {
    if es != [] {
      hide Inv, Next, OneLive;
      NextInv(w, es[0]);
      OneLiveNext(w, es[0]);
      OneLiveRun(Next(w, es[0]).value, es[1..]);
    }
  }

  /** At most one record is live at every moment, the constructor's two phases
      after a crash included. */
  lemma AtMostOneLive(config: Config, es: seq<Event>, v: World)
    requires Reaches(config, es, v)
    ensures forall i, j :: 0 <= i < |v.rows| && 0 <= j < |v.rows| && Live(v.rows[i].state) && Live(v.rows[j].state) ==>
                             i == j
  {
    InitInv(config);
    hide Inv;
    OneLiveRun(Init(config), es);
  }

  /** The queue holds distinct operations in `sequence` order; every QUEUED
      record is in exactly one place: in the queue once, in the owner's hands, or being put by
      the holder of the admission lock; and `put_nowait` never finds the queue full. */
  lemma QueueAgreesWithStore(config: Config, es: seq<Event>, v: World)
    requires Reaches(config, es, v) && v.phase.Running?
    ensures Sorted(v.queue) && |v.queue| <= v.config.maxQueue
    ensures forall i: OpId :: i in v.queue ==>
                                v.born <= i < |v.rows| && !Pending(v.owner, i) && v.holder != SubmitPut(i)
    ensures forall i :: 0 <= i < |v.rows| && v.rows[i].state.Queued? ==>
              i in v.queue || Pending(v.owner, i) || v.holder == SubmitPut(i)
    ensures v.holder.SubmitPut? ==> |v.queue| < v.config.maxQueue
  {
    ReachableInv(config, es, v);
    hide RowsOk, LogOk, LiveOk, ShutOk, FrontierOk;
  }

  /** Over every run with any number of restarts: operations are started, and
      their handlers entered, in strictly increasing `sequence` order, so the
      handler for an idempotency key is entered at most once. */
  lemma EnteredAtMostOnce(config: Config, es: seq<Event>, v: World)
    requires Reaches(config, es, v)
    ensures Sorted(v.starts) && Sorted(v.entries)
    ensures forall i, j :: 0 <= i < j < |v.entries| ==>
              v.entries[i] < |v.rows| && v.entries[j] < |v.rows| && v.rows[v.entries[i]].key != v.rows[v.entries[j]].key
  {
    ReachableInv(config, es, v);
    hide QueueOk, HolderOk, CoverOk, LiveOk, ShutOk, FrontierOk;
    forall i, j | 0 <= i < j < |v.entries|
      ensures v.entries[i] < |v.rows| && v.entries[j] < |v.rows| && v.rows[v.entries[i]].key != v.rows[v.entries[j]].key
    {
      var a :| 0 <= a < |v.starts| && v.starts[a] == v.entries[i];
      var b :| 0 <= b < |v.starts| && v.starts[b] == v.entries[j];
    }
  }

  /** A handler is entered only for a record admitted by the running process,
      never before, under a registered name, while the record is running. */
  lemma EntryIsFresh(config: Config, es: seq<Event>, v: World, now: int, outcome: Outcome)
    requires Reaches(config, es, v) && v.phase.Running? && v.owner.OwnerEnter?
    ensures var op := v.owner.op;
            && v.born <= op < |v.rows| && op !in v.entries
            && v.rows[op].handler in v.config.handlers && Live(v.rows[op].state)
            && Next(v, OwnerStep(now, outcome)).value.entries == v.entries + [op]
  {
    ReachableInv(config, es, v);
    hide LogOk, HolderOk, CoverOk, ShutOk;
  }

  // ---------------------------------------------------------------------
  // Every record keeps its identity and follows the lifecycle
  // ---------------------------------------------------------------------

  /** The store update a step makes, if any. */
  ghost function Effect(w: World, e: Event): Option<Update> {
    match e
    case BootStep(now) => Some(if w.phase.ReconcilingOrphans? then ReconcileOrphans(now) else CancelAll(now))
    case LockStep(now, _) =>
      if w.holder.CloseCancel? then Some(CancelAll(now))
      else if w.holder.WatchMark? then Some(MarkEngineUnresponsive(w.holder.op))
      else None
    case OwnerStep(now, _) =>
      (match w.owner
       case OwnerCancel(op) => Some(CancelBeforeStart(op, now))
       case OwnerStart(op) => Some(Start(op, now))
       case OwnerComplete(op, result) => Some(Complete(op, result, now))
       case OwnerFail(op, error) => Some(Fail(op, error, now))
       case OwnerReconcile(op, error) => Some(RequireReconciliation(op, error, now))
       case _ => None)
    case WatchStep(now) => if w.watchdog.WatchSweep? then Some(CancelExpired(now)) else None
    case ClientStep(c, _) =>
      if c in w.clients && w.clients[c].ClientMark? then Some(MarkClientTimedOut(w.clients[c].op)) else None
    case CloserStep(c, _) =>
      if c in w.closers && w.closers[c].CloseMark? then Some(MarkEngineUnresponsive(w.closers[c].op)) else None
    case _ => None
  }

  ghost predicate Inserts(w: World, e: Event) {
    e.LockStep? && w.holder.SubmitAdmit? && w.holder.req.admissible && FindKey(w.rows, w.holder.req.key).None?
  }

  lemma OwnerRows(w: World, now: int, outcome: Outcome)
    requires OwnerNext(w, now, outcome).Some?
    ensures var u := Effect(w, OwnerStep(now, outcome));
            OwnerNext(w, now, outcome).value.rows == if u.Some? then Apply(w.rows, u.value) else w.rows
  {
    if w.owner.OwnerStart? && !Accepted(w.rows, Start(w.owner.op, now)) {
      assert Apply(w.rows, Start(w.owner.op, now)) == w.rows;
    }
    hide Accepted, Apply, Single, Touch;
  }

  lemma LockRows(w: World, now: int, client: nat)
    requires LockNext(w, now, client).Some?
    ensures LockNext(w, now, client).value.rows ==
            if Inserts(w, LockStep(now, client)) then
              w.rows + [NewRow(w.holder.req.key, w.holder.req.handler, w.holder.req.payload, w.config.deadlines, now)]
            else
              var u := Effect(w, LockStep(now, client));
              if u.Some? then Apply(w.rows, u.value) else w.rows
  {
  }

  /** Every step changes the table by one store call, or not at all. */
  lemma StepRows(w: World, e: Event)
    requires Next(w, e).Some?
    ensures Next(w, e).value.rows ==
            if Inserts(w, e) then w.rows + [NewRow(w.holder.req.key, w.holder.req.handler, w.holder.req.payload,
                                                   w.config.deadlines, e.now)]
            else if Effect(w, e).Some? then Apply(w.rows, Effect(w, e).value) else w.rows
  {
    if e.OwnerStep? {
      OwnerRows(w, e.now, e.outcome);
    } else if e.LockStep? {
      LockRows(w, e.now, e.client);
    } else {
    }
  }

  ghost predicate Follows(before: Row, after: Row) {
    && after.key == before.key && after.handler == before.handler && after.payload == before.payload
    && after.queueDeadline == before.queueDeadline && after.clientDeadline == before.clientDeadline
    && after.state in Future(before.state)
    && (Terminal(before.state) ==> after == before)
    && before.version <= after.version
  }

  lemma NextRows(w: World, e: Event)
    requires Inv(w) && Next(w, e).Some?
    ensures var v := Next(w, e).value;
            |w.rows| <= |v.rows| && forall i :: 0 <= i < |w.rows| ==> Follows(w.rows[i], v.rows[i])
  {
    hide LogOk, RunningInv, Fresh, Next;
    StepRows(w, e);
    forall i | 0 <= i < |w.rows|
      ensures Follows(w.rows[i], Next(w, e).value.rows[i])
    {
      if Effect(w, e).Some? {
        TouchKeeps(Effect(w, e).value, i, w.rows[i]);
      }
    }
  }

  /** Over every schedule, crashes included: no record is ever lost or renamed,
      terminal records are never written again, and every record only moves on
      to a state its lifecycle allows. */
  lemma {:induction false} RecordsPersist(w: World, es: seq<Event>)
    requires Inv(w) && Run(w, es).Some?
    ensures var v := Run(w, es).value;
            |w.rows| <= |v.rows| && forall i :: 0 <= i < |w.rows| ==> Follows(w.rows[i], v.rows[i])
    decreases |es|
  {
    if es != [] {
      hide Inv, Next;
      NextInv(w, es[0]);
      NextRows(w, es[0]);
      var u := Next(w, es[0]).value;
      RecordsPersist(u, es[1..]);
      var v := Run(w, es).value;
      forall i | 0 <= i < |w.rows|
        ensures Follows(w.rows[i], v.rows[i])
      {
        assert Follows(w.rows[i], u.rows[i]) && Follows(u.rows[i], v.rows[i]);
        FutureIsTransitive(w.rows[i].state, u.rows[i].state, v.rows[i].state);
      }
    } else {
      assert forall i :: 0 <= i < |w.rows| ==> Follows(w.rows[i], w.rows[i]);
    }
  }

  // ---------------------------------------------------------------------
  // Quarantine and shutdown
  // ---------------------------------------------------------------------

  predicate IsDequeue(w: World, e: Event) {
    e.OwnerStep? && w.owner.OwnerGet? && w.queue != []
  }

  /** How often the owner takes an operation off the queue during `es`. */
  function Dequeues(w: World, es: seq<Event>): nat
    requires Run(w, es).Some?
    decreases |es|
  {
    if es == [] then 0
    else (if IsDequeue(w, es[0]) then 1 else 0) + Dequeues(Next(w, es[0]).value, es[1..])
  }

  predicate SameProcess(es: seq<Event>) {
    forall i :: 0 <= i < |es| ==> !es[i].Crash?
  }

  /** Whatever may still start: the queue and the operation in the owner's hands. */
  ghost predicate MayStart(w: World, op: OpId) {
    op in w.queue || Pending(w.owner, op)
  }

  /** Only the owner starts operations, and only one that is still queued. */
  lemma StartsChange(w: World, e: Event)
    requires !e.Crash? && Next(w, e).Some?
    ensures var v := Next(w, e).value;
            v.starts == w.starts || (e.OwnerStep? && w.owner.OwnerStart? && Accepted(w.rows, Start(w.owner.op, e.now))
                                     && v.starts == w.starts + [w.owner.op])
  {
    hide Apply, Accepted;
  }

  /** What a step does to the queue and to the operation in the owner's hands. */
  ghost predicate Consumes(w: World, e: Event, v: World) {
    && |v.queue| + (if IsDequeue(w, e) then 1 else 0) == |w.queue|
    && (forall op :: MayStart(v, op) ==> MayStart(w, op))
  }

  lemma OwnerConsumes(w: World, now: int, outcome: Outcome)
    requires w.phase.Running? && OwnerNext(w, now, outcome).Some?
    ensures Consumes(w, OwnerStep(now, outcome), OwnerNext(w, now, outcome).value)
  {
    var v := OwnerNext(w, now, outcome).value;
    if w.owner.OwnerGet? {
      assert forall op: OpId :: op in v.queue ==> op in w.queue;
    } else {
      OwnerQueue(w, now, outcome);
      OwnerHand(w, now, outcome);
    }
  }

  lemma OwnerQueue(w: World, now: int, outcome: Outcome)
    requires !w.owner.OwnerGet? && OwnerNext(w, now, outcome).Some?
    ensures OwnerNext(w, now, outcome).value.queue == w.queue
  {
    hide Accepted, Apply, Single, Touch;
  }

  lemma HandEmptied(w: World, now: int, outcome: Outcome)
    requires !w.owner.OwnerGet? && !w.owner.OwnerFetched? && OwnerNext(w, now, outcome).Some?
    ensures !InHand(OwnerNext(w, now, outcome).value.owner)
  {
    hide Accepted, Apply, Single, Touch;
    match w.owner {
      case OwnerHandler(_) =>
      case OwnerTop =>
      case OwnerFinally(_) =>
      case OwnerKilled(_) =>
      case _ =>
    }
  }

  lemma OwnerHand(w: World, now: int, outcome: Outcome)
    requires !w.owner.OwnerGet? && OwnerNext(w, now, outcome).Some?
    ensures var pc := OwnerNext(w, now, outcome).value.owner; InHand(pc) ==> InHand(w.owner) && pc.op == w.owner.op
  {
    hide Accepted, Apply, Single, Touch;
    if w.owner.OwnerFetched? {
      var op := w.owner.op;
      assert OwnerNext(w, now, outcome).value.owner in [OwnerKilled(op), OwnerFinally(op), OwnerCancel(op),
                                                        OwnerStart(op)];
    } else {
      HandEmptied(w, now, outcome);
    }
  }

  lemma LockConsumes(w: World, now: int, client: nat)
    requires Shut(w) && HolderOk(w) && LockNext(w, now, client).Some?
    ensures Consumes(w, LockStep(now, client), LockNext(w, now, client).value)
  {
    assert !w.holder.SubmitPut?;
    assert LockNext(w, now, client).value.owner == w.owner && LockNext(w, now, client).value.queue == w.queue by {
    }
  }

  lemma ShutConsumes(w: World, e: Event)
    requires Shut(w) && w.phase.Running? && HolderOk(w) && !e.Crash? && Next(w, e).Some?
    ensures Consumes(w, e, Next(w, e).value)
  {
    if e.OwnerStep? {
      OwnerConsumes(w, e.now, e.outcome);
    } else if e.LockStep? {
      LockConsumes(w, e.now, e.client);
    } else {
    }
  }

  lemma OwnerFlags(w: World, now: int, outcome: Outcome)
    requires OwnerNext(w, now, outcome).Some?
    ensures var v := OwnerNext(w, now, outcome).value;
            v.phase == w.phase && v.stopping == w.stopping && v.quarantined == w.quarantined && v.holder == w.holder
  {
    hide Accepted, Apply, Single, Touch;
  }

  lemma ShutStays(w: World, e: Event)
    requires Shut(w) && w.phase.Running? && !e.Crash? && Next(w, e).Some?
    ensures Next(w, e).value.phase.Running? && Shut(Next(w, e).value)
  {
    hide Apply, Accepted, OwnerNext;
    if e.OwnerStep? {
      OwnerFlags(w, e.now, e.outcome);
    }
  }

  lemma ShutNext(w: World, e: Event)
    requires Inv(w) && w.phase.Running? && Shut(w) && !e.Crash? && Next(w, e).Some?
    ensures var v := Next(w, e).value;
            && v.phase.Running? && Shut(v) && |v.rows| == |w.rows| && Consumes(w, e, v)
            && (v.starts == w.starts || (w.owner.OwnerStart? && v.starts == w.starts + [w.owner.op]))
  {
    ShutConsumes(w, e);
    ShutStays(w, e);
    StartsChange(w, e);
    StepRows(w, e);
    hide Next, Consumes, QueueOk, CoverOk, LiveOk, RowsOk, LogOk, FrontierOk, ShutOk, Apply;
  }

  /** Once a record of this process is unresponsive, nothing more is admitted. */
  lemma UnresponsiveShuts(config: Config, es: seq<Event>, v: World, i: OpId)
    requires Reaches(config, es, v) && v.phase.Running?
    requires i < |v.rows| && v.rows[i].state.EngineUnresponsive?
    ensures Shut(v)
  {
    ReachableInv(config, es, v);
    hide RowsOk, LogOk, QueueOk, HolderOk, CoverOk, LiveOk, ActiveOk, FrontierOk;
  }

  /** From the moment `close` takes the admission lock, or a record becomes
      unresponsive, or the worker is quarantined: no record is created, the
      owner's dequeues exactly use up the queue, and only operations already
      queued or dequeued at that moment are ever started. */
  lemma {:induction false} NoAdmissionOnceShut(w: World, es: seq<Event>)
    requires Inv(w) && w.phase.Running? && Shut(w) && SameProcess(es) && Run(w, es).Some?
    ensures var v := Run(w, es).value;
            && v.phase.Running? && Shut(v)
            && |v.rows| == |w.rows|
            && Dequeues(w, es) + |v.queue| == |w.queue|
            && w.starts <= v.starts
            && (forall op :: MayStart(v, op) ==> MayStart(w, op))
            && (forall k :: |w.starts| <= k < |v.starts| ==> MayStart(w, v.starts[k]))
    decreases |es|
  {
    if es != [] {
      hide Inv, Next, Shut;
      NextInv(w, es[0]);
      ShutNext(w, es[0]);
      NoAdmissionOnceShut(Next(w, es[0]).value, es[1..]);
    }
  }

  /** The closer has cancelled the queue. */
  ghost predicate Drained(w: World) {
    w.stopping && forall i :: 0 <= i < |w.rows| ==> !w.rows[i].state.Queued?
  }

  lemma StoppingStays(w: World, e: Event)
    requires w.phase.Running? && w.stopping && !e.Crash? && Next(w, e).Some?
    ensures Next(w, e).value.phase.Running? && Next(w, e).value.stopping
  {
    hide Apply, Accepted;
  }

  lemma DrainedNext(w: World, e: Event)
    requires Inv(w) && w.phase.Running? && Drained(w) && !e.Crash? && Next(w, e).Some?
    ensures var v := Next(w, e).value; v.phase.Running? && Drained(v) && v.starts == w.starts
  {
    hide LogOk, QueueOk, CoverOk, LiveOk, ActiveOk, ShutOk, FrontierOk, Fresh, Apply, Next;
    StepRows(w, e);
    StartsChange(w, e);
    StoppingStays(w, e);
    if Effect(w, e).Some? {
      forall i | 0 <= i < |w.rows|
        ensures !Apply(w.rows, Effect(w, e).value)[i].state.Queued?
      {
        TouchRow(Effect(w, e).value, i, w.rows[i]);
      }
    }
  }

  lemma {:induction false} NothingStartsOnceDrained(w: World, es: seq<Event>)
    requires Inv(w) && w.phase.Running? && Drained(w) && SameProcess(es) && Run(w, es).Some?
    ensures var v := Run(w, es).value; Drained(v) && v.starts == w.starts
    decreases |es|
  {
    if es != [] {
      hide Inv, Next, Drained;
      NextInv(w, es[0]);
      DrainedNext(w, es[0]);
      NothingStartsOnceDrained(Next(w, es[0]).value, es[1..]);
    }
  }

  /** After `close` has cancelled the queue, this process starts nothing more. */
  lemma NothingStartsAfterClose(config: Config, es: seq<Event>, w: World, now: int, client: nat, rest: seq<Event>)
    requires Reaches(config, es, w) && w.phase.Running? && w.holder.CloseCancel?
    requires SameProcess(rest) && Run(w, [LockStep(now, client)] + rest).Some?
    ensures var v := Run(w, [LockStep(now, client)] + rest).value;
            v.starts == w.starts && forall i :: 0 <= i < |v.rows| ==> !v.rows[i].state.Queued?
  {
    ReachableInv(config, es, w);
    var e := LockStep(now, client);
    var es' := [e] + rest;
    assert es'[0] == e && es'[1..] == rest;
    NextInv(w, e);
    assert Drained(Next(w, e).value) by {
      hide RowsOk, LogOk, QueueOk, CoverOk, LiveOk, ActiveOk, ShutOk, FrontierOk;
    }
    NothingStartsOnceDrained(Next(w, e).value, rest);
  }
}
