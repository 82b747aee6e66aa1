/** Quarantine stops admission, not execution: a concrete schedule. */
module WorkerQuarantine {
  import opened Common
  import opened Operations
  import opened Worker
  import opened WorkerInvariant
  import opened WorkerSafety

  const CONFIG := Config(2, Deadlines(10, 10, 1), {"run"})

  function Ask(key: string): Request {
    Request(key, "run", "{}", true)
  }

  /** The clock reading an event carries. */
  function Reading(e: Event): Option<int> {
    match e
    case BootStep(now) => Some(now)
    case LockStep(now, _) => Some(now)
    case OwnerStep(now, _) => Some(now)
    case WatchStep(now) => Some(now)
    case ClientStep(_, now) => Some(now)
    case _ => None
  }

  /** Readings never go back, and start no earlier than `t`. */
  predicate Clocked(es: seq<Event>, t: int)
    decreases |es|
  {
    es == []
    || match Reading(es[0])
       case Some(now) => t <= now && Clocked(es[1..], now)
       case None => Clocked(es[1..], t)
  }

  lemma RunAppend(w: World, es: seq<Event>, e: Event)
    requires Run(w, es).Some?
    ensures Run(w, es + [e]) == Next(Run(w, es).value, e)
    decreases |es|
  {
    if es == [] {
      assert [e][1..] == [];
      assert es + [e] == [e];
    } else {
      assert (es + [e])[1..] == es[1..] + [e];
      RunAppend(Next(w, es[0]).value, es[1..], e);
    }
  }

  /** The clock never goes back over `es` and has not passed `now` at its end. */
  predicate Timed(es: seq<Event>, now: int) {
    Clocked(es, 0) && forall i :: 0 <= i < |es| && Reading(es[i]).Some? ==> Reading(es[i]).value <= now
  }

  lemma {:induction false} ClockedAppend(es: seq<Event>, t: int, e: Event)
    requires Clocked(es, t) && (Reading(e).Some? ==> t <= Reading(e).value)
    requires forall i :: 0 <= i < |es| && Reading(es[i]).Some? && Reading(e).Some? ==>
                           Reading(es[i]).value <= Reading(e).value
    ensures Clocked(es + [e], t)
    decreases |es|
  {
    if es == [] {
      assert es + [e] == [e] && [e][1..] == [];
    } else {
      assert (es + [e])[1..] == es[1..] + [e];
      ClockedAppend(es[1..], if Reading(es[0]).Some? then Reading(es[0]).value else t, e);
    }
  }

  /** `after` goes on from `before` within the same process, at `now`. */
  ghost predicate Extends(before: seq<Event>, after: seq<Event>, now: int) {
    before <= after && (SameProcess(before) ==> SameProcess(after)) && (Timed(before, now) ==> Timed(after, now))
  }

  /** One more event on a schedule, when it is possible. */
  lemma Then(es: seq<Event>, w: World, e: Event, now: int) returns (es': seq<Event>, v: World)
    requires Reaches(CONFIG, es, w) && Next(w, e).Some? && !e.Crash?
    requires now >= 0 && (Reading(e).None? || Reading(e) == Some(now))
    ensures Reaches(CONFIG, es', v) && Extends(es, es', now) && Some(v) == Next(w, e)
  {
    hide Next, Clocked, Run;
    RunAppend(Init(CONFIG), es, e);
    es', v := es + [e], Next(w, e).value;
    if Timed(es, now) {
      ClockedAppend(es, 0, e);
    }
  }

  /** A submission gets as far as the store. */
  lemma Gated(es: seq<Event>, w: World, key: string) returns (es': seq<Event>, v: World)
    requires Reaches(CONFIG, es, w) && w.phase.Running? && w.config == CONFIG && w.holder.Free?
    requires FindKey(w.rows, key).None? && !w.stopping && !w.quarantined && |w.queue| < 2
    ensures Reaches(CONFIG, es', v) && Extends(es, es', 0) && v == w.(holder := SubmitAdmit(Ask(key), false))
  {
    hide Reaches, SameProcess, Timed, OwnerNext, WatchNext, ClientNext, CloserNext;
    es', v := Then(es, w, Submit(Ask(key)), 0);
    es', v := Then(es', v, LockStep(0, 0), 0);
    es', v := Then(es', v, LockStep(0, 0), 0);
    es', v := Then(es', v, LockStep(0, 0), 0);
  }

  /** The whole lock section of a submission that creates a record. */
  lemma Submitted(es: seq<Event>, w: World, key: string) returns (es': seq<Event>, v: World)
    requires Reaches(CONFIG, es, w) && w.phase.Running? && w.config == CONFIG && w.holder.Free?
    requires FindKey(w.rows, key).None? && !w.stopping && !w.quarantined && |w.queue| < 2
    ensures Reaches(CONFIG, es', v) && Extends(es, es', 0)
    ensures v == w.(rows := w.rows + [NewRow(key, "run", "{}", CONFIG.deadlines, 0)], queue := w.queue + [|w.rows|],
                    clients := w.clients[0 := ClientRead(|w.rows|)])
  {
    hide Reaches, SameProcess, Timed, OwnerNext, WatchNext, ClientNext, CloserNext;
    es', v := Gated(es, w, key);
    es', v := Then(es', v, LockStep(0, 0), 0);
    es', v := Then(es', v, LockStep(0, 0), 0);
    es', v := Then(es', v, LockStep(0, 0), 0);
  }

  /** The owner takes the head of the queue up to the point where it has started it. */
  lemma Started(es: seq<Event>, w: World, now: int) returns (es': seq<Event>, v: World)
    requires Reaches(CONFIG, es, w) && w.phase.Running? && w.owner.OwnerTop? && !w.stopping
    requires w.queue != [] && w.queue[0] < |w.rows|
    requires var r := w.rows[w.queue[0]]; r.state.Queued? && r.queueDeadline > now && now >= 0
    ensures Reaches(CONFIG, es', v) && Extends(es, es', now)
    ensures var op := w.queue[0];
            v == w.(rows := Apply(w.rows, Start(op, now)), queue := w.queue[1..], owner := OwnerActivate(op),
                    starts := w.starts + [op])
  {
    es', v := Then(es, w, OwnerStep(now, Killed), now);
    es', v := Then(es', v, OwnerStep(now, Killed), now);
    es', v := Then(es', v, OwnerStep(now, Killed), now);
    es', v := Then(es', v, OwnerStep(now, Killed), now);
  }

  lemma Finished(es: seq<Event>, w: World, op: OpId, now: int) returns (es': seq<Event>, v: World)
    requires now >= 0 && Reaches(CONFIG, es, w) && w.phase.Running?
    requires w.owner == OwnerHandler(op) && w.active == Some(op)
    ensures Reaches(CONFIG, es', v) && Extends(es, es', now)
    ensures v == w.(rows := Apply(w.rows, Complete(op, "ok", now)), owner := OwnerTop, active := None)
  {
    es', v := Then(es, w, OwnerStep(now, Returned("ok")), now);
    es', v := Then(es', v, OwnerStep(now, Killed), now);
    es', v := Then(es', v, OwnerStep(now, Killed), now);
  }

  /** The watchdog finds the active operation overdue and takes the admission lock. */
  lemma Noticed(es: seq<Event>, w: World, op: OpId, now: int) returns (es': seq<Event>, v: World)
    requires now >= 0 && Reaches(CONFIG, es, w) && w.phase.Running?
    requires w.holder.Free? && w.watchdog.WatchTop? && !w.stopping
    requires w.active == Some(op) && op < |w.rows| && w.rows[op].state.InFlight? && Overdue(w.rows[op], now)
    ensures Reaches(CONFIG, es', v) && Extends(es, es', now)
    ensures v == w.(rows := Apply(w.rows, CancelExpired(now)), holder := WatchMark(op), watchdog := WatchInLock(false))
  {
    hide Reaches, SameProcess, Timed, OwnerNext, LockNext, ClientNext, CloserNext;
    es', v := Then(es, w, WatchStep(now), now);
    es', v := Then(es', v, WatchStep(now), now);
    es', v := Then(es', v, WatchStep(now), now);
    es', v := Then(es', v, WatchStep(now), now);
  }

  lemma Quarantined(es: seq<Event>, w: World, op: OpId, now: int) returns (es': seq<Event>, v: World)
    requires now >= 0 && Reaches(CONFIG, es, w) && w.phase.Running?
    requires w.holder == WatchMark(op) && w.watchdog == WatchInLock(false)
    requires Accepted(w.rows, MarkEngineUnresponsive(op))
    ensures Reaches(CONFIG, es', v) && Extends(es, es', now)
    ensures v == w.(rows := Apply(w.rows, MarkEngineUnresponsive(op)), quarantined := true,
                    holder := Free, watchdog := WatchEnd(false))
  {
    hide Reaches, SameProcess, Timed, OwnerNext, WatchNext, ClientNext, CloserNext, Apply;
    es', v := Then(es, w, LockStep(now, 0), now);
    es', v := Then(es', v, LockStep(now, 0), now);
    es', v := Then(es', v, LockStep(now, 0), now);
  }

  /** A first process that is running one operation, with a second one queued. */
  lemma OneRunningOneQueued() returns (es: seq<Event>, w: World)
    ensures Reaches(CONFIG, es, w) && SameProcess(es) && Timed(es, 0)
    ensures w.phase.Running? && w.config == CONFIG && w.holder.Free? && w.watchdog.WatchTop? && !w.stopping
            && !w.quarantined
    ensures w.owner == OwnerHandler(0) && w.active == Some(0) && w.queue == [1] && w.starts == [0]
    ensures |w.rows| == 2 && w.rows[0].state.InFlight? && w.rows[0].startedAt == Some(0) && w.rows[0].healthMs == 1
    ensures w.rows[1].state.Queued? && w.rows[1].queueDeadline == 10 * NS_PER_MS
  {
    es, w := [], Init(CONFIG);
    es, w := Then(es, w, BootStep(0), 0);
    es, w := Then(es, w, BootStep(0), 0);
    es, w := Submitted(es, w, "a");
    es, w := Started(es, w, 0);
    es, w := Then(es, w, OwnerStep(0, Killed), 0);
    es, w := Then(es, w, OwnerStep(0, Killed), 0);
    es, w := Submitted(es, w, "b");
  }

  /** A reachable quarantined worker that goes on to start queued work: the
      owner loop never looks at `_quarantined`. */
  lemma QuarantinedWorkerStartsQueuedWork() returns (es: seq<Event>, w: World, more: seq<Event>, v: World)
    ensures Reaches(CONFIG, es, w) && w.quarantined && w.phase.Running? && w.starts == [0]
    ensures Reaches(CONFIG, more, v) && es <= more && SameProcess(more) && v.quarantined && v.starts == [0, 1]
    ensures Clocked(more, 0)
  {
    var now := 2 * NS_PER_MS;
    es, w := OneRunningOneQueued();
    assert Timed(es, now);
    es, w := Noticed(es, w, 0, now);
    es, w := Quarantined(es, w, 0, now);
    more, v := Finished(es, w, 0, now);
    more, v := Started(more, v, now);
  }

  // ---------------------------------------------------------------------
  // Exactly when something may still start
  // ---------------------------------------------------------------------

  /** Something can still start once the clock has reached `t`: the owner is
      alive, and a QUEUED record that is not yet due for cancellation is in the
      queue or just fetched; or the owner is past the deadline check, about to
      start a QUEUED record. */
  ghost predicate Startable(w: World, t: int) {
    && !w.owner.OwnerKilled? && !w.owner.OwnerDead? && !w.owner.OwnerExited?
    && (|| (exists i :: InTime(w, i, t))
        || (w.owner.OwnerStart? && w.owner.op < |w.rows| && w.rows[w.owner.op].state.Queued?))
  }

  ghost predicate InTime(w: World, i: OpId, t: int) {
    && (i in w.queue || w.owner == OwnerFetched(i))
    && i < |w.rows| && w.rows[i].state.Queued? && w.rows[i].queueDeadline > t
  }

  /** A run that starts something, with no clock reading before `t` and none before an earlier one. */
  ghost predicate Starting(w: World, es: seq<Event>, t: int) {
    SameProcess(es) && Clocked(es, t) && Run(w, es).Some? && Run(w, es).value.starts != w.starts
  }

  // Only startable workers start something.

  lemma OthersLeaveOwner(w: World, e: Event)
    requires w.phase.Running? && Shut(w) && HolderOk(w) && Next(w, e).Some? && !e.Crash? && !e.OwnerStep?
    ensures var v := Next(w, e).value; v.owner == w.owner && v.queue == w.queue && v.starts == w.starts
  {
    hide Apply, Accepted, FindKey, OwnerNext;
  }

  lemma OwnerGets(w: World, now: int, outcome: Outcome)
    requires w.owner.OwnerGet? && OwnerNext(w, now, outcome).Some?
    ensures var v := OwnerNext(w, now, outcome).value;
      && (forall i :: i in v.queue ==> i in w.queue) && !v.owner.OwnerStart?
      && (v.owner.OwnerFetched? ==> v.owner.op in w.queue)
  {
    hide Apply, Accepted;
  }

  lemma OwnerChecks(w: World, now: int, outcome: Outcome)
    requires w.owner.OwnerFetched? && OwnerNext(w, now, outcome).Some?
    ensures var v := OwnerNext(w, now, outcome).value;
      && !v.owner.OwnerFetched?
      && (v.owner.OwnerStart? ==>
            w.owner == OwnerFetched(v.owner.op) && v.owner.op < |w.rows| && w.rows[v.owner.op].state.Queued?
            && now < w.rows[v.owner.op].queueDeadline)
  {
    hide Apply, Accepted;
  }

  lemma OwnerDies(w: World, now: int, outcome: Outcome)
    requires w.owner.OwnerKilled? || w.owner.OwnerDead? || w.owner.OwnerExited?
    requires OwnerNext(w, now, outcome).Some?
    ensures OwnerNext(w, now, outcome).value.owner.OwnerDead?
  {
    hide Apply, Accepted;
  }

  /** What an owner step passes on: nothing new in the queue, only the queue's
      head in hand, and past the deadline check only in time. */
  lemma OwnerHandsOn(w: World, now: int, outcome: Outcome)
    requires OwnerNext(w, now, outcome).Some?
    ensures var v := OwnerNext(w, now, outcome).value;
      && (forall i :: i in v.queue ==> i in w.queue)
      && (v.owner.OwnerFetched? ==> v.owner.op in w.queue)
      && (v.owner.OwnerStart? ==>
            w.owner == OwnerFetched(v.owner.op) && v.owner.op < |w.rows| && w.rows[v.owner.op].state.Queued?
            && now < w.rows[v.owner.op].queueDeadline)
      && (w.owner.OwnerKilled? || w.owner.OwnerDead? || w.owner.OwnerExited? ==> v.owner.OwnerDead?)
  {
    if w.owner.OwnerGet? {
      OwnerGets(w, now, outcome);
    } else {
      OwnerQueue(w, now, outcome);
      if w.owner.OwnerFetched? {
        OwnerChecks(w, now, outcome);
      } else {
        HandEmptied(w, now, outcome);
        if w.owner.OwnerKilled? || w.owner.OwnerDead? || w.owner.OwnerExited? {
          OwnerDies(w, now, outcome);
        }
      }
    }
    hide OwnerNext;
  }

  lemma Queues(before: Row, after: Row)
    requires Follows(before, after) && after.state.Queued?
    ensures before.state.Queued? && before.queueDeadline == after.queueDeadline
  {
  }

  lemma InTimeBefore(w: World, e: Event, t: int, later: int, i: OpId)
    requires Inv(w) && w.phase.Running? && Shut(w) && !e.Crash? && Next(w, e).Some? && t <= later
    requires InTime(Next(w, e).value, i, later)
    ensures InTime(w, i, t)
  {
    var v := Next(w, e).value;
    ShutNext(w, e);
    NextRows(w, e);
    assert HolderOk(w);
    hide Inv, RunningInv, RowsOk, LogOk;
    if e.OwnerStep? {
      OwnerHandsOn(w, e.now, e.outcome);
      assert v == OwnerNext(w, e.now, e.outcome).value;
    } else {
      OthersLeaveOwner(w, e);
    }
    hide Next, OwnerNext, HolderOk, Consumes;
    Queues(w.rows[i], v.rows[i]);
  }

  lemma StartableBefore(w: World, e: Event, t: int, later: int)
    requires Inv(w) && w.phase.Running? && Shut(w) && !e.Crash? && Next(w, e).Some?
    requires t <= later && (Reading(e).Some? ==> t <= Reading(e).value)
    requires Startable(Next(w, e).value, later)
    ensures Startable(w, t)
  {
    var v := Next(w, e).value;
    assert HolderOk(w);
    hide RowsOk, LogOk, RunningInv, Consumes, Shut, HolderOk;
    if i :| InTime(v, i, later) {
      InTimeBefore(w, e, t, later, i);
    }
    if e.OwnerStep? {
      OwnerHandsOn(w, e.now, e.outcome);
      assert v == OwnerNext(w, e.now, e.outcome).value;
      hide Next, OwnerNext;
      if v.owner.OwnerStart? {
        assert InTime(w, v.owner.op, t);
      }
    } else {
      OthersLeaveOwner(w, e);
      NextRows(w, e);
      ShutNext(w, e);
      hide Next;
      if v.owner.OwnerStart? && v.owner.op < |v.rows| && v.rows[v.owner.op].state.Queued? {
        Queues(w.rows[v.owner.op], v.rows[v.owner.op]);
      }
    }
  }

  lemma {:induction false} StartingIsStartable(w: World, es: seq<Event>, t: int)
    requires Inv(w) && w.phase.Running? && Shut(w) && Starting(w, es, t)
    ensures Startable(w, t)
    decreases |es|
  {
    hide Inv, Shut, Next, Startable, Consumes;
    if es != [] {
      var e := es[0];
      var u := Next(w, e).value;
      var later := if Reading(e).Some? then Reading(e).value else t;
      NextInv(w, e);
      ShutNext(w, e);
      StartsChange(w, e);
      if u.starts != w.starts {
        StartsNow(w, t);
      } else {
        StartingIsStartable(u, es[1..], later);
        StartableBefore(w, e, t, later);
      }
    }
  }

  lemma StartsNow(w: World, t: int)
    requires w.owner.OwnerStart? && w.owner.op < |w.rows| && w.rows[w.owner.op].state.Queued?
    ensures Startable(w, t)
  {
  }

  // A startable worker can start something, by owner steps alone.

  /** How many owner steps until the next dequeue, at most. */
  function Steps(pc: OwnerPc): nat {
    match pc
    case OwnerFetched(_) => 12
    case OwnerCancel(_) => 11
    case OwnerStart(_) => 11
    case OwnerActivate(_) => 10
    case OwnerEnter(_) => 9
    case OwnerHandler(_) => 8
    case OwnerComplete(_, _) => 7
    case OwnerFail(_, _) => 7
    case OwnerReconcile(_, _) => 6
    case OwnerFinally(_) => 5
    case OwnerTop => 4
    case OwnerGet => 3
    case _ => 0
  }

  /** One owner step at `t`, with a handler that returns: it starts an operation, or gets nearer to it. */
  lemma OwnerAdvances(w: World, t: int)
    requires Inv(w) && w.phase.Running? && Startable(w, t)
    ensures OwnerNext(w, t, Returned("")).Some?
    ensures var v := OwnerNext(w, t, Returned("")).value;
      && v.phase.Running?
      && (v.starts != w.starts
          || (Startable(v, t) && (|v.queue| < |w.queue| || (v.queue == w.queue && Steps(v.owner) < Steps(w.owner)))))
  {
    assert QueueOk(w.queue, |w.rows|, w.born, w.config.maxQueue, w.owner);
    hide Inv, RunningInv, RowsOk, LogOk;
    var v := OwnerNext(w, t, Returned("")).value;
    if w.owner.OwnerStart? && Accepted(w.rows, Start(w.owner.op, t)) {
      assert v.starts == w.starts + [w.owner.op];
    } else {
      var i :| InTime(w, i, t);
      OwnerAdvancesTo(w, t, i);
    }
  }

  lemma OwnerCanStep(w: World, t: int)
    requires !w.owner.OwnerDead? && !w.owner.OwnerExited?
    ensures OwnerNext(w, t, Returned("")).Some?
  {
    hide Apply, Accepted;
  }

  lemma OwnerLeavesRow(w: World, t: int, i: OpId)
    requires OwnerNext(w, t, Returned("")).Some? && i < |w.rows|
    requires w.owner.OwnerFetched? || Idle(w.owner) || w.owner.op != i
    ensures i < |OwnerNext(w, t, Returned("")).value.rows| && OwnerNext(w, t, Returned("")).value.rows[i] == w.rows[i]
  {
    OwnerRows(w, t, Returned(""));
    hide OwnerNext;
  }

  lemma OwnerStepsDown(w: World, t: int)
    requires !w.owner.OwnerKilled? && !w.owner.OwnerDead? && !w.owner.OwnerExited? && w.queue != []
    requires w.owner.OwnerStart? ==> !Accepted(w.rows, Start(w.owner.op, t))
    ensures OwnerNext(w, t, Returned("")).Some?
    ensures var v := OwnerNext(w, t, Returned("")).value;
      |v.queue| < |w.queue| || (v.queue == w.queue && Steps(v.owner) < Steps(w.owner))
  {
    hide Apply, Accepted;
    match w.owner {
      case OwnerGet =>
      case OwnerTop =>
      case OwnerFetched(_) =>
      case OwnerFail(_, _) =>
      case _ =>
    }
  }

  /** With an operation in time in the queue, the owner's step keeps it there or takes it in hand. */
  lemma OwnerReaches(w: World, t: int, i: OpId)
    requires i in w.queue && (!Idle(w.owner) ==> i != w.owner.op)
    requires !w.owner.OwnerKilled? && !w.owner.OwnerDead? && !w.owner.OwnerExited?
    ensures OwnerNext(w, t, Returned("")).Some?
    ensures var v := OwnerNext(w, t, Returned("")).value;
      && (i in v.queue || v.owner == OwnerFetched(i))
      && !v.owner.OwnerDead? && !v.owner.OwnerExited?
  {
    hide Apply, Accepted;
    match w.owner {
      case OwnerGet =>
      case OwnerTop =>
      case OwnerFetched(_) =>
      case OwnerFail(_, _) =>
      case _ =>
    }
  }

  lemma OwnerSurvives(w: World, t: int)
    requires !w.owner.OwnerFetched? || w.owner.op < |w.rows|
    requires OwnerNext(w, t, Returned("")).Some?
    ensures !OwnerNext(w, t, Returned("")).value.owner.OwnerKilled?
  {
    hide Apply, Accepted;
    match w.owner {
      case OwnerGet =>
      case OwnerHandler(_) =>
      case OwnerFetched(_) =>
      case OwnerFail(_, _) =>
      case _ =>
    }
  }

  lemma OwnerTakes(w: World, t: int, i: OpId)
    requires w.owner == OwnerFetched(i) && i < |w.rows| && w.rows[i].state.Queued? && w.rows[i].queueDeadline > t
    ensures OwnerNext(w, t, Returned("")) == Some(w.(owner := OwnerStart(i)))
  {
  }

  lemma OwnerAdvancesTo(w: World, t: int, i: OpId)
    requires QueueOk(w.queue, |w.rows|, w.born, w.config.maxQueue, w.owner) && InTime(w, i, t)
    requires !w.owner.OwnerKilled? && !w.owner.OwnerDead? && !w.owner.OwnerExited?
    requires w.owner.OwnerStart? ==> !Accepted(w.rows, Start(w.owner.op, t))
    ensures OwnerNext(w, t, Returned("")).Some?
    ensures var v := OwnerNext(w, t, Returned("")).value;
      && v.phase == w.phase && Startable(v, t)
      && (|v.queue| < |w.queue| || (v.queue == w.queue && Steps(v.owner) < Steps(w.owner)))
  {
    OwnerCanStep(w, t);
    OwnerFlags(w, t, Returned(""));
    if w.owner == OwnerFetched(i) {
      OwnerTakes(w, t, i);
    } else {
      var v := OwnerNext(w, t, Returned("")).value;
      assert !Idle(w.owner) ==> i != w.owner.op && w.owner.op < |w.rows|;
      OwnerStepsDown(w, t);
      OwnerReaches(w, t, i);
      OwnerSurvives(w, t);
      OwnerLeavesRow(w, t, i);
      assert InTime(v, i, t);
    }
    hide OwnerNext, QueueOk;
  }

  lemma StartsAtOnce(w: World, e: Event, v: World, t: int)
    requires Next(w, e) == Some(v) && v.starts != w.starts && !e.Crash? && Reading(e) == Some(t)
    ensures Starting(w, [e], t)
  {
    hide Next;
    var es := [e];
    assert es[0] == e && es[1..] == [];
    assert Run(w, es) == Run(v, []) == Some(v) && Clocked(es[1..], t);
  }

  lemma StartsLater(w: World, e: Event, v: World, rest: seq<Event>, t: int)
    requires Next(w, e) == Some(v) && v.starts == w.starts && !e.Crash? && Reading(e) == Some(t)
    requires Starting(v, rest, t)
    ensures Starting(w, [e] + rest, t)
  {
    hide Next;
    var es := [e] + rest;
    assert es[0] == e && es[1..] == rest;
    assert Run(w, es) == Run(v, rest);
  }

  lemma {:induction false} StartableStarts(w: World, t: int) returns (es: seq<Event>)
    requires Inv(w) && w.phase.Running? && Startable(w, t)
    ensures Starting(w, es, t)
    decreases |w.queue|, Steps(w.owner)
  {
    hide Inv, Startable, Steps, OwnerNext, Starting;
    var e := OwnerStep(t, Returned(""));
    OwnerAdvances(w, t);
    NextInv(w, e);
    StartsChange(w, e);
    var v := Next(w, e).value;
    if v.starts != w.starts {
      es := [e];
      StartsAtOnce(w, e, v, t);
    } else {
      var rest := StartableStarts(v, t);
      es := [e] + rest;
      StartsLater(w, e, v, rest, t);
    }
  }

  /** In a worker that is quarantined or closing, whatever its owner is doing,
      a run whose clock never goes back from `t` can still start something
      exactly when the worker is startable at `t`. */
  lemma MayStillStartIff(w: World, t: int)
    requires Inv(w) && w.phase.Running? && Shut(w)
    ensures (exists es :: Starting(w, es, t)) <==> Startable(w, t)
  {
    hide Inv, Shut, Startable, Starting;
    if es :| Starting(w, es, t) {
      StartingIsStartable(w, es, t);
    }
    if Startable(w, t) {
      var es := StartableStarts(w, t);
    }
  }
}
