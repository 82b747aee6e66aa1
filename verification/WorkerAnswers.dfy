/** What whole sections of the worker do: a submission, a watchdog pass, a restart, the end of the owner. */
module WorkerAnswers {
  import opened Common
  import opened Operations
  import opened Worker
  import opened WorkerInvariant
  import opened WorkerSafety

  // ---------------------------------------------------------------------
  // Submissions
  // ---------------------------------------------------------------------

  /** The holder of the admission lock runs to the end of its section, the other threads being silent. */
  function Section(w: World, now: int, client: nat, steps: nat): World
    decreases steps
  {
    if steps == 0 || w.holder.Free? then w else Section(LockNext(w, now, client).value, now, client, steps - 1)
  }

  ghost predicate Known(rows: seq<Row>, key: string, i: OpId) {
    i < |rows| && rows[i].key == key
  }

  lemma FindKeyIs(rows: seq<Row>, key: string, i: OpId)
    requires Known(rows, key, i) && forall j, k :: 0 <= j < k < |rows| ==> rows[j].key != rows[k].key
    ensures FindKey(rows, key) == Some(i)
  {
  }

  /** A repeated key gets its own record back, even from a worker that is full,
      stopping or quarantined, and changes no record; it is refused when it
      carries another request, or one that fails validation. */
  lemma RepeatedSubmission(w: World, req: Request, now: int, client: nat, i: OpId)
    requires Inv(w) && w.phase.Running? && w.holder == SubmitLookup(req) && Known(w.rows, req.key, i)
    ensures var v := Section(w, now, client, 5);
            if req.admissible && w.rows[i].handler == req.handler && w.rows[i].payload == req.payload then
              v == w.(holder := Free, clients := w.clients[client := ClientRead(i)])
            else v == w.(holder := Free)
  {
    hide LogOk, RunningInv;
    FindKeyIs(w.rows, req.key, i);
    var w1 := LockNext(w, now, client).value;
    assert w1 == w.(holder := SubmitAdmit(req, true));
    var w2 := LockNext(w1, now, client).value;
    assert Section(w, now, client, 5) == Section(w1, now, client, 4) == Section(w2, now, client, 3);
  }

  /** A new key is admitted exactly when the worker is open, its queue has room
      and the request is valid: then a QUEUED record and its place at the end of
      the queue come into being together, and the client waits for it. */
  lemma NewSubmission(w: World, req: Request, now: int, client: nat)
    requires Inv(w) && w.phase.Running? && w.holder == SubmitLookup(req)
    requires forall i :: 0 <= i < |w.rows| ==> w.rows[i].key != req.key
    ensures var v := Section(w, now, client, 6);
            if !w.stopping && !w.quarantined && |w.queue| < w.config.maxQueue && req.admissible then
              && |v.rows| == |w.rows| + 1 && v.rows[..|w.rows|] == w.rows
              && v.rows[|w.rows|].key == req.key && v.rows[|w.rows|].handler == req.handler
              && v.rows[|w.rows|].payload == req.payload && v.rows[|w.rows|].state == Queued
              && v == w.(rows := v.rows, queue := w.queue + [|w.rows|], holder := Free,
                         clients := w.clients[client := ClientRead(|w.rows|)])
            else v == w.(holder := Free)
  {
    hide Inv, FindKey;
    assert FindKey(w.rows, req.key).None?;
    var w1 := LockNext(w, now, client).value;
    assert w1 == w.(holder := SubmitGate(req));
    var w2 := LockNext(w1, now, client).value;
    assert Section(w, now, client, 6) == Section(w1, now, client, 5) == Section(w2, now, client, 4);
    if w2.holder.SubmitCapacity? {
      var w3 := LockNext(w2, now, client).value;
      assert Section(w2, now, client, 4) == Section(w3, now, client, 3);
      if w3.holder.SubmitAdmit? {
        var w4 := LockNext(w3, now, client).value;
        assert Section(w3, now, client, 3) == Section(w4, now, client, 2);
        if w4.holder.SubmitPut? {
          var w5 := LockNext(w4, now, client).value;
          assert Section(w4, now, client, 2) == Section(w5, now, client, 1);
        }
      }
    }
  }

  // ---------------------------------------------------------------------
  // Waiting clients
  // ---------------------------------------------------------------------

  /** A waiting client reads on exactly while its record is queued or in flight
      and its deadline is ahead; past the deadline it marks a record in flight,
      and otherwise returns. */
  lemma ClientWaits(w: World, client: nat, op: OpId, now: int)
    requires client in w.clients && w.clients[client] == ClientRead(op) && op < |w.rows|
    ensures var v, r := ClientNext(w, client, now).value, w.rows[op];
            && v == w.(clients := v.clients) && v.clients == w.clients[client := v.clients[client]]
            && (v.clients[client] == ClientRead(op) <==> r.state in {Queued, InFlight} && now < r.clientDeadline)
            && (v.clients[client] == ClientMark(op) <==> r.state == InFlight && r.clientDeadline <= now)
            && (v.clients[client] == ClientDone <==>
                  r.state !in {Queued, InFlight} || (r.state == Queued && r.clientDeadline <= now))
  {
  }

  /** Marking times out a record in flight and no other; a client that comes too late reads again. */
  lemma ClientMarks(w: World, client: nat, op: OpId, now: int)
    requires client in w.clients && w.clients[client] == ClientMark(op)
    ensures var v := ClientNext(w, client, now).value;
            && |v.rows| == |w.rows| && (forall i :: 0 <= i < |w.rows| && i != op ==> v.rows[i] == w.rows[i])
            && (op < |w.rows| && w.rows[op].state == InFlight ==>
                  v.rows[op].state == ClientTimedOut && v.clients[client] == ClientDone)
            && (op < |w.rows| && w.rows[op].state != InFlight ==>
                  v.rows[op] == w.rows[op] && v.clients[client] == ClientRead(op))
  {
  }

  // ---------------------------------------------------------------------
  // The watchdog
  // ---------------------------------------------------------------------

  /** A sweep leaves no QUEUED record whose queue deadline has come, and touches no other record. */
  lemma SweepCancelsTheDue(w: World, now: int)
    requires w.watchdog.WatchSweep?
    ensures var v := WatchNext(w, now).value;
            && |v.rows| == |w.rows|
            && forall i :: 0 <= i < |w.rows| ==>
                 if w.rows[i].state == Queued && w.rows[i].queueDeadline <= now then
                   v.rows[i].state == CancelledBeforeStart && v.rows[i].finishedAt == Some(now)
                 else v.rows[i] == w.rows[i]
  {
  }

  /** Whether the operation the watchdog saw active has run longer than its health threshold. */
  ghost predicate RunsTooLong(rows: seq<Row>, op: OpId, now: int) {
    && op < |rows| && rows[op].state in {InFlight, ClientTimedOut} && rows[op].startedAt.Some?
    && rows[op].startedAt.value + rows[op].healthMs * 1_000_000 <= now
  }

  /** The watchdog asks for the lock exactly when the active operation runs too long. */
  lemma WatchdogActsIff(w: World, now: int)
    requires w.watchdog.WatchCheck?
    ensures WatchNext(w, now).value.watchdog.WatchWantLock? <==>
              w.watchdog.seen.Some? && RunsTooLong(w.rows, w.watchdog.seen.value, now)
    ensures var v := WatchNext(w, now).value;
            v == w.(watchdog := v.watchdog)
            && (v.watchdog.WatchWantLock? ==> v.watchdog.op == w.watchdog.seen.value)
            && (!v.watchdog.WatchWantLock? ==> v.watchdog == WatchEnd(w.watchdog.stopping))
  {
  }

  /** With the lock free and the other threads silent it then marks the record
      and quarantines the worker before it lets the lock go. */
  lemma WatchdogQuarantines(w: World, op: OpId, now: int, client: nat)
    requires w.watchdog.WatchWantLock? && w.watchdog.op == op && w.holder.Free?
    requires op < |w.rows| && w.rows[op].state in {InFlight, ClientTimedOut}
    ensures var v := Section(WatchNext(w, now).value, now, client, 3);
            && |v.rows| == |w.rows| && v.rows[op].state == EngineUnresponsive
            && (forall i :: 0 <= i < |w.rows| && i != op ==> v.rows[i] == w.rows[i])
            && v == w.(rows := v.rows, quarantined := true, watchdog := WatchEnd(w.watchdog.stopping))
  {
    var w1 := WatchNext(w, now).value;
    var w2 := LockNext(w1, now, client).value;
    var w3 := LockNext(w2, now, client).value;
    var w4 := LockNext(w3, now, client).value;
    assert Accepted(w1.rows, MarkEngineUnresponsive(op)) && w2.holder.WatchQuarantine? && w3.holder.WatchLeave?;
    assert Section(w1, now, client, 3) == Section(w2, now, client, 2) == Section(w3, now, client, 1) == w4;
  }

  /** Three steps of the watchdog, the other threads being silent. */
  function Pass(w: World, now: int): World
    requires w.watchdog.WatchTop?
  {
    var w1 := WatchNext(w, now).value;
    var w2 := WatchNext(w1, now).value;
    WatchNext(w2, now).value
  }

  /** A pass goes for exactly the operation that was active when it began, if
      that runs too long, and ends otherwise with only the due records cancelled. */
  lemma WatchdogPass(w: World, now: int)
    requires w.watchdog.WatchTop?
    ensures var v := Pass(w, now);
            && v == w.(rows := v.rows, watchdog := v.watchdog) && |v.rows| == |w.rows|
            && (forall i :: 0 <= i < |w.rows| && w.rows[i].state != Queued ==> v.rows[i] == w.rows[i])
            && v.watchdog == (if w.active.Some? && RunsTooLong(w.rows, w.active.value, now)
                              then WatchWantLock(w.stopping, w.active.value) else WatchEnd(w.stopping))
  {
    var w1 := WatchNext(w, now).value;
    var w2 := WatchNext(w1, now).value;
    SweepCancelsTheDue(w1, now);
    WatchdogActsIff(w2, now);
    assert w1 == w.(watchdog := w1.watchdog) && w2 == w1.(rows := w2.rows, watchdog := w2.watchdog);
    hide Apply;
  }

  /** The watchdog leaves exactly when the worker was stopping as its pass began and the owner has ended. */
  lemma WatchdogLeavesIff(w: World, now: int)
    requires w.watchdog.WatchEnd?
    ensures var v := WatchNext(w, now).value;
            && v == w.(watchdog := v.watchdog)
            && (v.watchdog.WatchExited? <==> w.watchdog.stopping && !OwnerAlive(w.owner))
            && (!v.watchdog.WatchExited? ==> v.watchdog.WatchTop?)
  {
  }

  // ---------------------------------------------------------------------
  // Closing
  // ---------------------------------------------------------------------

  /** The locked section of `close` stops the worker, cancels exactly the QUEUED
      records and begins to wait for the owner. */
  lemma CloseCancelsTheQueued(w: World, closer: nat, now: int, client: nat)
    requires w.holder == CloseStop(closer)
    ensures var v := Section(w, now, client, 3);
            && v == w.(rows := v.rows, stopping := true, holder := Free, closers := w.closers[closer := JoinOwner])
            && |v.rows| == |w.rows|
            && forall i :: 0 <= i < |w.rows| ==>
                 if w.rows[i].state == Queued then
                   v.rows[i].state == CancelledBeforeStart && v.rows[i].finishedAt == Some(now)
                 else v.rows[i] == w.rows[i]
  {
    var w1 := LockNext(w, now, client).value;
    var w2 := LockNext(w1, now, client).value;
    var w3 := LockNext(w2, now, client).value;
    assert Section(w, now, client, 3) == Section(w1, now, client, 2) == Section(w2, now, client, 1) == w3;
  }

  /** Three steps of a closer, the other threads being silent. */
  function GiveUp(w: World, closer: nat): World
    requires closer in w.closers && w.closers[closer].JoinOwner? && OwnerAlive(w.owner)
  {
    var w1 := CloserNext(w, closer, true).value;
    var w2 := CloserNext(w1, closer, true).value;
    if w2.closers[closer].CloseMark? then CloserNext(CloserNext(w2, closer, true).value, closer, true).value
    else CloserNext(w2, closer, true).value
  }

  /** A closer whose wait for a living owner runs out marks the active operation
      unresponsive, if its record is running, quarantines the worker and returns False. */
  lemma CloserGivesUp(w: World, closer: nat)
    requires closer in w.closers && w.closers[closer].JoinOwner? && OwnerAlive(w.owner)
    ensures var v := GiveUp(w, closer);
            && v == w.(rows := v.rows, quarantined := true, closers := w.closers[closer := Closed(false)])
            && |v.rows| == |w.rows|
            && forall i :: 0 <= i < |w.rows| ==>
                 if w.active == Some(i) && w.rows[i].state in {InFlight, ClientTimedOut} then
                   v.rows[i].state == EngineUnresponsive
                 else v.rows[i] == w.rows[i]
  {
    var w1 := CloserNext(w, closer, true).value;
    var w2 := CloserNext(w1, closer, true).value;
    assert w1.closers[closer] == ReadActive && w2.closers == w.closers[closer := w2.closers[closer]];
    if w.active.Some? {
      var w3 := CloserNext(w2, closer, true).value;
      assert w3.closers == w.closers[closer := CloseQuarantine];
    }
  }

  /** A closer gets on only when the thread it waits for has ended or its time
      has run out; it returns True exactly when both have ended in time. */
  lemma CloserReturnsIff(w: World, closer: nat, expired: bool)
    requires closer in w.closers
    ensures var pc, next := w.closers[closer], CloserNext(w, closer, expired);
            && (pc.JoinOwner? ==> (next.Some? <==> !OwnerAlive(w.owner) || expired))
            && (pc.JoinOwner? && next.Some? ==>
                  next.value.closers[closer] == if OwnerAlive(w.owner) then ReadActive else JoinWatchdog)
            && (pc.JoinWatchdog? ==> (next.Some? <==> w.watchdog.WatchExited? || expired))
            && (pc.JoinWatchdog? && next.Some? ==>
                  && next.value.closers[closer] == Closed(w.watchdog.WatchExited?)
                  && (!w.watchdog.WatchExited? ==> next.value.quarantined))
            && (pc.Closed? ==> next.None?)
            && (next.Some? && next.value.closers[closer] == Closed(true) ==>
                  pc.JoinWatchdog? && w.watchdog.WatchExited?)
  {
  }

  // ---------------------------------------------------------------------
  // Restart
  // ---------------------------------------------------------------------

  /** What a restart makes of a record: what may have had an effect needs
      reconciliation, with neither result nor error; what was queued is cancelled; the rest is untouched. */
  ghost predicate Restarted(r: Row, s: Row, now: int, later: int) {
    if r.state in {InFlight, ClientTimedOut, EngineUnresponsive} then
      && s.state == ReconciliationRequired && s.finishedAt == Some(now) && s.result.None? && s.error.None?
      && s.startedAt == r.startedAt
    else if r.state == Queued then
      s.state == CancelledBeforeStart && s.finishedAt == Some(later) && s.startedAt.None?
    else s == r
  }

  lemma RowSettles(r: Row, i: OpId, now: int, later: int)
    requires WellFormed(r)
    ensures Restarted(r, Touch(CancelAll(later), i, Touch(ReconcileOrphans(now), i, r)), now, later)
  {
  }

  /** A crash at any point and the next constructor settle every record. */
  lemma RestartSettles(w: World, config: Config, now: int, later: int)
    requires Inv(w)
    ensures var v := Run(w, [Crash(config), BootStep(now), BootStep(later)]);
            && v.Some? && v.value.phase.Running? && |v.value.rows| == |w.rows|
            && v.value == World(v.value.rows, config, Running, [], false, false, None, Free, OwnerTop, WatchTop,
                                map[], map[], |w.rows|, w.starts, w.entries)
            && forall i :: 0 <= i < |w.rows| ==> Restarted(w.rows[i], v.value.rows[i], now, later)
  {
    RestartRuns(w, config, now, later);
    forall i | 0 <= i < |w.rows|
      ensures Restarted(w.rows[i], Touch(CancelAll(later), i, Touch(ReconcileOrphans(now), i, w.rows[i])), now, later)
    {
      assert RowsOk(w.rows, w.born, w.config.handlers);
      RowSettles(w.rows[i], i, now, later);
    }
    hide Run, WellFormed, Touch, Restarted, LogOk, RunningInv;
  }

  lemma RestartRuns(w: World, config: Config, now: int, later: int)
    ensures Run(w, [Crash(config), BootStep(now), BootStep(later)])
         == Some(Boot(w.rows, config, w.starts, w.entries)
                 .(rows := Apply(Apply(w.rows, ReconcileOrphans(now)), CancelAll(later)), phase := Running))
  {
    hide Apply;
    var es := [Crash(config), BootStep(now), BootStep(later)];
    var w1 := Boot(w.rows, config, w.starts, w.entries);
    var w2 := BootNext(w1, now).value;
    var w3 := BootNext(w2, later).value;
    assert es[1..][1..][1..] == [] && es[1..][0] == BootStep(now) && es[1..][1..][0] == BootStep(later);
    assert Run(w, es) == Run(w1, es[1..]) == Run(w2, es[1..][1..]) == Run(w3, []) == Some(w3);
  }

  // ---------------------------------------------------------------------
  // The end of the threads
  // ---------------------------------------------------------------------

  /** The owner leaves its loop exactly when the worker is stopping and nothing is queued or active. */
  lemma OwnerLeavesIff(w: World, now: int, outcome: Outcome)
    requires w.owner.OwnerTop?
    ensures var v := OwnerNext(w, now, outcome).value;
            && v == w.(owner := v.owner)
            && (v.owner.OwnerExited? <==> w.stopping && w.queue == [] && w.active.None?)
            && (!v.owner.OwnerExited? ==> v.owner.OwnerGet?)
  {
  }

  /** What the ends of the threads say about each other. */
  ghost predicate EndsOk(w: World) {
    && (w.owner.OwnerExited? ==> w.stopping && w.queue == [])
    && (w.watchdog.WatchExited? ==> !OwnerAlive(w.owner))
    && (forall c :: c in w.closers ==>
          && (w.closers[c].JoinWatchdog? ==> !OwnerAlive(w.owner))
          && (w.closers[c] == Closed(true) ==> !OwnerAlive(w.owner) && w.watchdog.WatchExited?)
          && (w.closers[c] == Closed(false) ==> w.quarantined))
  }

  lemma OwnerEnds(w: World, now: int, outcome: Outcome)
    requires OwnerNext(w, now, outcome).Some?
    ensures var v := OwnerNext(w, now, outcome).value;
            && OwnerAlive(w.owner) == !w.owner.OwnerDead? && !w.owner.OwnerExited? && !w.owner.OwnerDead?
            && (v.owner.OwnerExited? ==> v.stopping && v.queue == [])
            && v.closers == w.closers && v.watchdog == w.watchdog && v.quarantined == w.quarantined
  {
    hide Apply, Accepted, Single, Touch;
    match w.owner {
      case OwnerHandler(_) =>
      case OwnerTop =>
      case OwnerFinally(_) =>
      case OwnerKilled(_) =>
      case _ =>
    }
  }

  lemma LockKeepsEnds(w: World, now: int, client: nat)
    requires (w.holder.SubmitPut? ==> !w.stopping) && LockNext(w, now, client).Some?
    ensures var v := LockNext(w, now, client).value;
            && v.owner == w.owner && (w.quarantined ==> v.quarantined) && (w.stopping ==> v.stopping)
            && (w.stopping ==> v.queue == w.queue)
  {
    hide Apply, Accepted;
    if w.holder.SubmitAdmit? {
    } else {
      hide AdmitNext;
    }
  }

  lemma LockKeepsThreads(w: World, now: int, client: nat)
    requires LockNext(w, now, client).Some?
    ensures var v := LockNext(w, now, client).value;
            && (v.watchdog.WatchExited? <==> w.watchdog.WatchExited?)
            && v.closers == if w.holder.CloseLeave? then w.closers[w.holder.closer := JoinOwner] else w.closers
  {
    hide Apply, Accepted, AdmitNext;
    match w.holder {
      case SubmitAdmit(req, _) => AdmitKeepsThreads(w, req, now);
      case SubmitLookup(_) =>
      case SubmitGate(_) =>
      case SubmitCapacity(_) =>
      case SubmitPut(_) =>
      case WatchMark(_) =>
      case WatchLeave =>
      case _ =>
    }
  }

  lemma AdmitKeepsThreads(w: World, req: Request, now: int)
    ensures AdmitNext(w, req, now).closers == w.closers && AdmitNext(w, req, now).watchdog == w.watchdog
  {
  }

  lemma LockEnds(w: World, now: int, client: nat)
    requires HolderOk(w) && EndsOk(w) && LockNext(w, now, client).Some?
    ensures EndsOk(LockNext(w, now, client).value)
  {
    assert w.holder.SubmitPut? ==> !w.stopping;
    LockKeepsEnds(w, now, client);
    LockKeepsThreads(w, now, client);
    hide LockNext, OwnerAlive, Admitting;
  }

  lemma CloserEnds(w: World, closer: nat, expired: bool)
    requires EndsOk(w) && CloserNext(w, closer, expired).Some?
    ensures EndsOk(CloserNext(w, closer, expired).value)
  {
    hide Apply, Accepted;
  }

  lemma OthersEnd(w: World, e: Event)
    requires w.phase.Running? && HolderOk(w) && EndsOk(w) && Next(w, e).Some? && !e.OwnerStep? && !e.Crash?
    ensures EndsOk(Next(w, e).value)
  {
    hide Apply, Accepted, HolderOk, LockNext, CloserNext, OwnerAlive;
    if e.LockStep? {
      LockEnds(w, e.now, e.client);
    } else if e.CloserStep? {
      CloserEnds(w, e.closer, e.expired);
    } else if e.ClientStep? {
    } else {
    }
  }

  lemma EndsNext(w: World, e: Event)
    requires Inv(w) && EndsOk(w) && Next(w, e).Some?
    ensures EndsOk(Next(w, e).value)
  {
    if e.Crash? || e.BootStep? {
      assert Next(w, e).value.closers == map[] && Next(w, e).value.owner.OwnerTop?;
    } else if e.OwnerStep? {
      OwnerEnds(w, e.now, e.outcome);
      hide OwnerNext;
    } else {
      OthersEnd(w, e);
    }
    hide RowsOk, LogOk, QueueOk, HolderOk, WatchOk, CoverOk, LiveOk, ActiveOk, ShutOk, FrontierOk, LockNext, WatchNext,
         ClientNext, CloserNext;
  }

  lemma {:induction false} EndsRun(w: World, es: seq<Event>)
    requires Inv(w) && EndsOk(w) && Run(w, es).Some?
    ensures EndsOk(Run(w, es).value)
    decreases |es|
  {
    if es != [] {
      hide Inv, EndsOk, Next;
      NextInv(w, es[0]);
      EndsNext(w, es[0]);
      EndsRun(Next(w, es[0]).value, es[1..]);
    }
  }

  /** In every reachable state: an owner that left its loop left nothing queued
      behind; `close` has returned True only if both threads have ended, and
      False only if the worker is quarantined. */
  lemma EndsAreClean(config: Config, es: seq<Event>, v: World)
    requires Reaches(config, es, v)
    ensures v.owner.OwnerExited? ==>
              v.stopping && v.queue == [] && forall i :: 0 <= i < |v.rows| ==> v.rows[i].state != Queued
    ensures forall c :: c in v.closers && v.closers[c].Closed? ==>
              if v.closers[c].clean then !OwnerAlive(v.owner) && v.watchdog.WatchExited? else v.quarantined
  {
    InitInv(config);
    EndsRun(Init(config), es);
    ReachableInv(config, es, v);
    hide RowsOk, LogOk, QueueOk, WatchOk, LiveOk, ActiveOk, ShutOk, FrontierOk, Run, Admitting;
  }
}
