/** The inductive invariant of the operation owner, and its proof. */
module WorkerInvariant {
  import opened Common
  import opened Operations
  import opened Worker

  ghost predicate Sorted(s: seq<OpId>) {
    forall i, j :: 0 <= i < j < |s| ==> s[i] < s[j]
  }

  ghost predicate Below(s: seq<OpId>, op: int) {
    forall i :: 0 <= i < |s| ==> s[i] < op
  }

  ghost predicate Above(s: seq<OpId>, op: int) {
    forall i :: 0 <= i < |s| ==> op < s[i]
  }

  /** The owner has dequeued `op` and has not tried to start it. */
  ghost predicate Pending(pc: OwnerPc, op: OpId) {
    InHand(pc) && pc.op == op
  }

  ghost predicate InHand(pc: OwnerPc) {
    pc.OwnerFetched? || pc.OwnerCancel? || pc.OwnerStart?
  }

  /** The owner has started `op` and not yet settled it, or died while it ran. */
  ghost predicate Executing(pc: OwnerPc, op: OpId) {
    (pc.OwnerActivate? || InHandler(pc) || pc.OwnerKilled? || pc.OwnerDead?) && pc.op == op
  }

  ghost predicate InHandler(pc: OwnerPc) {
    pc.OwnerEnter? || pc.OwnerHandler? || pc.OwnerComplete? || pc.OwnerFail? || pc.OwnerReconcile?
  }

  ghost predicate Idle(pc: OwnerPc) {
    pc.OwnerTop? || pc.OwnerGet? || pc.OwnerExited?
  }

  /** Nothing can be admitted any more by this process. */
  ghost predicate Shut(w: World) {
    w.stopping || w.quarantined || w.holder.WatchQuarantine? || w.holder.CloseStop?
  }

  ghost predicate RowsOk(rows: seq<Row>, born: nat, handlers: set<string>) {
    && born <= |rows|
    && (forall i :: 0 <= i < |rows| ==> WellFormed(rows[i]))
    && (forall i, j :: 0 <= i < j < |rows| ==> rows[i].key != rows[j].key)
    && (forall i :: born <= i < |rows| ==> rows[i].handler in handlers)
  }

  ghost predicate QueueOk(queue: seq<OpId>, size: nat, born: nat, maxQueue: nat, owner: OwnerPc) {
    && Sorted(queue)
    && Below(queue, size)
    && Above(queue, born - 1)
    && |queue| <= maxQueue
    && (!Idle(owner) ==> born <= owner.op < size && Above(queue, owner.op))
  }

  ghost predicate Admitting(w: World, req: Request) {
    && FindKey(w.rows, req.key).None?
    && req.handler in w.config.handlers
  }

  ghost predicate Open(w: World) {
    !w.stopping && !w.quarantined
  }

  ghost predicate HolderOk(w: World) {
    match w.holder
    case SubmitLookup(req) => req.handler in w.config.handlers
    case SubmitGate(req) => Admitting(w, req)
    case SubmitCapacity(req) => Admitting(w, req) && Open(w)
    case SubmitAdmit(req, known) =>
      if known then FindKey(w.rows, req.key).Some?
      else Admitting(w, req) && Open(w) && |w.queue| < w.config.maxQueue
    case SubmitPut(op) =>
      && op == |w.rows| - 1 && w.born <= op
      && Open(w)
      && |w.queue| < w.config.maxQueue
      && Below(w.queue, op)
      && (!Idle(w.owner) ==> w.owner.op < op)
      && w.rows[op].startedAt.None?
    case SubmitLeave(op) => op < |w.rows|
    case CloseCancel(_) => w.stopping
    case CloseLeave(_) => w.stopping
    case _ => true
  }

  /** The watchdog is inside the lock exactly when it holds it. */
  ghost predicate WatchOk(watchdog: WatchPc, holder: Holder) {
    watchdog.WatchInLock? <==> holder.WatchMark? || holder.WatchQuarantine? || holder.WatchLeave?
  }

  ghost predicate CloserOk(closers: map<nat, CloserPc>, stopping: bool) {
    forall c :: c in closers ==> stopping
  }

  /** Every queued record is in the queue, in the owner's hands, or being put there. */
  ghost predicate CoverOk(rows: seq<Row>, queue: seq<OpId>, owner: OwnerPc, holder: Holder) {
    forall i :: 0 <= i < |rows| && rows[i].state.Queued? ==> i in queue || Pending(owner, i) || holder == SubmitPut(i)
  }

  /** The only record that can be running is the one the owner is executing. */
  ghost predicate LiveOk(rows: seq<Row>, owner: OwnerPc) {
    && (forall i :: 0 <= i < |rows| && Live(rows[i].state) ==> Executing(owner, i))
    && (forall i :: 0 <= i < |rows| && Executing(owner, i) ==> Live(rows[i].state))
    && (owner.OwnerFinally? && owner.op < |rows| ==> Terminal(rows[owner.op].state))
  }

  ghost predicate ActiveOk(owner: OwnerPc, active: Option<OpId>) {
    if InHandler(owner) || owner.OwnerKilled? then active == Some(owner.op)
    else if owner.OwnerFinally? then active.None? || active == Some(owner.op)
    else active.None?
  }

  ghost predicate ShutOk(rows: seq<Row>, shut: bool) {
    forall i :: 0 <= i < |rows| && rows[i].state.EngineUnresponsive? ==> shut
  }

  ghost predicate LogOk(rows: seq<Row>, starts: seq<OpId>, entries: seq<OpId>) {
    && Sorted(starts) && Sorted(entries)
    && (forall i :: 0 <= i < |starts| ==> starts[i] < |rows| && rows[starts[i]].startedAt.Some?)
    && (forall i :: 0 <= i < |entries| ==> entries[i] in starts)
  }

  /** What has been started lies before everything that may still start. */
  ghost predicate FrontierOk(starts: seq<OpId>, entries: seq<OpId>, queue: seq<OpId>, owner: OwnerPc) {
    && (forall i, j :: 0 <= i < |starts| && 0 <= j < |queue| ==> starts[i] < queue[j])
    && (!Idle(owner) ==> Below(starts, owner.op + 1))
    && (owner.OwnerFetched? || owner.OwnerCancel? || owner.OwnerStart? ==> Below(starts, owner.op))
    && (owner.OwnerActivate? || owner.OwnerEnter? ==> owner.op in starts && Below(entries, owner.op))
  }

  /** A process that has just begun its constructor. */
  ghost predicate Fresh(w: World) {
    && w == Boot(w.rows, w.config, w.starts, w.entries).(phase := w.phase)
    && (w.phase.CancellingQueued? ==> forall i :: 0 <= i < |w.rows| ==> !Live(w.rows[i].state))
  }

  ghost predicate RunningInv(w: World) {
    && QueueOk(w.queue, |w.rows|, w.born, w.config.maxQueue, w.owner)
    && HolderOk(w)
    && WatchOk(w.watchdog, w.holder)
    && CloserOk(w.closers, w.stopping)
    && CoverOk(w.rows, w.queue, w.owner, w.holder)
    && LiveOk(w.rows, w.owner)
    && ActiveOk(w.owner, w.active)
    && ShutOk(w.rows, Shut(w))
    && FrontierOk(w.starts, w.entries, w.queue, w.owner)
  }

  ghost predicate Inv(w: World) {
    && RowsOk(w.rows, w.born, w.config.handlers)
    && LogOk(w.rows, w.starts, w.entries)
    && if w.phase.Running? then RunningInv(w) else Fresh(w)
  }

  lemma InitInv(config: Config)
    ensures Inv(Init(config))
  {
  }

  lemma FindKeyAfter(rows: seq<Row>, u: Update, key: string)
    ensures FindKey(Apply(rows, u), key) == FindKey(rows, key)
  {
    var after := Apply(rows, u);
    if rows != [] {
      assert after[..|rows| - 1] == Apply(rows[..|rows| - 1], u);
      FindKeyAfter(rows[..|rows| - 1], u, key);
    }
  }

  /** Facts about one row that any store call keeps. */
  lemma TouchRow(u: Update, i: OpId, r: Row)
    requires WellFormed(r)
    ensures var t := Touch(u, i, r);
            && WellFormed(t) && t.key == r.key && t.handler == r.handler
            && (r.startedAt.Some? ==> t.startedAt.Some?)
            && (!u.Start? ==> t.startedAt.Some? ==> r.startedAt.Some?)
            && (t.state.Queued? ==> r.state.Queued?)
            && (Live(t.state) ==> Live(r.state) || u == Start(i, u.now))
            && (Terminal(r.state) ==> t == r)
  {
  }

  /** Any store call keeps the table and the logs consistent. */
  lemma ApplyRows(w: World, u: Update)
    requires RowsOk(w.rows, w.born, w.config.handlers) && LogOk(w.rows, w.starts, w.entries)
    ensures RowsOk(Apply(w.rows, u), w.born, w.config.handlers) && LogOk(Apply(w.rows, u), w.starts, w.entries)
  {
    forall i | 0 <= i < |w.rows|
      ensures var t := Touch(u, i, w.rows[i]);
              && WellFormed(t) && t.key == w.rows[i].key && t.handler == w.rows[i].handler
              && (w.rows[i].startedAt.Some? ==> t.startedAt.Some?)
    {
      TouchRow(u, i, w.rows[i]);
    }
  }

  /** The updates made by threads other than the owner. */
  ghost predicate Background(u: Update) {
    u.MarkClientTimedOut? || u.MarkEngineUnresponsive? || u.CancelExpired? || u.CancelAll?
  }

  /** What a background update does to one row: it neither starts nor ends execution. */
  lemma BackgroundTouch(u: Update, i: OpId, r: Row)
    requires Background(u) && WellFormed(r)
    ensures var t := Touch(u, i, r);
            && Live(t.state) == Live(r.state) && t.startedAt == r.startedAt
            && (t.state.Queued? ==> r.state.Queued?) && (Terminal(r.state) ==> t == r)
            && (!u.MarkEngineUnresponsive? ==> t.state.EngineUnresponsive? ==> r.state.EngineUnresponsive?)
  {
  }

  lemma HolderAfterUpdate(w: World, u: Update)
    requires HolderOk(w) && (u.Start? ==> !w.holder.SubmitPut? || u.id != w.holder.op)
    ensures HolderOk(w.(rows := Apply(w.rows, u)))
  {
    match w.holder
    case SubmitGate(req) => FindKeyAfter(w.rows, u, req.key);
    case SubmitCapacity(req) => FindKeyAfter(w.rows, u, req.key);
    case SubmitAdmit(req, _) => FindKeyAfter(w.rows, u, req.key);
    case _ =>
  }

  lemma BackgroundInv(w: World, u: Update)
    requires Inv(w) && w.phase.Running? && Background(u)
    requires u.MarkEngineUnresponsive? ==> Shut(w)
    ensures Inv(w.(rows := Apply(w.rows, u)))
  {
    hide QueueOk, HolderOk, FrontierOk, ActiveOk, LogOk;
    var v := w.(rows := Apply(w.rows, u));
    ApplyRows(w, u);
    forall i | 0 <= i < |w.rows|
      ensures var t := v.rows[i];
              && Live(t.state) == Live(w.rows[i].state) && t.startedAt == w.rows[i].startedAt
              && (t.state.Queued? ==> w.rows[i].state.Queued?) && (Terminal(w.rows[i].state) ==> t == w.rows[i])
              && (!u.MarkEngineUnresponsive? ==> t.state.EngineUnresponsive? ==> w.rows[i].state.EngineUnresponsive?)
    {
      BackgroundTouch(u, i, w.rows[i]);
    }
    HolderAfterUpdate(w, u);
  }

  lemma CrashInv(w: World, config: Config)
    requires Inv(w)
    ensures Inv(Boot(w.rows, config, w.starts, w.entries))
  {
  }

  lemma BootInv(w: World, now: int)
    requires Inv(w)
    ensures var v := BootNext(w, now); v.Some? ==> Inv(v.value)
  {
    hide RowsOk, LogOk;
    if w.phase.ReconcilingOrphans? {
      var u := ReconcileOrphans(now);
      ApplyRows(w, u);
      forall i | 0 <= i < |w.rows|
        ensures !Live(Touch(u, i, w.rows[i]).state)
      {
      }
    } else if w.phase.CancellingQueued? {
      ApplyRows(w, CancelAll(now));
      QuietInv(BootNext(w, now).value);
    }
  }

  /** With nothing queued and nothing running, a fresh process may start its threads. */
  lemma QuietInv(w: World)
    requires w == Boot(w.rows, w.config, w.starts, w.entries).(phase := Running)
    requires RowsOk(w.rows, w.born, w.config.handlers) && LogOk(w.rows, w.starts, w.entries)
    requires forall i :: 0 <= i < |w.rows| ==> !w.rows[i].state.Queued? && !Live(w.rows[i].state)
    ensures Inv(w)
  {
    hide RowsOk, LogOk;
  }

  /** Steps that change only program counters outside the lock and the owner,
      or set `_quarantined` while stopping. */
  lemma ControlInv(w: World, v: World)
    requires Inv(w) && w.phase.Running?
    requires v == w.(clients := v.clients, closers := v.closers, watchdog := v.watchdog, quarantined := v.quarantined)
    requires v.quarantined == w.quarantined || (v.quarantined && w.stopping)
    requires forall c :: c in v.closers ==> w.stopping
    requires v.watchdog.WatchInLock? == w.watchdog.WatchInLock?
    ensures Inv(v)
  {
    hide RowsOk, LogOk, QueueOk, CoverOk, LiveOk, ActiveOk, FrontierOk;
  }

  lemma ClientInv(w: World, client: nat, now: int)
    requires Inv(w) && w.phase.Running?
    ensures var v := ClientNext(w, client, now); v.Some? ==> Inv(v.value)
  {
    hide RowsOk, LogOk, QueueOk, HolderOk, CoverOk, LiveOk, ActiveOk, ShutOk, FrontierOk;
    var v := ClientNext(w, client, now);
    if v.Some? {
      if w.clients[client].ClientMark? {
        BackgroundInv(w, MarkClientTimedOut(w.clients[client].op));
        ControlInv(w.(rows := v.value.rows), v.value);
      } else {
        ControlInv(w, v.value);
      }
    }
  }

  lemma CloserInv(w: World, closer: nat, expired: bool)
    requires Inv(w) && w.phase.Running?
    ensures var v := CloserNext(w, closer, expired); v.Some? ==> Inv(v.value)
  {
    hide RowsOk, LogOk, QueueOk, HolderOk, CoverOk, LiveOk, ActiveOk, ShutOk, FrontierOk;
    var v := CloserNext(w, closer, expired);
    if v.Some? {
      if w.closers[closer].CloseMark? {
        BackgroundInv(w, MarkEngineUnresponsive(w.closers[closer].op));
        ControlInv(w.(rows := v.value.rows), v.value);
      } else {
        ControlInv(w, v.value);
      }
    }
  }

  lemma WatchInv(w: World, now: int)
    requires Inv(w) && w.phase.Running?
    ensures var v := WatchNext(w, now); v.Some? ==> Inv(v.value)
  {
    hide RowsOk, LogOk, QueueOk, CoverOk, LiveOk, ActiveOk, ShutOk, FrontierOk;
    var v := WatchNext(w, now);
    if v.Some? {
      if w.watchdog.WatchSweep? {
        BackgroundInv(w, CancelExpired(now));
        ControlInv(w.(rows := v.value.rows), v.value);
      } else if w.watchdog.WatchWantLock? {
        HolderMove(w, v.value);
      } else {
        ControlInv(w, v.value);
      }
    }
  }

  /** A step that only moves the lock holder or raises a flag. */
  lemma HolderMove(w: World, v: World)
    requires Inv(w) && w.phase.Running? && !w.holder.SubmitPut? && !v.holder.SubmitPut?
    requires v == w.(holder := v.holder, stopping := v.stopping, quarantined := v.quarantined,
                     watchdog := v.watchdog, clients := v.clients, closers := v.closers)
    requires HolderOk(v) && WatchOk(v.watchdog, v.holder) && CloserOk(v.closers, v.stopping)
    requires Shut(w) ==> Shut(v)
    ensures Inv(v)
  {
    hide RowsOk, LogOk, QueueOk, HolderOk, LiveOk, ActiveOk, FrontierOk;
    assert CoverOk(v.rows, v.queue, v.owner, v.holder);
  }

  lemma SubmitControlInv(w: World, now: int, client: nat)
    requires Inv(w) && w.phase.Running?
    requires w.holder.SubmitLookup? || w.holder.SubmitGate? || w.holder.SubmitCapacity? || w.holder.SubmitLeave?
    ensures Inv(LockNext(w, now, client).value)
  {
    hide LogOk, CoverOk, LiveOk, ActiveOk, ShutOk, FrontierOk;
    HolderMove(w, LockNext(w, now, client).value);
  }

  lemma CloseControlInv(w: World, now: int, client: nat)
    requires Inv(w) && w.phase.Running?
    requires w.holder.CloseStop? || w.holder.CloseLeave? || w.holder.WatchQuarantine? || w.holder.WatchLeave?
    ensures Inv(LockNext(w, now, client).value)
  {
    hide RowsOk, LogOk, QueueOk, CoverOk, LiveOk, ActiveOk, ShutOk, FrontierOk;
    HolderMove(w, LockNext(w, now, client).value);
  }

  lemma PutInv(w: World, op: OpId)
    requires Inv(w) && w.phase.Running? && w.holder == SubmitPut(op)
    ensures Inv(w.(queue := w.queue + [op], holder := SubmitLeave(op)))
  {
    hide RowsOk, LiveOk, ActiveOk;
    var v := w.(queue := w.queue + [op], holder := SubmitLeave(op));
    forall i | 0 <= i < |w.starts|
      ensures w.starts[i] < op
    {
      assert w.rows[w.starts[i]].startedAt.Some?;
    }
    assert QueueOk(v.queue, |v.rows|, v.born, v.config.maxQueue, v.owner);
    assert FrontierOk(v.starts, v.entries, v.queue, v.owner);
    forall i | 0 <= i < |v.rows| && v.rows[i].state.Queued?
      ensures i in v.queue || Pending(v.owner, i)
    {
      if i == op {
        assert v.queue[|w.queue|] == op;
      }
    }
  }

  lemma InsertInv(w: World, req: Request, now: int)
    requires Inv(w) && w.phase.Running? && w.holder == SubmitAdmit(req, false)
    ensures Inv(w.(rows := w.rows + [NewRow(req.key, req.handler, req.payload, w.config.deadlines, now)],
                   holder := SubmitPut(|w.rows|)))
  {
    hide ActiveOk, FrontierOk;
    var row := NewRow(req.key, req.handler, req.payload, w.config.deadlines, now);
    InsertRows(w.rows, row, w.born, w.config.handlers, w.starts, w.entries);
    InsertCover(w.rows, row, w.queue, w.owner, w.holder, Shut(w));
    var v := w.(rows := w.rows + [row], holder := SubmitPut(|w.rows|));
    assert HolderOk(v);
  }

  lemma InsertRows(rows: seq<Row>, row: Row, born: nat, handlers: set<string>, starts: seq<OpId>, entries: seq<OpId>)
    requires RowsOk(rows, born, handlers) && LogOk(rows, starts, entries)
    requires WellFormed(row) && row.handler in handlers && FindKey(rows, row.key).None?
    ensures RowsOk(rows + [row], born, handlers) && LogOk(rows + [row], starts, entries)
  {
  }

  lemma InsertCover(rows: seq<Row>, row: Row, queue: seq<OpId>, owner: OwnerPc, holder: Holder, shut: bool)
    requires row.state.Queued? && !holder.SubmitPut? && (!Idle(owner) ==> owner.op < |rows|)
    requires CoverOk(rows, queue, owner, holder) && LiveOk(rows, owner) && ShutOk(rows, shut)
    ensures var after := rows + [row];
            && CoverOk(after, queue, owner, SubmitPut(|rows|)) && LiveOk(after, owner) && ShutOk(after, shut)
  {
  }

  lemma AdmitInv(w: World, req: Request, known: bool, now: int)
    requires Inv(w) && w.phase.Running? && w.holder == SubmitAdmit(req, known)
    ensures Inv(AdmitNext(w, req, now))
  {
    hide LogOk, QueueOk, CoverOk, LiveOk, ActiveOk, ShutOk, FrontierOk;
    if req.admissible && FindKey(w.rows, req.key).None? {
      InsertInv(w, req, now);
    } else {
      HolderMove(w, AdmitNext(w, req, now));
    }
  }

  lemma LockInv(w: World, now: int, client: nat)
    requires Inv(w) && w.phase.Running?
    ensures var v := LockNext(w, now, client); v.Some? ==> Inv(v.value)
  {
    match w.holder
    case SubmitAdmit(req, known) => AdmitInv(w, req, known, now);
    case SubmitPut(op) => PutInv(w, op);
    case CloseCancel(closer) =>
      BackgroundInv(w, CancelAll(now));
    case WatchMark(op) => WatchMarkInv(w, op);
    case Free =>
    case CloseStop(_) => CloseControlInv(w, now, client);
    case CloseLeave(_) => CloseControlInv(w, now, client);
    case WatchQuarantine => CloseControlInv(w, now, client);
    case WatchLeave => CloseControlInv(w, now, client);
    case _ => SubmitControlInv(w, now, client);
  }

  lemma WatchMarkInv(w: World, op: OpId)
    requires Inv(w) && w.phase.Running? && w.holder == WatchMark(op)
    ensures Inv(w.(rows := Apply(w.rows, MarkEngineUnresponsive(op)),
                   holder := if Accepted(w.rows, MarkEngineUnresponsive(op)) then WatchQuarantine else WatchLeave))
  {
    hide RowsOk, LogOk, QueueOk, LiveOk, ActiveOk, FrontierOk;
    var u := MarkEngineUnresponsive(op);
    if Accepted(w.rows, u) {
      var x := w.(holder := WatchQuarantine);
      BackgroundInv(x, u);
    } else {
      assert Apply(w.rows, u) == w.rows;
    }
  }

  /** The owner moves on with the same operation, or lets go of it. */
  lemma OwnerMove(w: World, v: World)
    requires Inv(w) && w.phase.Running?
    requires v == w.(owner := v.owner, active := v.active)
    requires LiveOk(v.rows, v.owner) && CoverOk(v.rows, v.queue, v.owner, v.holder) && ActiveOk(v.owner, v.active)
    requires Idle(v.owner) || (!Idle(w.owner) && v.owner.op == w.owner.op)
    requires FrontierOk(v.starts, v.entries, v.queue, v.owner)
    ensures Inv(v)
  {
    hide RowsOk, LogOk, LiveOk, ActiveOk, ShutOk, FrontierOk, CoverOk;
  }

  lemma OwnerSameOperation(w: World, v: World)
    requires Inv(w) && w.phase.Running?
    requires v == w.(owner := v.owner, active := v.active) && ActiveOk(v.owner, v.active)
    requires (w.owner.OwnerActivate? && v.owner == OwnerEnter(w.owner.op))
             || (w.owner.OwnerHandler? && (InHandler(v.owner) || v.owner.OwnerKilled?) && !v.owner.OwnerEnter?
                 && v.owner.op == w.owner.op)
             || (w.owner.OwnerFail? && v.owner == OwnerReconcile(w.owner.op, w.owner.error))
             || (w.owner.OwnerKilled? && v.owner == OwnerDead(w.owner.op))
    ensures Inv(v)
  {
    hide RowsOk, LogOk, QueueOk, HolderOk, ShutOk;
    assert forall i: OpId :: Executing(w.owner, i) == Executing(v.owner, i);
    assert LiveOk(v.rows, v.owner);
    assert CoverOk(v.rows, v.queue, v.owner, v.holder);
    OwnerMove(w, v);
  }

  lemma OwnerLetsGo(w: World, v: World)
    requires Inv(w) && w.phase.Running?
    requires v == w.(owner := v.owner, active := v.active) && ActiveOk(v.owner, v.active)
    requires w.owner.OwnerTop? || w.owner.OwnerFinally?
    requires v.owner.OwnerTop? || v.owner.OwnerGet? || v.owner.OwnerExited?
    ensures Inv(v)
  {
    hide RowsOk, LogOk, QueueOk, HolderOk, ShutOk;
    assert forall i: OpId :: !Executing(w.owner, i) && !Executing(v.owner, i);
    assert forall i: OpId :: !Pending(w.owner, i) && !Pending(v.owner, i);
    assert LiveOk(v.rows, v.owner);
    assert CoverOk(v.rows, v.queue, v.owner, v.holder);
    OwnerMove(w, v);
  }

  lemma OwnerFetchedInv(w: World, now: int, outcome: Outcome)
    requires Inv(w) && w.phase.Running? && w.owner.OwnerFetched?
    ensures Inv(OwnerNext(w, now, outcome).value)
  {
    hide LogOk, HolderOk, ShutOk;
    var v := OwnerNext(w, now, outcome).value;
    var op := w.owner.op;
    assert !Executing(w.owner, op);
    assert LiveOk(v.rows, v.owner);
    assert CoverOk(v.rows, v.queue, v.owner, v.holder);
    OwnerMove(w, v);
  }

  lemma DequeueOrder(w: World)
    requires Inv(w) && w.phase.Running? && w.owner.OwnerGet? && w.queue != []
    ensures var v := w.(queue := w.queue[1..], owner := OwnerFetched(w.queue[0]));
            && QueueOk(v.queue, |v.rows|, v.born, v.config.maxQueue, v.owner)
            && FrontierOk(v.starts, v.entries, v.queue, v.owner) && HolderOk(v)
  {
    hide RowsOk, LogOk, CoverOk, LiveOk, ActiveOk, ShutOk;
  }

  lemma DequeueRows(rows: seq<Row>, queue: seq<OpId>, owner: OwnerPc, holder: Holder)
    requires owner.OwnerGet? && queue != [] && LiveOk(rows, owner) && CoverOk(rows, queue, owner, holder)
    ensures LiveOk(rows, OwnerFetched(queue[0])) && CoverOk(rows, queue[1..], OwnerFetched(queue[0]), holder)
  {
    forall i | 0 <= i < |rows| && rows[i].state.Queued?
      ensures i in queue[1..] || Pending(OwnerFetched(queue[0]), i) || holder == SubmitPut(i)
    {
      if i in queue {
        var k :| 0 <= k < |queue| && queue[k] == i;
        assert k > 0 ==> queue[1..][k - 1] == i;
      }
    }
  }

  lemma OwnerGetInv(w: World, now: int, outcome: Outcome)
    requires Inv(w) && w.phase.Running? && w.owner.OwnerGet?
    ensures Inv(OwnerNext(w, now, outcome).value)
  {
    hide RowsOk, LogOk, ShutOk;
    var v := OwnerNext(w, now, outcome).value;
    if w.queue != [] {
      DequeueRows(w.rows, w.queue, w.owner, w.holder);
      DequeueOrder(w);
    } else {
      assert forall i: OpId :: !Pending(w.owner, i) && !Pending(v.owner, i);
      assert LiveOk(v.rows, v.owner);
      assert CoverOk(v.rows, v.queue, v.owner, v.holder);
      OwnerMove(w, v);
    }
  }

  lemma OwnerEnterInv(w: World, now: int, outcome: Outcome)
    requires Inv(w) && w.phase.Running? && w.owner.OwnerEnter?
    ensures var v := OwnerNext(w, now, outcome); v.Some? ==> Inv(v.value)
  {
    hide RowsOk, ShutOk;
    var v := OwnerNext(w, now, outcome).value;
    assert LogOk(v.rows, v.starts, v.entries);
    assert HolderOk(v);
  }

  ghost predicate Settles(rows: seq<Row>, owner: OwnerPc, u: Update) {
    && Single(u) && !Idle(owner) && u.id == owner.op < |rows|
    && (if owner.OwnerCancel? then u.CancelBeforeStart?
        else InHandler(owner) && (u.Complete? || u.RequireReconciliation? || (u.Fail? && Accepted(rows, u))))
  }

  /** Settling the operation the owner executes: afterwards nothing is running. */
  lemma SettleRows(rows: seq<Row>, owner: OwnerPc, u: Update, queue: seq<OpId>, holder: Holder, shut: bool)
    requires Settles(rows, owner, u)
    requires LiveOk(rows, owner) && CoverOk(rows, queue, owner, holder) && ShutOk(rows, shut)
    ensures var after := Apply(rows, u);
            && Terminal(after[u.id].state)
            && (forall i :: 0 <= i < |rows| && i != u.id ==> after[i] == rows[i])
            && LiveOk(after, OwnerFinally(u.id)) && CoverOk(after, queue, OwnerFinally(u.id), holder)
            && ShutOk(after, shut)
  {
    var after := Apply(rows, u);
    forall i | 0 <= i < |rows|
      ensures i != u.id ==> after[i] == rows[i] && !Live(rows[i].state) && !Pending(owner, i)
    {
      assert i != u.id ==> !Executing(owner, i);
    }
    assert !Executing(owner, u.id) ==> !Live(rows[u.id].state);
  }

  lemma OwnerSettleInv(w: World, u: Update)
    requires Inv(w) && w.phase.Running? && Settles(w.rows, w.owner, u)
    ensures Inv(w.(rows := Apply(w.rows, u), owner := OwnerFinally(u.id)))
  {
    hide RowsOk, LogOk, CoverOk, LiveOk, ShutOk;
    var v := w.(rows := Apply(w.rows, u), owner := OwnerFinally(u.id));
    ApplyRows(w, u);
    SettleRows(w.rows, w.owner, u, w.queue, w.holder, Shut(w));
    HolderAfterUpdate(w, u);
    assert w.holder.SubmitPut? ==> v.rows[w.holder.op] == w.rows[w.holder.op];
    assert HolderOk(v);
  }

  lemma OwnerStartInv(w: World, op: OpId, now: int)
    requires Inv(w) && w.phase.Running? && w.owner == OwnerStart(op) && Accepted(w.rows, Start(op, now))
    ensures Inv(w.(rows := Apply(w.rows, Start(op, now)), owner := OwnerActivate(op), starts := w.starts + [op]))
  {
    hide RowsOk;
    var u := Start(op, now);
    var v := w.(rows := Apply(w.rows, u), owner := OwnerActivate(op), starts := w.starts + [op]);
    ApplyRows(w, u);
    StartRows(w.rows, op, now, w.queue, w.holder, Shut(w));
    HolderAfterUpdate(w, u);
    assert LogOk(v.rows, v.starts, v.entries);
    assert HolderOk(v);
    StartFrontier(w.starts, w.entries, w.queue, op);
    assert ActiveOk(v.owner, v.active);
  }

  /** Starting the dequeued operation makes it the only running one. */
  lemma StartRows(rows: seq<Row>, op: OpId, now: int, queue: seq<OpId>, holder: Holder, shut: bool)
    requires op < |rows| && rows[op].state.Queued?
    requires LiveOk(rows, OwnerStart(op)) && CoverOk(rows, queue, OwnerStart(op), holder) && ShutOk(rows, shut)
    ensures var after := Apply(rows, Start(op, now));
            && LiveOk(after, OwnerActivate(op)) && CoverOk(after, queue, OwnerActivate(op), holder)
            && ShutOk(after, shut)
  {
    var after := Apply(rows, Start(op, now));
    forall i | 0 <= i < |rows|
      ensures after[i] == if i == op then Moved(Start(op, now), rows[op]) else rows[i]
      ensures i != op ==> !Live(rows[i].state)
    {
      assert !Executing(OwnerStart(op), i);
    }
  }

  lemma StartFrontier(starts: seq<OpId>, entries: seq<OpId>, queue: seq<OpId>, op: OpId)
    requires FrontierOk(starts, entries, queue, OwnerStart(op)) && Above(queue, op)
    requires forall i :: 0 <= i < |entries| ==> entries[i] in starts
    ensures FrontierOk(starts + [op], entries, queue, OwnerActivate(op))
  {
    assert (starts + [op])[|starts|] == op;
  }

  /** A start that loses its compare-and-swap: the record was cancelled meanwhile. */
  lemma OwnerMissedInv(w: World, op: OpId)
    requires Inv(w) && w.phase.Running? && w.owner == OwnerStart(op) && !w.rows[op].state.Queued?
    ensures Inv(w.(owner := OwnerFinally(op)))
  {
    hide RowsOk, LogOk, QueueOk, HolderOk, ShutOk;
    var v := w.(owner := OwnerFinally(op));
    assert !Executing(w.owner, op);
    assert LiveOk(v.rows, v.owner);
    assert CoverOk(v.rows, v.queue, v.owner, v.holder);
    OwnerMove(w, v);
  }

  lemma OwnerStoreInv(w: World, now: int, outcome: Outcome)
    requires Inv(w) && w.phase.Running?
    requires w.owner.OwnerCancel? || w.owner.OwnerStart? || w.owner.OwnerComplete? || w.owner.OwnerFail?
             || w.owner.OwnerReconcile?
    ensures Inv(OwnerNext(w, now, outcome).value)
  {
    hide RowsOk, LogOk, HolderOk, CoverOk, LiveOk, ShutOk, FrontierOk;
    match w.owner
    case OwnerCancel(op) => OwnerSettleInv(w, CancelBeforeStart(op, now));
    case OwnerStart(op) =>
      if Accepted(w.rows, Start(op, now)) {
        OwnerStartInv(w, op, now);
      } else {
        OwnerMissedInv(w, op);
      }
    case OwnerComplete(op, result) => OwnerSettleInv(w, Complete(op, result, now));
    case OwnerFail(op, error) =>
      if Accepted(w.rows, Fail(op, error, now)) {
        OwnerSettleInv(w, Fail(op, error, now));
      } else {
        assert Apply(w.rows, Fail(op, error, now)) == w.rows;
        OwnerSameOperation(w, OwnerNext(w, now, outcome).value);
      }
    case OwnerReconcile(op, error) => OwnerSettleInv(w, RequireReconciliation(op, error, now));
  }

  lemma OwnerInv(w: World, now: int, outcome: Outcome)
    requires Inv(w) && w.phase.Running?
    ensures var v := OwnerNext(w, now, outcome); v.Some? ==> Inv(v.value)
  {
    hide RowsOk, LogOk, QueueOk, HolderOk, CoverOk, LiveOk, ShutOk, FrontierOk;
    var v := OwnerNext(w, now, outcome);
    match w.owner
    case OwnerTop => OwnerLetsGo(w, v.value);
    case OwnerGet => OwnerGetInv(w, now, outcome);
    case OwnerFetched(_) => OwnerFetchedInv(w, now, outcome);
    case OwnerActivate(_) => OwnerSameOperation(w, v.value);
    case OwnerEnter(_) => OwnerEnterInv(w, now, outcome);
    case OwnerHandler(_) => OwnerSameOperation(w, v.value);
    case OwnerFinally(_) => OwnerLetsGo(w, v.value);
    case OwnerKilled(_) => OwnerSameOperation(w, v.value);
    case OwnerDead(_) =>
    case OwnerExited =>
    case _ => OwnerStoreInv(w, now, outcome);
  }

  lemma NextInv(w: World, e: Event)
    requires Inv(w)
    ensures var v := Next(w, e); v.Some? ==> Inv(v.value)
  {
    hide RowsOk, LogOk, QueueOk, CoverOk, LiveOk, ActiveOk, ShutOk, FrontierOk;
    match e
    case Crash(config) => CrashInv(w, config);
    case BootStep(now) => BootInv(w, now);
    case Submit(_) =>
      var v := Next(w, e);
      if v.Some? { HolderMove(w, v.value); }
    case Close(_) =>
      var v := Next(w, e);
      if v.Some? { HolderMove(w, v.value); }
    case LockStep(now, client) => if w.phase.Running? { LockInv(w, now, client); }
    case OwnerStep(now, outcome) => if w.phase.Running? { OwnerInv(w, now, outcome); }
    case WatchStep(now) => if w.phase.Running? { WatchInv(w, now); }
    case ClientStep(client, now) => if w.phase.Running? { ClientInv(w, client, now); }
    case CloserStep(closer, expired) => if w.phase.Running? { CloserInv(w, closer, expired); }
  }

  /** Every schedule from a state that satisfies the invariant keeps it. */
  lemma {:induction false} RunInv(w: World, es: seq<Event>)
    requires Inv(w)
    ensures var v := Run(w, es); v.Some? ==> Inv(v.value)
    decreases |es|
  {
    if es != [] && Next(w, es[0]).Some? {
      NextInv(w, es[0]);
      RunInv(Next(w, es[0]).value, es[1..]);
    }
  }
}
