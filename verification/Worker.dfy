/** The serialized operation owner as a state machine.

    Submitters, waiting clients, one owner thread, one watchdog and any number
    of closers interleave. One step is one lock section, one store transaction
    or one read of shared state; a thread's program counter keeps what it read
    earlier, so a step may act on stale data. The admission lock holds the
    program counter of whoever holds it. Clock readings are labels, so every
    clock is covered. `Crash` drops the process at any point and starts the
    constructor of the next one over the same rows. */
module Worker {
  import opened Common
  import opened Operations

  datatype Config = Config(maxQueue: nat, deadlines: Deadlines, handlers: set<string>)

  /** `admissible` is the outcome of the name and size checks of `OperationStore.admit`. */
  datatype Request = Request(key: string, handler: string, payload: string, admissible: bool)

  datatype Phase = ReconcilingOrphans | CancellingQueued | Running

  /** Who holds the admission lock, and where in its critical section. */
  datatype Holder =
    | Free
    | SubmitLookup(req: Request)
    | SubmitGate(req: Request)
    | SubmitCapacity(req: Request)
    | SubmitAdmit(req: Request, known: bool)
    | SubmitPut(op: OpId)
    | SubmitLeave(op: OpId)
    | CloseStop(closer: nat)
    | CloseCancel(closer: nat)
    | CloseLeave(closer: nat)
    | WatchMark(op: OpId)
    | WatchQuarantine
    | WatchLeave

  datatype OwnerPc =
    | OwnerTop
    | OwnerGet
    | OwnerFetched(op: OpId)
    | OwnerCancel(op: OpId)
    | OwnerStart(op: OpId)
    | OwnerActivate(op: OpId)
    | OwnerEnter(op: OpId)
    | OwnerHandler(op: OpId)
    | OwnerComplete(op: OpId, result: string)
    | OwnerFail(op: OpId, error: Evidence)
    | OwnerReconcile(op: OpId, error: Evidence)
    | OwnerFinally(op: OpId)
    | OwnerKilled(op: OpId)
    | OwnerDead(op: OpId)
    | OwnerExited

  datatype WatchPc =
    | WatchTop
    | WatchSweep(stopping: bool, seen: Option<OpId>)
    | WatchCheck(stopping: bool, seen: Option<OpId>)
    | WatchWantLock(stopping: bool, op: OpId)
    | WatchInLock(stopping: bool)
    | WatchEnd(stopping: bool)
    | WatchExited

  datatype ClientPc = ClientRead(op: OpId) | ClientMark(op: OpId) | ClientDone

  datatype CloserPc =
    | JoinOwner
    | ReadActive
    | CloseMark(op: OpId)
    | CloseQuarantine
    | JoinWatchdog
    | Closed(clean: bool)

  datatype World = World(
    rows: seq<Row>,
    config: Config,
    phase: Phase,
    queue: seq<OpId>,
    stopping: bool,
    quarantined: bool,
    active: Option<OpId>,
    holder: Holder,
    owner: OwnerPc,
    watchdog: WatchPc,
    clients: map<nat, ClientPc>,
    closers: map<nat, CloserPc>,
    // History, read by no step: the table size when this process began, and
    // the operations started and the handlers entered by all processes.
    born: nat,
    starts: seq<OpId>,
    entries: seq<OpId>)

  function Boot(rows: seq<Row>, config: Config, starts: seq<OpId>, entries: seq<OpId>): World {
    World(rows, config, ReconcilingOrphans, [], false, false, None, Free, OwnerTop, WatchTop, map[], map[],
          |rows|, starts, entries)
  }

  /** The first process, on an empty database. */
  function Init(config: Config): World {
    Boot([], config, [], [])
  }

  /** What a handler invocation does. A result that cannot be serialized raises
      in its own way; `Killed` is an exception outside `Exception`. */
  datatype Outcome =
    | Returned(result: string)
    | Unserializable(exception: string)
    | KnownFailure(exception: string)
    | Uncertain(exception: string)
    | Killed

  datatype Event =
    | Crash(config: Config)
    | BootStep(now: int)
    | Submit(req: Request)
    | Close(closer: nat)
    | LockStep(now: int, client: nat)
    | OwnerStep(now: int, outcome: Outcome)
    | WatchStep(now: int)
    | ClientStep(client: nat, now: int)
    | CloserStep(closer: nat, expired: bool)

  predicate OwnerAlive(pc: OwnerPc) {
    !pc.OwnerDead? && !pc.OwnerExited?
  }

  /** The next state, or None when the event is not possible in `w`. */
  function Next(w: World, e: Event): Option<World> {
    if e.Crash? then Some(Boot(w.rows, e.config, w.starts, w.entries))
    else if e.BootStep? then BootNext(w, e.now)
    else if !w.phase.Running? then None
    else match e
      case Submit(req) =>
        if w.holder.Free? && req.handler in w.config.handlers then Some(w.(holder := SubmitLookup(req))) else None
      case Close(closer) => if w.holder.Free? then Some(w.(holder := CloseStop(closer))) else None
      case LockStep(now, client) => LockNext(w, now, client)
      case OwnerStep(now, outcome) => OwnerNext(w, now, outcome)
      case WatchStep(now) => WatchNext(w, now)
      case ClientStep(client, now) => ClientNext(w, client, now)
      case CloserStep(closer, expired) => CloserNext(w, closer, expired)
  }

  function BootNext(w: World, now: int): Option<World> {
    match w.phase
    case ReconcilingOrphans => Some(w.(rows := Apply(w.rows, ReconcileOrphans(now)), phase := CancellingQueued))
    case CancellingQueued => Some(w.(rows := Apply(w.rows, CancelAll(now)), phase := Running))
    case Running => None
  }

  function LockNext(w: World, now: int, client: nat): Option<World> {
    match w.holder
    case SubmitLookup(req) =>
      Some(w.(holder := if FindKey(w.rows, req.key).Some? then SubmitAdmit(req, true) else SubmitGate(req)))
    case SubmitGate(req) => Some(w.(holder := if w.stopping || w.quarantined then Free else SubmitCapacity(req)))
    case SubmitCapacity(req) =>
      Some(w.(holder := if |w.queue| >= w.config.maxQueue then Free else SubmitAdmit(req, false)))
    case SubmitAdmit(req, _) => Some(AdmitNext(w, req, now))
    case SubmitPut(op) =>
      // `put_nowait` on a full queue raises, leaving the admitted row unqueued.
      Some(if |w.queue| >= w.config.maxQueue then w.(holder := Free)
           else w.(queue := w.queue + [op], holder := SubmitLeave(op)))
    case SubmitLeave(op) => Some(w.(holder := Free, clients := w.clients[client := ClientRead(op)]))
    case CloseStop(closer) => Some(w.(stopping := true, holder := CloseCancel(closer)))
    case CloseCancel(closer) => Some(w.(rows := Apply(w.rows, CancelAll(now)), holder := CloseLeave(closer)))
    case CloseLeave(closer) => Some(w.(holder := Free, closers := w.closers[closer := JoinOwner]))
    case WatchMark(op) =>
      Some(w.(rows := Apply(w.rows, MarkEngineUnresponsive(op)),
              holder := if Accepted(w.rows, MarkEngineUnresponsive(op)) then WatchQuarantine else WatchLeave))
    case WatchQuarantine => Some(w.(quarantined := true, holder := WatchLeave))
    case WatchLeave =>
      Some(w.(holder := Free,
              watchdog := if w.watchdog.WatchInLock? then WatchEnd(w.watchdog.stopping) else w.watchdog))
    case Free => None
  }

  function AdmitNext(w: World, req: Request, now: int): World {
    if !req.admissible then w.(holder := Free)
    else match FindKey(w.rows, req.key)
      case Some(i) =>
        if w.rows[i].handler == req.handler && w.rows[i].payload == req.payload then w.(holder := SubmitLeave(i))
        else w.(holder := Free)
      case None =>
        w.(rows := w.rows + [NewRow(req.key, req.handler, req.payload, w.config.deadlines, now)],
           holder := SubmitPut(|w.rows|))
  }

  function OwnerNext(w: World, now: int, outcome: Outcome): Option<World> {
    match w.owner
    case OwnerTop =>
      Some(w.(owner := if w.stopping && w.queue == [] && w.active.None? then OwnerExited else OwnerGet))
    case OwnerGet =>
      Some(if w.queue == [] then w.(owner := OwnerTop)
           else w.(queue := w.queue[1..], owner := OwnerFetched(w.queue[0])))
    case OwnerFetched(op) =>
      if op >= |w.rows| then Some(w.(owner := OwnerKilled(op)))
      else
        Some(w.(owner := if !w.rows[op].state.Queued? then OwnerFinally(op)
                         else if now >= w.rows[op].queueDeadline then OwnerCancel(op)
                         else OwnerStart(op)))
    case OwnerCancel(op) => Some(w.(rows := Apply(w.rows, CancelBeforeStart(op, now)), owner := OwnerFinally(op)))
    case OwnerStart(op) =>
      Some(if Accepted(w.rows, Start(op, now))
           then w.(rows := Apply(w.rows, Start(op, now)), owner := OwnerActivate(op), starts := w.starts + [op])
           else w.(owner := OwnerFinally(op)))
    case OwnerActivate(op) => Some(w.(active := Some(op), owner := OwnerEnter(op)))
    case OwnerEnter(op) => Some(w.(owner := OwnerHandler(op), entries := w.entries + [op]))
    case OwnerHandler(op) =>
      Some(w.(owner := match outcome
                       case Returned(result) => OwnerComplete(op, result)
                       case KnownFailure(exception) => OwnerFail(op, Evidence(KnownNoEffect, exception))
                       case Uncertain(exception) => OwnerReconcile(op, Evidence(UncertainOutcome, exception))
                       case Unserializable(exception) => OwnerReconcile(op, Evidence(UnserializableOutcome, exception))
                       case Killed => OwnerKilled(op)))
    case OwnerComplete(op, result) =>
      Some(w.(rows := Apply(w.rows, Complete(op, result, now)), owner := OwnerFinally(op)))
    case OwnerFail(op, error) =>
      Some(w.(rows := Apply(w.rows, Fail(op, error, now)),
              owner := if Accepted(w.rows, Fail(op, error, now)) then OwnerFinally(op) else OwnerReconcile(op, error)))
    case OwnerReconcile(op, error) =>
      Some(w.(rows := Apply(w.rows, RequireReconciliation(op, error, now)), owner := OwnerFinally(op)))
    case OwnerFinally(op) => Some(w.(active := if w.active == Some(op) then None else w.active, owner := OwnerTop))
    case OwnerKilled(op) => Some(w.(active := if w.active == Some(op) then None else w.active, owner := OwnerDead(op)))
    case OwnerDead(_) => None
    case OwnerExited => None
  }

  function WatchNext(w: World, now: int): Option<World> {
    match w.watchdog
    case WatchTop => Some(w.(watchdog := WatchSweep(w.stopping, w.active)))
    case WatchSweep(stopping, seen) =>
      Some(w.(rows := Apply(w.rows, CancelExpired(now)), watchdog := WatchCheck(stopping, seen)))
    case WatchCheck(stopping, seen) =>
      Some(w.(watchdog := if seen.Some? && seen.value < |w.rows| && Overdue(w.rows[seen.value], now)
                          then WatchWantLock(stopping, seen.value) else WatchEnd(stopping)))
    case WatchWantLock(stopping, op) =>
      if w.holder.Free? then Some(w.(holder := WatchMark(op), watchdog := WatchInLock(stopping))) else None
    case WatchInLock(_) => None
    case WatchEnd(stopping) =>
      Some(w.(watchdog := if stopping && !OwnerAlive(w.owner) then WatchExited else WatchTop))
    case WatchExited => None
  }

  predicate Overdue(r: Row, now: int) {
    r.startedAt.Some? && (r.state.InFlight? || r.state.ClientTimedOut?)
    && now >= r.startedAt.value + r.healthMs * NS_PER_MS
  }

  function ClientNext(w: World, client: nat, now: int): Option<World> {
    if client !in w.clients then None
    else match w.clients[client]
      case ClientRead(op) =>
        if op >= |w.rows| then Some(w.(clients := w.clients[client := ClientDone]))
        else
          var r := w.rows[op];
          var next := if Terminal(r.state) || r.state.ClientTimedOut? || r.state.EngineUnresponsive? then ClientDone
                      else if r.clientDeadline > now then ClientRead(op)
                      else if r.state.InFlight? then ClientMark(op)
                      else ClientDone;
          Some(w.(clients := w.clients[client := next]))
      case ClientMark(op) =>
        var next := if Accepted(w.rows, MarkClientTimedOut(op)) then ClientDone else ClientRead(op);
        Some(w.(rows := Apply(w.rows, MarkClientTimedOut(op)), clients := w.clients[client := next]))
      case ClientDone => None
  }

  function CloserNext(w: World, closer: nat, expired: bool): Option<World> {
    if closer !in w.closers then None
    else match w.closers[closer]
      case JoinOwner =>
        if !OwnerAlive(w.owner) then Some(w.(closers := w.closers[closer := JoinWatchdog]))
        else if expired then Some(w.(closers := w.closers[closer := ReadActive]))
        else None
      case ReadActive =>
        Some(w.(closers := w.closers[closer := if w.active.Some? then CloseMark(w.active.value) else CloseQuarantine]))
      case CloseMark(op) =>
        Some(w.(rows := Apply(w.rows, MarkEngineUnresponsive(op)), closers := w.closers[closer := CloseQuarantine]))
      case CloseQuarantine => Some(w.(quarantined := true, closers := w.closers[closer := Closed(false)]))
      case JoinWatchdog =>
        if w.watchdog.WatchExited? then Some(w.(closers := w.closers[closer := Closed(true)]))
        else if expired then Some(w.(quarantined := true, closers := w.closers[closer := Closed(false)]))
        else None
      case Closed(_) => None
  }

  /** The state after a schedule, or None if some event is impossible when it comes. */
  function Run(w: World, es: seq<Event>): Option<World>
    decreases |es|
  {
    if es == [] then Some(w)
    else match Next(w, es[0])
      case None => None
      case Some(v) => Run(v, es[1..])
  }
}
