/** Why every operation record is in the state it is in, told by what happened
    in the schedule that led there. */
module WorkerHistory {
  import opened Common
  import opened Operations
  import opened Worker
  import opened WorkerInvariant
  import opened WorkerSafety

  /** What can be seen to happen from outside the store calls. */
  datatype Note =
    | Born(op: OpId, req: Request, deadlines: Deadlines, at: int)
    | Checked(op: OpId, at: int)
    | StartCalled(op: OpId, at: int)
    | CancelCalled(op: OpId, at: int)
    | Ended(op: OpId, outcome: Outcome)
    | Read(op: OpId, at: int)
    | TimedOut(op: OpId)
    | Looked(op: OpId, at: int)
    | GivenUp(op: OpId)
    | Unresponsive(op: OpId)
    | Swept(at: int)
    | CancelledAll(at: int)
    | RecoveredAt(at: int)

  ghost predicate InState(w: World, op: OpId, states: set<OpState>) {
    op < |w.rows| && w.rows[op].state in states
  }

  /** What happens at `e`, read off the state before it and the event alone. */
  ghost function Noted(w: World, e: Event): set<Note> {
    match e
    case BootStep(now) => if w.phase.ReconcilingOrphans? then {RecoveredAt(now)} else {CancelledAll(now)}
    case LockStep(now, _) =>
      (match w.holder
       case SubmitAdmit(req, _) =>
         if req.admissible && forall i :: 0 <= i < |w.rows| ==> w.rows[i].key != req.key then
           {Born(|w.rows|, req, w.config.deadlines, now)}
         else {}
       case CloseCancel(_) => {CancelledAll(now)}
       case WatchMark(op) => if InState(w, op, {InFlight, ClientTimedOut}) then {Unresponsive(op)} else {}
       case _ => {})
    case OwnerStep(now, outcome) =>
      (match w.owner
       case OwnerFetched(op) => {Checked(op, now)}
       case OwnerCancel(op) => {CancelCalled(op, now)}
       case OwnerStart(op) => {StartCalled(op, now)}
       case OwnerHandler(op) => {Ended(op, outcome)}
       case _ => {})
    case WatchStep(now) =>
      (match w.watchdog
       case WatchSweep(_, _) => {Swept(now)}
       case WatchCheck(_, Some(op)) => {Looked(op, now)}
       case _ => {})
    case ClientStep(client, now) =>
      if client !in w.clients then {}
      else (match w.clients[client]
            case ClientRead(op) => {Read(op, now)}
            case ClientMark(op) => if InState(w, op, {InFlight}) then {TimedOut(op)} else {}
            case ClientDone => {})
    case CloserStep(closer, _) =>
      if closer !in w.closers then {}
      else (match w.closers[closer]
            case ReadActive => if w.active.Some? then {GivenUp(w.active.value)} else {}
            case CloseMark(op) => if InState(w, op, {InFlight, ClientTimedOut}) then {Unresponsive(op)} else {}
            case _ => {})
    case _ => {}
  }

  /** Everything that happens in a schedule. */
  ghost function Notes(w: World, es: seq<Event>): set<Note>
    requires Run(w, es).Some?
    decreases |es|
  {
    if es == [] then {} else Noted(w, es[0]) + Notes(Next(w, es[0]).value, es[1..])
  }

  // ---------------------------------------------------------------------
  // Reasons
  // ---------------------------------------------------------------------

  /** The record carries the request it was admitted for, and deadlines counted from that moment. */
  ghost predicate BornAs(r: Row, i: OpId, ns: set<Note>) {
    exists req, d, t :: Born(i, req, d, t) in ns
                        && r.key == req.key && r.handler == req.handler && r.payload == req.payload
                        && r.queueDeadline == t + d.queueMs * 1_000_000
                        && r.clientDeadline == t + d.clientMs * 1_000_000 && r.healthMs == d.healthMs
  }

  ghost predicate InTimeToStart(r: Row, i: OpId, ns: set<Note>) {
    exists t :: Checked(i, t) in ns && t < r.queueDeadline
  }

  ghost predicate TooLateToStart(r: Row, i: OpId, ns: set<Note>) {
    exists t :: Checked(i, t) in ns && r.queueDeadline <= t
  }

  ghost predicate ClientTooLate(r: Row, i: OpId, ns: set<Note>) {
    exists t :: Read(i, t) in ns && r.clientDeadline <= t
  }

  ghost predicate HungTooLong(r: Row, i: OpId, ns: set<Note>) {
    r.startedAt.Some? && exists t :: Looked(i, t) in ns && r.startedAt.value + r.healthMs * 1_000_000 <= t
  }

  ghost predicate StartedAs(r: Row, i: OpId, ns: set<Note>) {
    r.startedAt.Some? ==> StartCalled(i, r.startedAt.value) in ns && InTimeToStart(r, i, ns)
  }

  /** A record is marked timed out, or unresponsive, only for its reason, and the marks agree with its state. */
  ghost predicate MarkedAs(r: Row, i: OpId, ns: set<Note>) {
    && (TimedOut(i) in ns ==> ClientTooLate(r, i, ns))
    && (Unresponsive(i) in ns ==> HungTooLong(r, i, ns) || GivenUp(i) in ns)
    && (r.state in {Queued, CancelledBeforeStart, InFlight} ==> TimedOut(i) !in ns && Unresponsive(i) !in ns)
    && (r.state.ClientTimedOut? ==> TimedOut(i) in ns && Unresponsive(i) !in ns)
    && (r.state.EngineUnresponsive? ==> Unresponsive(i) in ns)
  }

  /** The handler of `i` ended in an exception of this evidence that leaves its effect open. */
  ghost predicate Doubtful(i: OpId, e: Evidence, ns: set<Note>) {
    match e.category
    case UncertainOutcome => Ended(i, Uncertain(e.exception)) in ns
    case UnserializableOutcome => Ended(i, Unserializable(e.exception)) in ns
    case KnownNoEffect => Ended(i, KnownFailure(e.exception)) in ns && Unresponsive(i) in ns
  }

  ghost predicate Recovered(r: Row, i: OpId, born: nat, ns: set<Note>) {
    && i < born && r.state.ReconciliationRequired? && r.result.None? && r.error.None?
    && r.finishedAt.Some? && RecoveredAt(r.finishedAt.value) in ns
  }

  ghost predicate CancelledAs(r: Row, i: OpId, at: int, ns: set<Note>) {
    || CancelledAll(at) in ns
    || (Swept(at) in ns && r.queueDeadline <= at)
    || (CancelCalled(i, at) in ns && TooLateToStart(r, i, ns))
  }

  /** A terminal record tells what its handler did, or why it never ran to its end. */
  ghost predicate EndedAs(r: Row, i: OpId, born: nat, ns: set<Note>) {
    match r.state
    case CancelledBeforeStart => r.finishedAt.Some? && CancelledAs(r, i, r.finishedAt.value, ns)
    case Completed =>
      && r.result.Some? && r.error.None? && Ended(i, Returned(r.result.value)) in ns
      && TimedOut(i) !in ns && Unresponsive(i) !in ns && r.finishedAt.Some? && r.finishedAt.value < r.clientDeadline
    case CompletedAfterClientTimeout =>
      && r.result.Some? && r.error.None? && Ended(i, Returned(r.result.value)) in ns && Unresponsive(i) !in ns
      && r.finishedAt.Some? && (TimedOut(i) in ns || r.clientDeadline <= r.finishedAt.value)
    case Failed =>
      && r.result.None? && r.error.Some? && r.error.value.category.KnownNoEffect?
      && Ended(i, KnownFailure(r.error.value.exception)) in ns && Unresponsive(i) !in ns
    case ReconciliationRequired =>
      || Recovered(r, i, born, ns)
      || (r.result.None? && r.error.Some? && Doubtful(i, r.error.value, ns))
      || (r.result.Some? && r.error.None? && Ended(i, Returned(r.result.value)) in ns && Unresponsive(i) in ns)
    case _ => true
  }

  ghost predicate Explained(r: Row, i: OpId, born: nat, ns: set<Note>) {
    BornAs(r, i, ns) && StartedAs(r, i, ns) && MarkedAs(r, i, ns) && EndedAs(r, i, born, ns)
  }

  ghost predicate RowsExplained(rows: seq<Row>, born: nat, ns: set<Note>) {
    forall i :: 0 <= i < |rows| ==> Explained(rows[i], i, born, ns)
  }

  /** What the owner's program counter remembers has happened. */
  ghost predicate OwnerRemembers(owner: OwnerPc, rows: seq<Row>, entries: seq<OpId>, ns: set<Note>) {
    match owner
    case OwnerCancel(op) => op < |rows| && TooLateToStart(rows[op], op, ns)
    case OwnerStart(op) => op < |rows| && InTimeToStart(rows[op], op, ns)
    case OwnerActivate(op) => forall o :: Ended(op, o) !in ns
    case OwnerEnter(op) => forall o :: Ended(op, o) !in ns
    case OwnerHandler(op) => op in entries && forall o :: Ended(op, o) !in ns
    case OwnerComplete(op, result) => Ended(op, Returned(result)) in ns
    case OwnerFail(op, error) => error.category.KnownNoEffect? && Ended(op, KnownFailure(error.exception)) in ns
    case OwnerReconcile(op, error) => Doubtful(op, error, ns)
    case _ => true
  }

  ghost predicate ClientsRemember(clients: map<nat, ClientPc>, rows: seq<Row>, ns: set<Note>) {
    forall c :: c in clients && clients[c].ClientMark? ==>
                  clients[c].op < |rows| && ClientTooLate(rows[clients[c].op], clients[c].op, ns)
  }

  ghost predicate WatchRemembers(watchdog: WatchPc, holder: Holder, rows: seq<Row>, ns: set<Note>) {
    && (watchdog.WatchWantLock? ==> watchdog.op < |rows| && HungTooLong(rows[watchdog.op], watchdog.op, ns))
    && (holder.WatchMark? ==> holder.op < |rows| && HungTooLong(rows[holder.op], holder.op, ns))
  }

  ghost predicate ClosersRemember(closers: map<nat, CloserPc>, ns: set<Note>) {
    forall c :: c in closers && closers[c].CloseMark? ==> GivenUp(closers[c].op) in ns
  }

  /** Every handler ends at most once, and only after it was entered. */
  ghost predicate EndsOnce(entries: seq<OpId>, ns: set<Note>) {
    && (forall i: OpId, o :: Ended(i, o) in ns ==> i in entries)
    && (forall i: OpId, o, p :: Ended(i, o) in ns && Ended(i, p) in ns ==> o == p)
  }

  /** Marks are only ever made on stored records. */
  ghost predicate MarksStored(size: nat, ns: set<Note>) {
    && (forall i: OpId :: TimedOut(i) in ns ==> i < size)
    && (forall i: OpId :: Unresponsive(i) in ns ==> i < size)
  }

  ghost predicate Told(w: World, ns: set<Note>) {
    && RowsExplained(w.rows, w.born, ns)
    && OwnerRemembers(w.owner, w.rows, w.entries, ns)
    && ClientsRemember(w.clients, w.rows, ns)
    && WatchRemembers(w.watchdog, w.holder, w.rows, ns)
    && ClosersRemember(w.closers, ns)
    && EndsOnce(w.entries, ns)
    && MarksStored(|w.rows|, ns)
  }

  // ---------------------------------------------------------------------
  // One store call on one record
  // ---------------------------------------------------------------------

  /** What must have happened for a store call to be made on this record. */
  ghost predicate Caused(u: Update, i: OpId, r: Row, born: nat, ns: set<Note>) {
    match u
    case Start(id, now) => id == i ==> StartCalled(i, now) in ns && InTimeToStart(r, i, ns)
    case CancelBeforeStart(id, now) => id == i ==> CancelCalled(i, now) in ns && TooLateToStart(r, i, ns)
    case MarkClientTimedOut(id) => id == i ==> ClientTooLate(r, i, ns)
    case MarkEngineUnresponsive(id) => id == i ==> HungTooLong(r, i, ns) || GivenUp(i) in ns
    case Complete(id, result, _) => id == i ==> Ended(i, Returned(result)) in ns
    case Fail(id, e, _) => id == i ==> e.category.KnownNoEffect? && Ended(i, KnownFailure(e.exception)) in ns
    case RequireReconciliation(id, e, _) => id == i ==> Doubtful(i, e, ns)
    case ReconcileOrphans(now) => RecoveredAt(now) in ns && i < born
    case CancelExpired(now) => Swept(now) in ns
    case CancelAll(now) => CancelledAll(now) in ns
  }

  /** The marks made on `i` between `ns` and `more` are those of `u`. */
  ghost predicate MarkedBy(u: Update, i: OpId, r: Row, ns: set<Note>, more: set<Note>) {
    && (TimedOut(i) in more <==> TimedOut(i) in ns || (u == MarkClientTimedOut(i) && r.state.InFlight?))
    && (Unresponsive(i) in more <==>
          || Unresponsive(i) in ns
          || (u == MarkEngineUnresponsive(i) && (r.state.InFlight? || r.state.ClientTimedOut?)))
  }

  lemma KeptReasons(r: Row, t: Row, i: OpId, ns: set<Note>, more: set<Note>)
    requires ns <= more && t.key == r.key && t.handler == r.handler && t.payload == r.payload
    requires t.queueDeadline == r.queueDeadline && t.clientDeadline == r.clientDeadline && t.healthMs == r.healthMs
    requires r.startedAt.Some? ==> t.startedAt == r.startedAt
    ensures BornAs(r, i, ns) ==> BornAs(t, i, more)
    ensures InTimeToStart(r, i, ns) ==> InTimeToStart(t, i, more)
    ensures TooLateToStart(r, i, ns) ==> TooLateToStart(t, i, more)
    ensures ClientTooLate(r, i, ns) ==> ClientTooLate(t, i, more)
    ensures HungTooLong(r, i, ns) ==> HungTooLong(t, i, more)
  {
  }

  lemma TouchIdentity(u: Update, i: OpId, r: Row)
    requires WellFormed(r)
    ensures var t := Touch(u, i, r);
            && t.key == r.key && t.handler == r.handler && t.payload == r.payload
            && t.queueDeadline == r.queueDeadline && t.clientDeadline == r.clientDeadline && t.healthMs == r.healthMs
            && (r.startedAt.Some? ==> t.startedAt == r.startedAt)
  {
  }

  lemma TouchMarks(u: Update, i: OpId, r: Row, born: nat, ns: set<Note>, more: set<Note>)
    requires WellFormed(r) && MarkedAs(r, i, ns) && ns <= more
    requires Caused(u, i, r, born, more) && MarkedBy(u, i, r, ns, more)
    ensures MarkedAs(Touch(u, i, r), i, more)
  {
    TouchIdentity(u, i, r);
    KeptReasons(r, Touch(u, i, r), i, ns, more);
    KeptReasons(r, Touch(u, i, r), i, more, more);
    hide ClientTooLate, HungTooLong, Doubtful, InTimeToStart, TooLateToStart;
  }

  lemma TouchEnds(u: Update, i: OpId, r: Row, born: nat, ns: set<Note>, more: set<Note>)
    requires WellFormed(r) && MarkedAs(r, i, ns) && EndedAs(r, i, born, ns) && ns <= more
    requires Caused(u, i, r, born, more) && MarkedBy(u, i, r, ns, more)
    ensures EndedAs(Touch(u, i, r), i, born, more)
  {
    TouchIdentity(u, i, r);
    KeptReasons(r, Touch(u, i, r), i, ns, more);
    KeptReasons(r, Touch(u, i, r), i, more, more);
    hide ClientTooLate, HungTooLong, InTimeToStart, TooLateToStart;
  }

  lemma TouchExplained(u: Update, i: OpId, r: Row, born: nat, ns: set<Note>, more: set<Note>)
    requires WellFormed(r) && Explained(r, i, born, ns) && ns <= more
    requires Caused(u, i, r, born, more) && MarkedBy(u, i, r, ns, more)
    ensures Explained(Touch(u, i, r), i, born, more)
  {
    TouchIdentity(u, i, r);
    KeptReasons(r, Touch(u, i, r), i, ns, more);
    KeptReasons(r, Touch(u, i, r), i, more, more);
    TouchMarks(u, i, r, born, ns, more);
    TouchEnds(u, i, r, born, ns, more);
    hide BornAs, MarkedAs, EndedAs, InTimeToStart, TooLateToStart, ClientTooLate, HungTooLong, Doubtful;
  }

  // ---------------------------------------------------------------------
  // One step
  // ---------------------------------------------------------------------

  /** The store call of a step is made for its reason. */
  lemma EffectCaused(w: World, e: Event, ns: set<Note>, i: OpId)
    requires Inv(w) && Told(w, ns) && Next(w, e).Some? && Effect(w, e).Some? && i < |w.rows|
    ensures Caused(Effect(w, e).value, i, w.rows[i], w.born, ns + Noted(w, e))
  {
    hide RowsOk, LogOk, RunningInv, RowsExplained, EndsOnce, MarksStored, InState;
    var more := ns + Noted(w, e);
    var r := w.rows[i];
    KeptReasons(r, r, i, ns, more);
    hide InTimeToStart, TooLateToStart, ClientTooLate, HungTooLong;
    match e {
      case BootStep(_) =>
        assert |w.rows| == w.born;
      case OwnerStep(_, _) =>
      case LockStep(_, _) =>
      case WatchStep(_) =>
      case ClientStep(_, _) =>
      case CloserStep(_, _) =>
      case _ =>
    }
  }

  lemma EffectMarks(w: World, e: Event, ns: set<Note>, i: OpId)
    requires Next(w, e).Some? && Effect(w, e).Some? && i < |w.rows|
    ensures MarkedBy(Effect(w, e).value, i, w.rows[i], ns, ns + Noted(w, e))
  {
    hide Next;
    match e {
      case LockStep(_, _) =>
      case ClientStep(_, _) =>
      case CloserStep(_, _) =>
      case _ =>
    }
  }

  lemma QuietMarks(w: World, e: Event)
    requires Next(w, e).Some? && Effect(w, e).None?
    ensures forall i: OpId :: TimedOut(i) !in Noted(w, e) && Unresponsive(i) !in Noted(w, e)
  {
    hide Next;
  }

  lemma KeptExplained(r: Row, i: OpId, born: nat, later: nat, ns: set<Note>, more: set<Note>)
    requires Explained(r, i, born, ns) && ns <= more && born <= later
    requires (TimedOut(i) in more ==> TimedOut(i) in ns) && (Unresponsive(i) in more ==> Unresponsive(i) in ns)
    ensures Explained(r, i, later, more)
  {
    KeptReasons(r, r, i, ns, more);
    hide BornAs, InTimeToStart, ClientTooLate, HungTooLong;
    assert EndedAs(r, i, later, more) by {
      hide MarkedAs, StartedAs;
      if r.state.CancelledBeforeStart? {
        KeptReasons(r, r, i, ns, more);
      }
    }
  }

  lemma BirthExplained(w: World, e: Event, ns: set<Note>)
    requires Told(w, ns) && Next(w, e).Some? && w.phase.Running? && Inserts(w, e)
    ensures Explained(NewRow(w.holder.req.key, w.holder.req.handler, w.holder.req.payload, w.config.deadlines, e.now),
                      |w.rows|, w.born, ns + Noted(w, e))
  {
    hide RowsExplained, OwnerRemembers, ClientsRemember, WatchRemembers, ClosersRemember, EndsOnce, Next;
    var req, d := w.holder.req, w.config.deadlines;
    assert Born(|w.rows|, req, d, e.now) in Noted(w, e);
    assert TimedOut(|w.rows|) !in ns && Unresponsive(|w.rows|) !in ns;
  }

  lemma RowsTold(w: World, e: Event, ns: set<Note>)
    requires Inv(w) && Told(w, ns) && Next(w, e).Some? && !e.Crash?
    ensures RowsExplained(Next(w, e).value.rows, w.born, ns + Noted(w, e))
  {
    var v, more := Next(w, e).value, ns + Noted(w, e);
    StepRows(w, e);
    if Effect(w, e).None? {
      QuietMarks(w, e);
      if Inserts(w, e) {
        StillRunning(w, e);
        BirthExplained(w, e, ns);
      }
    }
    hide RunningInv, Fresh, LogOk, Next, Noted, Explained, OwnerRemembers, ClientsRemember, WatchRemembers,
         ClosersRemember, EndsOnce, Inserts, Effect;
    forall i | 0 <= i < |v.rows|
      ensures Explained(v.rows[i], i, w.born, more)
    {
      if i < |w.rows| {
        if Effect(w, e).Some? {
          EffectCaused(w, e, ns, i);
          EffectMarks(w, e, ns, i);
          TouchExplained(Effect(w, e).value, i, w.rows[i], w.born, ns, more);
        } else {
          KeptExplained(w.rows[i], i, w.born, w.born, ns, more);
        }
      }
    }
  }

  lemma StillRunning(w: World, e: Event)
    requires Next(w, e).Some? && Inserts(w, e)
    ensures w.phase.Running?
  {
  }

  /** What the records keep from one step to the next. */
  ghost predicate SameTerms(rows: seq<Row>, later: seq<Row>) {
    && |rows| <= |later|
    && forall i :: 0 <= i < |rows| ==>
                     && later[i].queueDeadline == rows[i].queueDeadline
                     && later[i].clientDeadline == rows[i].clientDeadline && later[i].healthMs == rows[i].healthMs
                     && (rows[i].startedAt.Some? ==> later[i].startedAt == rows[i].startedAt)
  }

  lemma StepKeepsTerms(w: World, e: Event)
    requires Inv(w) && Next(w, e).Some?
    ensures SameTerms(w.rows, Next(w, e).value.rows)
  {
    StepRows(w, e);
    hide RunningInv, Fresh, LogOk, Next, Inserts, Effect;
    if Effect(w, e).Some? {
      forall i | 0 <= i < |w.rows|
        ensures var r, s := w.rows[i], Next(w, e).value.rows[i];
                && s.queueDeadline == r.queueDeadline && s.clientDeadline == r.clientDeadline
                && s.healthMs == r.healthMs && (r.startedAt.Some? ==> s.startedAt == r.startedAt)
      {
        TouchIdentity(Effect(w, e).value, i, w.rows[i]);
      }
    }
  }

  lemma KeptTerms(rows: seq<Row>, later: seq<Row>, i: OpId, ns: set<Note>, more: set<Note>)
    requires SameTerms(rows, later) && ns <= more && i < |rows|
    ensures InTimeToStart(rows[i], i, ns) ==> InTimeToStart(later[i], i, more)
    ensures TooLateToStart(rows[i], i, ns) ==> TooLateToStart(later[i], i, more)
    ensures ClientTooLate(rows[i], i, ns) ==> ClientTooLate(later[i], i, more)
    ensures HungTooLong(rows[i], i, ns) ==> HungTooLong(later[i], i, more)
  {
  }

  /** A step of another thread leaves the owner and its logs alone. */
  lemma OthersLeave(w: World, e: Event)
    requires Next(w, e).Some? && !e.OwnerStep? && !e.Crash?
    ensures var v := Next(w, e).value; v.owner == w.owner && v.entries == w.entries && v.born == w.born
  {
    hide Apply, Accepted, Noted;
    match e {
      case LockStep(_, _) =>
      case CloserStep(_, _) =>
      case _ =>
    }
  }

  lemma OthersEndNothing(w: World, e: Event)
    requires !e.OwnerStep?
    ensures forall i: OpId, o :: Ended(i, o) !in Noted(w, e)
  {
    match e {
      case LockStep(_, _) =>
      case CloserStep(_, _) =>
      case _ =>
    }
  }

  lemma OthersTold(w: World, e: Event, ns: set<Note>)
    requires Inv(w) && Told(w, ns) && Next(w, e).Some? && !e.OwnerStep? && !e.Crash?
    ensures var v, more := Next(w, e).value, ns + Noted(w, e);
            OwnerRemembers(v.owner, v.rows, v.entries, more) && EndsOnce(v.entries, more)
  {
    var v, more := Next(w, e).value, ns + Noted(w, e);
    OthersLeave(w, e);
    OthersEndNothing(w, e);
    StepKeepsTerms(w, e);
    if w.owner.OwnerCancel? || w.owner.OwnerStart? {
      KeptTerms(w.rows, v.rows, w.owner.op, ns, more);
    }
    hide Inv, Next, Noted, RowsExplained, ClientsRemember, WatchRemembers, ClosersRemember, MarksStored, SameTerms,
         InTimeToStart, TooLateToStart;
  }

  lemma EntryStarted(w: World, op: OpId)
    requires Inv(w) && op in w.entries
    ensures op < |w.rows| && w.rows[op].startedAt.Some?
  {
    hide RunningInv, Fresh, RowsOk;
    var k :| 0 <= k < |w.entries| && w.entries[k] == op;
    var j :| 0 <= j < |w.starts| && w.starts[j] == w.entries[k];
  }

  /** An operation that is still queued has not run. */
  lemma NotEnded(w: World, ns: set<Note>, op: OpId)
    requires Inv(w) && EndsOnce(w.entries, ns) && op < |w.rows| && w.rows[op].state.Queued?
    ensures forall o :: Ended(op, o) !in ns
  {
    assert WellFormed(w.rows[op]);
    if op in w.entries {
      EntryStarted(w, op);
    }
    hide Inv;
  }

  /** A failure that the store refuses finds its record marked unresponsive. */
  lemma RefusedFailure(w: World, ns: set<Note>, op: OpId, e: Evidence, now: int)
    requires Inv(w) && w.phase.Running? && Told(w, ns) && w.owner == OwnerFail(op, e)
    requires !Accepted(w.rows, Fail(op, e, now))
    ensures Unresponsive(op) in ns
  {
    hide RowsOk, LogOk, HolderOk, CoverOk, ShutOk, FrontierOk, BornAs, StartedAs, EndedAs, ClientTooLate, HungTooLong,
         OwnerRemembers, ClientsRemember, WatchRemembers, ClosersRemember, EndsOnce, MarksStored;
    assert op < |w.rows| && Executing(w.owner, op);
    assert Explained(w.rows[op], op, w.born, ns);
  }

  lemma HandlerTold(w: World, now: int, outcome: Outcome, ns: set<Note>)
    requires Told(w, ns) && w.owner.OwnerHandler?
    ensures var v, more := OwnerNext(w, now, outcome).value, ns + {Ended(w.owner.op, outcome)};
            OwnerRemembers(v.owner, v.rows, v.entries, more) && EndsOnce(v.entries, more)
  {
    hide RowsExplained, ClientsRemember, WatchRemembers, ClosersRemember, MarksStored;
    var more := ns + {Ended(w.owner.op, outcome)};
    forall i: OpId, o, p | Ended(i, o) in more && Ended(i, p) in more
      ensures o == p
    {
    }
  }

  lemma StartTold(w: World, now: int, outcome: Outcome, ns: set<Note>)
    requires Inv(w) && Told(w, ns) && w.owner.OwnerStart?
    ensures var v, more := OwnerNext(w, now, outcome).value, ns + {StartCalled(w.owner.op, now)};
            OwnerRemembers(v.owner, v.rows, v.entries, more) && EndsOnce(v.entries, more)
  {
    if Accepted(w.rows, Start(w.owner.op, now)) {
      NotEnded(w, ns, w.owner.op);
    }
    hide Inv, RowsExplained, ClientsRemember, WatchRemembers, ClosersRemember, MarksStored, Apply, InTimeToStart;
  }

  lemma FailTold(w: World, now: int, outcome: Outcome, ns: set<Note>)
    requires Inv(w) && w.phase.Running? && Told(w, ns) && w.owner.OwnerFail?
    ensures var v := OwnerNext(w, now, outcome).value;
            OwnerRemembers(v.owner, v.rows, v.entries, ns) && EndsOnce(v.entries, ns)
  {
    if !Accepted(w.rows, Fail(w.owner.op, w.owner.error, now)) {
      RefusedFailure(w, ns, w.owner.op, w.owner.error, now);
    }
    hide Inv, RowsExplained, ClientsRemember, WatchRemembers, ClosersRemember, MarksStored, Apply, Accepted;
  }

  lemma OwnerTold(w: World, now: int, outcome: Outcome, ns: set<Note>)
    requires Inv(w) && w.phase.Running? && Told(w, ns) && OwnerNext(w, now, outcome).Some?
    ensures var v, more := OwnerNext(w, now, outcome).value, ns + Noted(w, OwnerStep(now, outcome));
            OwnerRemembers(v.owner, v.rows, v.entries, more) && EndsOnce(v.entries, more)
  {
    if w.owner.OwnerHandler? {
      HandlerTold(w, now, outcome, ns);
    } else if w.owner.OwnerStart? {
      StartTold(w, now, outcome, ns);
    } else if w.owner.OwnerFail? {
      FailTold(w, now, outcome, ns);
      assert ns + Noted(w, OwnerStep(now, outcome)) == ns;
    } else if w.owner.OwnerFetched? {
      CheckTold(w, now, outcome, ns);
    } else {
      RestTold(w, now, outcome, ns);
    }
    hide Inv, Told, OwnerRemembers, EndsOnce, OwnerNext;
  }

  lemma CheckTold(w: World, now: int, outcome: Outcome, ns: set<Note>)
    requires Told(w, ns) && w.owner.OwnerFetched?
    ensures var v, more := OwnerNext(w, now, outcome).value, ns + {Checked(w.owner.op, now)};
            OwnerRemembers(v.owner, v.rows, v.entries, more) && EndsOnce(v.entries, more)
  {
    hide RowsExplained, ClientsRemember, WatchRemembers, ClosersRemember, MarksStored;
    assert Checked(w.owner.op, now) in ns + {Checked(w.owner.op, now)};
  }

  lemma RestTold(w: World, now: int, outcome: Outcome, ns: set<Note>)
    requires Told(w, ns) && OwnerNext(w, now, outcome).Some?
    requires !w.owner.OwnerHandler? && !w.owner.OwnerStart? && !w.owner.OwnerFail? && !w.owner.OwnerFetched?
    ensures var v, more := OwnerNext(w, now, outcome).value, ns + Noted(w, OwnerStep(now, outcome));
            OwnerRemembers(v.owner, v.rows, v.entries, more) && EndsOnce(v.entries, more)
  {
    hide RowsExplained, ClientsRemember, WatchRemembers, ClosersRemember, MarksStored, Apply, Accepted;
    var v := OwnerNext(w, now, outcome).value;
    assert w.owner.OwnerEnter? ==> w.owner.op == v.entries[|w.entries|];
    assert forall i: OpId :: i in w.entries ==> i in v.entries;
  }

  /** A client that is about to mark its record has read the clock past the deadline. */
  lemma ClientsMove(w: World, e: Event, c: nat)
    requires Next(w, e).Some? && !e.Crash?
    ensures var v := Next(w, e).value;
            c in v.clients && v.clients[c].ClientMark? ==>
              && c in w.clients
              && (w.clients[c] == v.clients[c]
                  || (e.ClientStep? && e.client == c && w.clients[c] == ClientRead(v.clients[c].op)
                      && v.clients[c].op < |w.rows| && w.rows[v.clients[c].op].clientDeadline <= e.now))
  {
    hide Apply, Accepted, OwnerNext;
    if e.OwnerStep? {
      OwnerAlone(w, e.now, e.outcome);
    }
  }

  lemma OwnerAlone(w: World, now: int, outcome: Outcome)
    requires OwnerNext(w, now, outcome).Some?
    ensures var v := OwnerNext(w, now, outcome).value;
            && v.clients == w.clients && v.closers == w.closers && v.watchdog == w.watchdog && v.holder == w.holder
            && v.born == w.born
  {
    hide Apply, Accepted, Single, Touch;
    match w.owner {
      case OwnerHandler(_) =>
      case OwnerTop =>
      case OwnerFinally(_) =>
      case OwnerKilled(_) =>
      case _ =>
    }
  }

  lemma ClientsTold(w: World, e: Event, ns: set<Note>)
    requires Inv(w) && Told(w, ns) && Next(w, e).Some? && !e.Crash?
    ensures var v := Next(w, e).value; ClientsRemember(v.clients, v.rows, ns + Noted(w, e))
  {
    var v, more := Next(w, e).value, ns + Noted(w, e);
    StepKeepsTerms(w, e);
    hide Inv, Next, RowsExplained, OwnerRemembers, WatchRemembers, ClosersRemember, EndsOnce, MarksStored;
    forall c | c in v.clients && v.clients[c].ClientMark?
      ensures v.clients[c].op < |v.rows| && ClientTooLate(v.rows[v.clients[c].op], v.clients[c].op, more)
    {
      ClientsMove(w, e, c);
      var op := v.clients[c].op;
      if w.clients[c] == v.clients[c] {
        KeptTerms(w.rows, v.rows, op, ns, more);
      } else {
        assert Read(op, e.now) in more && v.rows[op].clientDeadline <= e.now;
      }
    }
  }

  lemma WatchMoves(w: World, e: Event)
    requires Next(w, e).Some? && !e.Crash?
    ensures var v := Next(w, e).value;
            v.watchdog.WatchWantLock? ==>
              || v.watchdog == w.watchdog
              || (e.WatchStep? && w.watchdog.WatchCheck? && w.watchdog.seen == Some(v.watchdog.op)
                  && v.watchdog.op < |w.rows| && w.rows[v.watchdog.op].startedAt.Some?
                  && w.rows[v.watchdog.op].startedAt.value + w.rows[v.watchdog.op].healthMs * 1_000_000 <= e.now)
  {
    hide Apply, Accepted, OwnerNext;
    if e.OwnerStep? {
      OwnerAlone(w, e.now, e.outcome);
    }
  }

  lemma WatchLocks(w: World, e: Event)
    requires Next(w, e).Some? && !e.Crash?
    ensures var v := Next(w, e).value;
            v.holder.WatchMark? ==>
              v.holder == w.holder || (w.watchdog.WatchWantLock? && w.watchdog.op == v.holder.op)
  {
    hide Apply, Accepted, OwnerNext;
    if e.OwnerStep? {
      OwnerAlone(w, e.now, e.outcome);
    }
  }

  lemma WatchTold(w: World, e: Event, ns: set<Note>)
    requires Inv(w) && Told(w, ns) && Next(w, e).Some? && !e.Crash?
    ensures var v := Next(w, e).value; WatchRemembers(v.watchdog, v.holder, v.rows, ns + Noted(w, e))
  {
    var v, more := Next(w, e).value, ns + Noted(w, e);
    StepKeepsTerms(w, e);
    WatchMoves(w, e);
    WatchLocks(w, e);
    hide Inv, Next, RowsExplained, OwnerRemembers, ClientsRemember, ClosersRemember, EndsOnce, MarksStored;
    if v.watchdog.WatchWantLock? {
      var op := v.watchdog.op;
      if v.watchdog == w.watchdog {
        KeptTerms(w.rows, v.rows, op, ns, more);
      } else {
        assert Looked(op, e.now) in more && v.rows[op].startedAt == w.rows[op].startedAt;
      }
    }
    if v.holder.WatchMark? {
      KeptTerms(w.rows, v.rows, v.holder.op, ns, more);
    }
  }

  lemma ClosersMove(w: World, e: Event, c: nat)
    requires Next(w, e).Some? && !e.Crash?
    ensures var v := Next(w, e).value;
            c in v.closers && v.closers[c].CloseMark? ==>
              && c in w.closers
              && (w.closers[c] == v.closers[c]
                  || (e.CloserStep? && e.closer == c && w.closers[c].ReadActive? && w.active == Some(v.closers[c].op)))
  {
    hide Apply, Accepted, OwnerNext;
    if e.OwnerStep? {
      OwnerAlone(w, e.now, e.outcome);
    }
  }

  lemma ClosersTold(w: World, e: Event, ns: set<Note>)
    requires Told(w, ns) && Next(w, e).Some? && !e.Crash?
    ensures ClosersRemember(Next(w, e).value.closers, ns + Noted(w, e))
  {
    var v, more := Next(w, e).value, ns + Noted(w, e);
    hide Next, RowsExplained, OwnerRemembers, ClientsRemember, WatchRemembers, EndsOnce, MarksStored;
    forall c | c in v.closers && v.closers[c].CloseMark?
      ensures GivenUp(v.closers[c].op) in more
    {
      ClosersMove(w, e, c);
    }
  }

  lemma MarksTold(w: World, e: Event, ns: set<Note>)
    requires Told(w, ns) && Next(w, e).Some?
    ensures MarksStored(|Next(w, e).value.rows|, ns + Noted(w, e))
  {
    StepRows(w, e);
    hide Next, Inserts, Effect, RowsExplained, OwnerRemembers, ClientsRemember, WatchRemembers, ClosersRemember,
         EndsOnce;
  }

  lemma CrashTold(w: World, config: Config, ns: set<Note>)
    requires Inv(w) && Told(w, ns)
    ensures Told(Boot(w.rows, config, w.starts, w.entries), ns)
  {
    hide RunningInv, Fresh, LogOk, Explained;
    forall i | 0 <= i < |w.rows|
      ensures Explained(w.rows[i], i, |w.rows|, ns)
    {
      assert Explained(w.rows[i], i, w.born, ns);
      KeptExplained(w.rows[i], i, w.born, |w.rows|, ns, ns);
    }
  }

  lemma StepKeepsBorn(w: World, e: Event)
    requires Next(w, e).Some? && !e.Crash?
    ensures Next(w, e).value.born == w.born
    ensures e.OwnerStep? ==> w.phase.Running? && OwnerNext(w, e.now, e.outcome) == Next(w, e)
  {
    if e.OwnerStep? {
      OwnerAlone(w, e.now, e.outcome);
    } else {
      OthersLeave(w, e);
    }
    hide OwnerNext, LockNext, WatchNext, ClientNext, CloserNext, BootNext, Noted;
  }

  lemma StepTold(w: World, e: Event, ns: set<Note>)
    requires Inv(w) && Told(w, ns) && Next(w, e).Some?
    ensures Told(Next(w, e).value, ns + Noted(w, e))
  {
    if e.Crash? {
      CrashTold(w, e.config, ns);
      assert ns + Noted(w, e) == ns;
    } else {
      StepKeepsBorn(w, e);
      RowsTold(w, e, ns);
      ClientsTold(w, e, ns);
      WatchTold(w, e, ns);
      ClosersTold(w, e, ns);
      MarksTold(w, e, ns);
      if e.OwnerStep? {
        OwnerTold(w, e.now, e.outcome, ns);
      } else {
        OthersTold(w, e, ns);
      }
    }
    hide Inv, OwnerNext, LockNext, WatchNext, ClientNext, CloserNext, BootNext, RowsExplained, OwnerRemembers,
         ClientsRemember, WatchRemembers, ClosersRemember, EndsOnce, MarksStored;
  }

  lemma {:induction false} RunTold(w: World, es: seq<Event>, ns: set<Note>)
    requires Inv(w) && Told(w, ns) && Run(w, es).Some?
    ensures Told(Run(w, es).value, ns + Notes(w, es))
    decreases |es|
  {
    hide Inv, Told, Next, Noted;
    if es == [] {
      assert ns + Notes(w, es) == ns;
    } else {
      var v := Next(w, es[0]).value;
      NextInv(w, es[0]);
      StepTold(w, es[0], ns);
      RunTold(v, es[1..], ns + Noted(w, es[0]));
      assert ns + Noted(w, es[0]) + Notes(v, es[1..]) == ns + Notes(w, es);
    }
  }

  // ---------------------------------------------------------------------
  // The theorems
  // ---------------------------------------------------------------------

  lemma ReachableTold(config: Config, es: seq<Event>, v: World)
    requires Reaches(config, es, v)
    ensures Inv(v) && Told(v, Notes(Init(config), es))
  {
    ReachableInv(config, es, v);
    InitInv(config);
    assert Told(Init(config), {});
    RunTold(Init(config), es, {});
    assert {} + Notes(Init(config), es) == Notes(Init(config), es);
    hide Inv, Told, Run, Notes;
  }

  /** Every record of every reachable state is explained by what happened: it
      carries its request, with deadlines counted from its admission; it was
      started in time, once; it is timed out or unresponsive only if a client or
      the watchdog read the clock that late, or a closer gave it up; and its
      terminal state, result and error are those its handler's end calls for. */
  lemma RecordsAreExplained(config: Config, es: seq<Event>, v: World)
    requires Reaches(config, es, v)
    ensures forall i :: 0 <= i < |v.rows| ==> Explained(v.rows[i], i, v.born, Notes(Init(config), es))
  {
    ReachableTold(config, es, v);
    hide Inv, Explained, OwnerRemembers, ClientsRemember, WatchRemembers, ClosersRemember, EndsOnce, MarksStored;
  }

  /** What a handler's end leaves in its record, once it is stored. */
  ghost predicate Settled(r: Row, i: OpId, o: Outcome, ns: set<Note>) {
    match o
    case Returned(result) =>
      && r.result == Some(result) && r.error.None? && r.finishedAt.Some?
      && r.state == (if Unresponsive(i) in ns then ReconciliationRequired
                     else if TimedOut(i) in ns || r.clientDeadline <= r.finishedAt.value then
                       CompletedAfterClientTimeout
                     else Completed)
    case KnownFailure(x) =>
      && r.error == Some(Evidence(KnownNoEffect, x)) && r.result.None?
      && r.state == (if Unresponsive(i) in ns then ReconciliationRequired else Failed)
    case Uncertain(x) =>
      r.error == Some(Evidence(UncertainOutcome, x)) && r.result.None? && r.state == ReconciliationRequired
    case Unserializable(x) =>
      r.error == Some(Evidence(UnserializableOutcome, x)) && r.result.None? && r.state == ReconciliationRequired
    case Killed => false
  }

  lemma EndIsSettled(r: Row, i: OpId, o: Outcome, born: nat, entries: seq<OpId>, ns: set<Note>)
    requires WellFormed(r) && r.startedAt.Some? && Explained(r, i, born, ns) && EndsOnce(entries, ns)
    requires Ended(i, o) in ns
    ensures Live(r.state) || Recovered(r, i, born, ns) || Settled(r, i, o, ns)
  {
    hide BornAs, StartedAs, ClientTooLate, HungTooLong;
  }

  /** How a handler ended decides the record: its end is stored as it was, or
      not yet, or the process ended first and the next one recovered the record
      without it. When the owner lets go of an operation, its end is stored. */
  lemma OutcomeDecides(config: Config, es: seq<Event>, v: World, i: OpId, o: Outcome)
    requires Reaches(config, es, v) && Ended(i, o) in Notes(Init(config), es)
    ensures var ns := Notes(Init(config), es);
            && i < |v.rows|
            && (Live(v.rows[i].state) || Recovered(v.rows[i], i, v.born, ns) || Settled(v.rows[i], i, o, ns))
            && (v.phase.Running? && v.owner == OwnerFinally(i) ==> Settled(v.rows[i], i, o, ns))
  {
    ReachableTold(config, es, v);
    EntryStarted(v, i);
    EndIsSettled(v.rows[i], i, o, v.born, v.entries, Notes(Init(config), es));
    hide LogOk, HolderOk, CoverOk, ShutOk, FrontierOk, Settled, Explained, OwnerRemembers, ClientsRemember,
         WatchRemembers, ClosersRemember, Notes, Run;
  }
}
