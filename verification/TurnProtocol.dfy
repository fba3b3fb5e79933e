/**
  The durable turn protocol as a state machine.  Web handlers and Telegram runners create turns; the job
  queue delivers a web turn to workers at least once; recovery, cancel and error handlers finalize turns
  from outside; readers tail the event log.  Every await of the code is a step of its own, any process may
  die or be cancelled at any step, and any lock or lease may be dropped at any time behind its deadline.

  `Next` is total: an action whose guard does not hold changes nothing, so a schedule is any sequence of
  actions, and what holds of every schedule holds of every interleaving.
*/
module TurnProtocol {
  import opened KeyStore
  import opened TurnStore
  import L = TurnLedger
  import Locks = TurnLocks
  import R = Recovery

  // ---------- events of a turn ----------

  datatype Frame = Content(payload: string) | DoneFrame(finalText: string) | ErrorFrame(code: string)

  predicate IsTerminal(f: Frame) {
    f.DoneFrame? || f.ErrorFrame?
  }

  predicate HasTerminal(log: seq<Frame>) {
    exists i :: 0 <= i < |log| && IsTerminal(log[i])
  }

  predicate HasDone(log: seq<Frame>) {
    exists i :: 0 <= i < |log| && log[i].DoneFrame?
  }

  // ---------- processes ----------

  datatype Kind = Web | Tg

  /** Where a runner stands: runner.py's execute_turn_inner, and _run_locked of tg/turn/runner.py. */
  datatype Pc =
    | Locking        // hold_turn_locks: SET NX
    | LockCheck      // hold_turn_locks: GET after a failed SET NX
    | Leasing        // lease.acquire
    | Streaming      // async for event in stream_turn
    | Noting(frame: Frame)  // published, update_last_event still to come
    | Unlocking      // leaving hold_turn_locks
    | CrashPublish   // except Exception
    | LeaseRelease   // finally
    | SafetyPublish
    | Finalizing
    | RateRelease
    | Exited
    | Dead

  /** Why the try block was left. */
  datatype Exit = Normally | ByCrash | ByCancel | BySkip  // redelivery_skip

  /** What the runner has taken so far: the chat's lock, then (as a worker) the turn's lease. */
  datatype Held = Nothing | Lock | LockAndLease

  datatype Ownership = Owned | Lost  // ownership_lost is set

  datatype Runner = Runner(
    kind: Kind, turn: nat, chat: nat, holder: nat, pc: Pc,
    status: Option<Status>,  // terminal_status
    error: Option<string>,   // terminal_error[0]
    published: bool,         // terminal_published
    exit: Exit,
    held: Held,
    ownership: Ownership)

  function NewRunner(kind: Kind, turn: nat, chat: nat, holder: nat): Runner {
    Runner(kind, turn, chat, holder, Locking, None, None, false, Normally, Nothing, Owned)
  }

  /** The finalizers outside the runners, and the order of their steps. */
  datatype SweepKind =
    | Orphan         // recovery.py _finalize_orphan: the lock goes before the transaction commits
    | LeaseExpired   // recovery.py _finalize_lease_expired: check, finalize, release
    | Zombie         // rpc/chat/service.py _handle_active_turn
    | StaleSidecar   // _handle_stale_turn
    | EnqueueFailed  // _enqueue_turn
    | UserCancel     // tg/turn/control.py cancel_turn

  datatype SweepPc = Checking | LeaseCheck | ReleaseFirst | Closing | ReleaseAfter | Over

  datatype Sweeper = Sweeper(kind: SweepKind, turn: nat, chat: nat, pc: SweepPc)

  datatype ReadPc = Reading | Delivering | CheckDb | Finishing | ReadOver | Gone

  /** A client that tails a turn's log: run_turn and tail_turn of rpc/chat/service.py over TurnStream.tail. */
  datatype Reader = Reader(
    turn: nat, start: nat, cursor: nat, batch: nat, pc: ReadPc,
    seen: seq<Frame>, synthetic: Option<Frame>)

  datatype State = State(
    web: set<nat>,                 // chats whose turns run as jobs of the broker; the others belong to Telegram
    db: L.Db,
    active: Store<nat, nat>,       // turn:active:{chat} -> turn
    leases: Store<nat, nat>,       // turn:lease:{turn} -> worker process
    logs: map<nat, seq<Frame>>,    // turn:{turn}:events
    rate: int,                     // rate_limit.release_turn calls, counted down
    queue: set<nat>,               // jobs the broker may deliver, again and again
    runners: map<nat, Runner>,
    sweepers: map<nat, Sweeper>,
    readers: map<nat, Reader>,
    touched: set<nat>,             // ghost: the runners that have changed a row, a log or the rate counter
    noted: map<nat, Frame>,        // ghost: the last terminal event each worker has published and noted
    clock: int)

  function Init(web: set<nat>): State {
    State(web, L.EMPTY, map[], map[], map[], 0, {}, map[], map[], map[], {}, map[], 0)
  }

  function Log(s: State, t: nat): seq<Frame> {
    if t in s.logs then s.logs[t] else []
  }

  // ---------- shared effects ----------

  /** What one step does to the shared stores. */
  datatype Effect = Effect(
    db: L.DbOp,
    lock: Option<Op<nat, nat>>,
    lease: Option<Op<nat, nat>>,
    publish: Option<(nat, Frame)>,
    rate: int)

  const NOTHING := Effect(L.Read, None, None, None, 0)

  function OnDb(op: L.DbOp): Effect {
    Effect(op, None, None, None, 0)
  }

  function OnLock(op: Op<nat, nat>): Effect {
    Effect(L.Read, Some(op), None, None, 0)
  }

  function OnLease(op: Op<nat, nat>): Effect {
    Effect(L.Read, None, Some(op), None, 0)
  }

  function OnLog(t: nat, f: Frame): Effect {
    Effect(L.Read, None, None, Some((t, f)), 0)
  }

  function Keys(m: Store<nat, nat>, op: Option<Op<nat, nat>>): Store<nat, nat> {
    if op.Some? then KeyStore.Apply(m, op.value) else m
  }

  function Appended(logs: map<nat, seq<Frame>>, publish: Option<(nat, Frame)>): map<nat, seq<Frame>> {
    if publish.None? then logs
    else
      var (t, f) := publish.value;
      logs[t := (if t in logs then logs[t] else []) + [f]]
  }

  function Commit(s: State, e: Effect): State {
    s.(db := L.Apply(s.db, e.db),
       active := Keys(s.active, e.lock),
       leases := Keys(s.leases, e.lease),
       logs := Appended(s.logs, e.publish),
       rate := s.rate + e.rate)
  }

  /** The effect reaches turn rows, an event log or the rate counter. */
  predicate Touches(s: State, e: Effect) {
    L.Apply(s.db, e.db) != s.db || e.publish.Some? || e.rate != 0
  }

  // ---------- steps of a runner ----------

  /** What the environment decides for a runner's step. */
  datatype Choice =
    | Go
    | Emit(frame: Frame)        // stream_turn yields an event
    | EndStream                 // stream_turn is exhausted
    | Outcome(status: Status, error: Option<string>)  // Telegram: CodexTurnTerminal or TimeoutError
    | Started(thread: string, codexTurn: string)  // on_started: mark_running
    | BeatRow | BeatLock | BeatLease              // the three CAS refreshes of heartbeat_loop
    | Crash | Cancel | Die

  predicate InTry(pc: Pc) {
    pc.Locking? || pc.LockCheck? || pc.Leasing? || pc.Streaming? || pc.Noting?
  }

  /** _build_terminal_event */
  function BuildTerminal(status: Option<Status>, error: Option<string>): Frame {
    if status == Some(Completed) then DoneFrame("") else ErrorFrame(CodeOr(error, "stream_dropped"))
  }

  /** `code or default`: an empty code counts as none. */
  function CodeOr(code: Option<string>, default: string): string {
    if code.Some? && code.value != "" then code.value else default
  }

  function RunnerStep(s: State, k: Runner, c: Choice): (Effect, Runner) {
    match c
    case Go => if InTry(k.pc) then Advance(s, k) else Teardown(s, k)
    case Die => (NOTHING, if k.pc.Exited? then k else k.(pc := Dead))
    case Cancel => (NOTHING, if InTry(k.pc) then k.(exit := ByCancel, status := Some(Cancelled), pc := Unlocking) else k)
    case Crash =>
      (NOTHING, if InTry(k.pc) then k.(exit := ByCrash, status := Some(Failed), error := Some("codex_error"), pc := Unlocking) else k)
    case _ => if k.pc.Streaming? || (Beats(k) && IsBeat(c)) then Stream(s, k, c) else (NOTHING, k)
  }

  predicate IsBeat(c: Choice) {
    c.BeatRow? || c.BeatLock? || c.BeatLease?
  }

  /** A worker's heartbeat starts with the lease and is only ended in the finally block, right before the lease is released. */
  predicate Beats(k: Runner) {
    || k.pc.Noting?
    || (k.kind.Web? && k.held.LockAndLease? && (k.pc.Unlocking? || k.pc.CrashPublish? || k.pc.LeaseRelease?))
  }

  /** While the stream is open: its events and the heartbeat. Only a worker publishes, holds a lease and minds its loss. */
  function Stream(s: State, k: Runner, c: Choice): (Effect, Runner) {
    match c
    case BeatRow => (OnDb(L.Beat(k.turn, s.clock)), if IsActive(s.db.rows, k.turn) then k else k.(ownership := Lost))
    case BeatLock =>
      (OnLock(Refresh(k.chat, k.turn, s.clock + Locks.LOCK_TTL)),
       if Get(s.active, k.chat) == Some(k.turn) then k else k.(ownership := Lost))
    case BeatLease =>
      if k.kind.Tg? then (NOTHING, k)
      else (OnLease(Refresh(k.turn, k.holder, s.clock + Locks.LEASE_TTL)),
            if Get(s.leases, k.turn) == Some(k.holder) then k else k.(ownership := Lost))
    case Started(thread, codexTurn) => (OnDb(L.Mark(k.turn, thread, codexTurn, s.clock)), k)
    case Emit(f) =>
      if k.kind.Tg? then (NOTHING, k)
      else if k.ownership.Lost? then (NOTHING, k.(status := Some(Failed), error := Some("ownership_lost"), pc := Unlocking))
      else (OnLog(k.turn, f), k.(pc := Noting(f)))
    case EndStream => (NOTHING, if k.kind.Web? then k.(pc := Unlocking) else k)
    case Outcome(status, error) =>
      (NOTHING, if k.kind.Tg? && Terminal(status) then k.(status := Some(status), error := error, pc := Unlocking) else k)
    case _ => (NOTHING, k)
  }

  /** Inside the try block: taking the locks, and the bookkeeping behind each published event. */
  function Advance(s: State, k: Runner): (Effect, Runner) {
    match k.pc
    case Locking =>
      (OnLock(SetNx(k.chat, k.turn, s.clock + Locks.LOCK_TTL)),
       if k.chat in s.active then k.(pc := LockCheck)
       else k.(held := Lock, pc := if k.kind.Web? then Leasing else Streaming))
    case LockCheck =>
      (NOTHING,
       if k.kind.Web? && Get(s.active, k.chat) == Some(k.turn) then k.(exit := BySkip, pc := Unlocking)
       else k.(status := Some(Failed), error := Some("turn_busy"), pc := Unlocking))
    case Leasing =>
      (OnLease(SetNx(k.turn, k.holder, s.clock + Locks.LEASE_TTL)),
       if k.turn in s.leases then k.(exit := BySkip, pc := Unlocking) else k.(held := LockAndLease, pc := Streaming))
    case Noting(f) =>
      (OnDb(L.Note(k.turn, |Log(s, k.turn)|)),
       if f.DoneFrame? then k.(published := true, status := Some(Completed), pc := Streaming)
       else if f.ErrorFrame? then
         k.(published := true, status := Some(Failed), error := Some(CodeOr(Some(f.code), "codex_error")), pc := Streaming)
       else k.(pc := Streaming))
    case _ => (NOTHING, k)
  }

  /** Leaving the locks, the except branch, and the finally block. */
  function Teardown(s: State, k: Runner): (Effect, Runner) {
    match k.pc
    case Unlocking =>
      (if !k.held.Nothing? then OnLock(DelIf(k.chat, k.turn)) else NOTHING,
       k.(pc := if k.exit.ByCrash? && k.kind.Web? then CrashPublish else LeaseRelease))
    case CrashPublish => (OnLog(k.turn, ErrorFrame("codex_error")), k.(published := true, pc := LeaseRelease))
    case LeaseRelease =>
      (if k.held.LockAndLease? then OnLease(DelIf(k.turn, k.holder)) else NOTHING, k.(pc := SafetyPublish))
    case SafetyPublish =>
      (if k.kind.Web? && !k.published && !k.exit.ByCancel? && !k.exit.BySkip?
       then OnLog(k.turn, BuildTerminal(k.status, k.error)) else NOTHING,
       k.(pc := Finalizing))
    case Finalizing =>
      (if k.status.Some? && !k.exit.BySkip? then OnDb(L.Close(k.turn, k.status.value, k.error, None, s.clock)) else NOTHING,
       k.(pc := RateRelease))
    case RateRelease => (if k.exit.BySkip? then NOTHING else NOTHING.(rate := -1), k.(pc := Exited))
    case _ => (NOTHING, k)
  }

  // ---------- steps of an outside finalizer ----------

  function FirstSweepPc(kind: SweepKind): SweepPc {
    match kind
    case Orphan => ReleaseFirst
    case LeaseExpired => Checking
    case Zombie => Checking
    case _ => Closing
  }

  /** The error code each finalizer writes. */
  function SweepCode(kind: SweepKind): Option<string> {
    match kind
    case Orphan => R.ORPHAN_CODE
    case LeaseExpired => R.LEASE_CODE
    case Zombie => R.LEASE_CODE
    case StaleSidecar => Some("stale_active_turn")
    case EnqueueFailed => Some("enqueue_failed")
    case UserCancel => Some("user_cancelled")
  }

  /** Its detail, where that is a fixed text. */
  function SweepDetail(kind: SweepKind): Option<string> {
    match kind
    case Orphan => R.ORPHAN_DETAIL
    case LeaseExpired => R.LEASE_DETAIL
    case Zombie => R.ZOMBIE_DETAIL
    case _ => None
  }

  /** Whether the row, when it is read, is one to be closed. */
  predicate SweepGoesOn(s: State, p: Sweeper) {
    IsActive(s.db.rows, p.turn) && (p.kind.Zombie? ==> s.db.rows[p.turn].codexTurn.Some?)
  }

  function SweepStep(s: State, p: Sweeper): (Effect, Sweeper) {
    match p.pc
    case Checking =>
      (NOTHING, p.(pc := if !SweepGoesOn(s, p) then Over else if p.kind.Zombie? then LeaseCheck else Closing))
    case LeaseCheck => (NOTHING, p.(pc := if p.turn in s.leases then Over else Closing))
    case ReleaseFirst => (OnLock(DelIf(p.chat, p.turn)), p.(pc := Closing))
    case Closing =>
      (OnDb(L.Close(p.turn, if p.kind.UserCancel? then Cancelled else Failed, SweepCode(p.kind), SweepDetail(p.kind), s.clock)),
       p.(pc := if p.kind.LeaseExpired? || p.kind.Zombie? then ReleaseAfter else Over))
    case ReleaseAfter => (OnLock(DelIf(p.chat, p.turn)), p.(pc := Over))
    case Over => (NOTHING, p)
  }

  // ---------- steps of a reader ----------

  const BATCH := 64

  /** _terminal_from_status */
  function SyntheticTerminal(row: Row): Option<Frame> {
    match row.status
    case Completed => Some(DoneFrame(""))
    case Failed => Some(ErrorFrame(CodeOr(row.errorCode, "stream_dropped")))
    case Cancelled => Some(ErrorFrame(CodeOr(row.errorCode, "cancelled")))
    case _ => None
  }

  function ReadStep(s: State, r: Reader): Reader {
    match r.pc
    case Reading =>
      var waiting := |Log(s, r.turn)| - r.cursor;
      if waiting <= 0 then r.(pc := CheckDb)
      else r.(pc := Delivering, batch := if waiting < BATCH then waiting else BATCH)
    case Delivering =>
      if r.batch == 0 || r.cursor >= |Log(s, r.turn)| then r.(pc := Reading)
      else
        var f := Log(s, r.turn)[r.cursor];
        r.(seen := r.seen + [f], cursor := r.cursor + 1, batch := r.batch - 1,
           pc := if IsTerminal(f) then Finishing else if r.batch == 1 then Reading else Delivering)
    case CheckDb =>
      if r.turn !in s.db.rows || Terminal(s.db.rows[r.turn].status) then r.(pc := Finishing) else r.(pc := Reading)
    case Finishing =>
      r.(synthetic := if r.turn in s.db.rows then SyntheticTerminal(s.db.rows[r.turn]) else None, pc := ReadOver)
    case ReadOver => r
    case Gone => r
  }

  // ---------- the machine ----------

  datatype Action =
    | Tick(seconds: nat)
    | Create(chat: nat, user: nat)
    | Enqueue(turn: nat)
    | Deliver(runner: nat, turn: nat, holder: nat)
    | StartTg(runner: nat, turn: nat)
    | Run(runner: nat, choice: Choice)
    | StartSweep(sweeper: nat, kind: SweepKind, turn: nat)
    | Sweep(sweeper: nat)
    | OpenTail(reader: nat, turn: nat, after: nat, fromStart: bool)
    | Tail(reader: nat)
    | HangUp(reader: nat)
    | ExpireLock(chat: nat)   // takes effect only behind the deadline
    | ExpireLease(turn: nat)

  /** The shared effect of an action. */
  function EffectOf(s: State, a: Action): Effect {
    match a
    case Create(chat, user) => OnDb(L.Insert(chat, user, s.clock))
    case Run(w, c) => if w in s.runners then RunnerStep(s, s.runners[w], c).0 else NOTHING
    case Sweep(p) => if p in s.sweepers then SweepStep(s, s.sweepers[p]).0 else NOTHING
    case ExpireLock(chat) => OnLock(Expire(chat, s.clock))
    case ExpireLease(t) => OnLease(Expire(t, s.clock))
    case _ => NOTHING
  }

  /** The runners after an action. A delivered job whose row is terminal, or is gone, never becomes a runner. */
  function RunnersOf(s: State, a: Action): map<nat, Runner> {
    match a
    case Deliver(w, t, holder) =>
      if w !in s.runners && t in s.queue && IsActive(s.db.rows, t) && s.db.rows[t].chat in s.web
      then s.runners[w := NewRunner(Web, t, s.db.rows[t].chat, holder)] else s.runners
    case StartTg(w, t) =>
      if w !in s.runners && t in s.db.rows && s.db.rows[t].chat !in s.web
      then s.runners[w := NewRunner(Tg, t, s.db.rows[t].chat, 0)] else s.runners
    case Run(w, c) =>
      if w in s.runners then s.runners[w := RunnerStep(s, s.runners[w], c).1] else s.runners
    case _ => s.runners
  }

  function SweepersOf(s: State, a: Action): map<nat, Sweeper> {
    match a
    case StartSweep(p, kind, t) =>
      if p !in s.sweepers && t in s.db.rows
      then s.sweepers[p := Sweeper(kind, t, s.db.rows[t].chat, FirstSweepPc(kind))] else s.sweepers
    case Sweep(p) => if p in s.sweepers then s.sweepers[p := SweepStep(s, s.sweepers[p]).1] else s.sweepers
    case _ => s.sweepers
  }

  /** run_turn tails from the beginning; tail_turn resumes behind `after`, and skips the log of a terminal turn. */
  function ReadersOf(s: State, a: Action): map<nat, Reader> {
    match a
    case OpenTail(r, t, after, fromStart) =>
      if r !in s.readers && t in s.db.rows && after <= |Log(s, t)| && (fromStart ==> after == 0) then
        var pc := if !fromStart && Terminal(s.db.rows[t].status) then Finishing else Reading;
        s.readers[r := Reader(t, after, after, 0, pc, [], None)]
      else s.readers
    case Tail(r) => if r in s.readers then s.readers[r := ReadStep(s, s.readers[r])] else s.readers
    case HangUp(r) => if r in s.readers then s.readers[r := s.readers[r].(pc := Gone)] else s.readers
    case _ => s.readers
  }

  /** A worker goes on behind a terminal event that it has published. */
  predicate Notes(s: State, a: Action) {
    && a.Run? && a.choice.Go? && a.runner in s.runners
    && s.runners[a.runner].pc.Noting? && IsTerminal(s.runners[a.runner].pc.frame)
  }

  function Next(s: State, a: Action): State {
    Commit(s, EffectOf(s, a)).(
      runners := RunnersOf(s, a),
      sweepers := SweepersOf(s, a),
      readers := ReadersOf(s, a),
      touched := if a.Run? && Touches(s, EffectOf(s, a)) then s.touched + {a.runner} else s.touched,
      noted := if Notes(s, a) then s.noted[a.runner := s.runners[a.runner].pc.frame] else s.noted,
      queue := if a.Enqueue? && a.turn in s.db.rows && s.db.rows[a.turn].chat in s.web then s.queue + {a.turn} else s.queue,
      clock := if a.Tick? then s.clock + a.seconds else s.clock)
  }

  function Play(s: State, acts: seq<Action>): State
    decreases |acts|
  {
    if acts == [] then s else Play(Next(s, acts[0]), acts[1..])
  }

  lemma {:induction false} PlayConcat(s: State, a: seq<Action>, b: seq<Action>)
    ensures Play(s, a + b) == Play(Play(s, a), b)
    decreases |a|
  {
    hide Next;
    if a == [] {
      assert a + b == b;
    } else {
      assert (a + b)[1..] == a[1..] + b;
      PlayConcat(Next(s, a[0]), a[1..], b);
    }
  }
}
