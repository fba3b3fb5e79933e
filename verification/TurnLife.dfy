/** Whole turns: what a worker that is left alone makes of its turn, from any state, whatever the turn yields. */
module TurnLife {
  import opened KeyStore
  import opened TurnStore
  import opened TurnProtocol
  import opened Redelivery
  import L = TurnLedger
  import Locks = TurnLocks

  // ---------- the way out ----------

  lemma ReadsNothing(db: L.Db)
    ensures L.Apply(db, L.Read) == db
  {
  }

  /** A step of a runner, in parts. */
  lemma OneRun(s: State, w: nat, c: Choice)
    requires w in s.runners
    ensures var (e, k), s' := RunnerStep(s, s.runners[w], c), Next(s, Run(w, c));
      && s'.db == L.Apply(s.db, e.db) && s'.active == Keys(s.active, e.lock) && s'.leases == Keys(s.leases, e.lease)
      && s'.logs == Appended(s.logs, e.publish) && s'.rate == s.rate + e.rate
      && s'.runners == s.runners[w := k] && s'.clock == s.clock && s'.web == s.web && s'.queue == s.queue
  {
    hide RunnerStep, L.Apply, Keys, Appended, Touches;
  }

  /** The shared stores as the worker leaves them. */
  datatype Stores = Stores(db: L.Db, active: Store<nat, nat>, leases: Store<nat, nat>, logs: map<nat, seq<Frame>>, rate: int)

  function StoresOf(s: State): Stores {
    Stores(s.db, s.active, s.leases, s.logs, s.rate)
  }

  /** `frame` behind the turn's log. */
  function Behind(logs: map<nat, seq<Frame>>, t: nat, frame: Frame): map<nat, seq<Frame>> {
    logs[t := (if t in logs then logs[t] else []) + [frame]]
  }

  /** The worker is done, nothing but its own record and the shared stores has changed, and these are as given. */
  ghost predicate LeavesBehind(s: State, s': State, w: nat, stores: Stores) {
    && w in s.runners && w in s'.runners && s'.runners[w].pc.Exited? && s'.runners.Keys == s.runners.Keys
    && OthersKept(s, s', w) && s'.clock == s.clock && StoresOf(s') == stores
  }

  /** What a worker leaves behind from the step at which it gives its rate slot back. */
  lemma FromRateRelease(s: State, w: nat)
    requires w in s.runners && s.runners[w].pc.RateRelease? && !s.runners[w].exit.BySkip?
    ensures LeavesBehind(s, Play(s, Goes(w, 1)), w, StoresOf(s).(rate := s.rate - 1))
  {
    hide Next;
    OneRun(s, w, Go);
    ReadsNothing(s.db);
    PlayOne(s, Run(w, Go));
    assert Goes(w, 1) == [Run(w, Go)];
  }

  lemma GoesOn(s: State, w: nat, n: nat, stores: Stores)
    requires w in s.runners && n > 0
    requires var s' := Next(s, Run(w, Go));
      w in s'.runners && LeavesBehind(s', Play(s', Goes(w, n - 1)), w, stores)
    ensures LeavesBehind(s, Play(s, Goes(w, n)), w, stores)
  {
    hide Next, RunnerStep;
    OneRun(s, w, Go);
    assert Goes(w, n)[1..] == Goes(w, n - 1);
  }

  function Finalizes(db: L.Db, k: Runner, now: int): L.Db {
    if k.status.Some? then L.Apply(db, L.Close(k.turn, k.status.value, k.error, None, now)) else db
  }

  lemma FromFinalizing(s: State, w: nat)
    requires w in s.runners && s.runners[w].pc.Finalizing? && !s.runners[w].exit.BySkip?
    ensures LeavesBehind(s, Play(s, Goes(w, 2)), w,
                         StoresOf(s).(db := Finalizes(s.db, s.runners[w], s.clock), rate := s.rate - 1))
  {
    hide Next, L.Apply, Play, Goes, LeavesBehind;
    OneRun(s, w, Go);
    ReadsNothing(s.db);
    FromRateRelease(Next(s, Run(w, Go)), w);
    GoesOn(s, w, 2, StoresOf(s).(db := Finalizes(s.db, s.runners[w], s.clock), rate := s.rate - 1));
  }

  /** A worker without a terminal event of its own says so: done if it completed, else its error, else that the stream broke. */
  function SafetyFrame(status: Option<Status>, error: Option<string>): Frame {
    if status == Some(Completed) then DoneFrame("")
    else ErrorFrame(if error.Some? && error.value != "" then error.value else "stream_dropped")
  }

  function SafetyLogs(logs: map<nat, seq<Frame>>, k: Runner): map<nat, seq<Frame>> {
    if k.published || k.exit.ByCancel? || k.kind.Tg? then logs else Behind(logs, k.turn, SafetyFrame(k.status, k.error))
  }

  lemma FromSafetyPublish(s: State, w: nat)
    requires w in s.runners && s.runners[w].pc.SafetyPublish? && !s.runners[w].exit.BySkip?
    ensures var k := s.runners[w];
      LeavesBehind(s, Play(s, Goes(w, 3)), w,
                   StoresOf(s).(db := Finalizes(s.db, k, s.clock), logs := SafetyLogs(s.logs, k), rate := s.rate - 1))
  {
    hide Next, L.Apply, Play, Goes, LeavesBehind;
    var k := s.runners[w];
    OneRun(s, w, Go);
    ReadsNothing(s.db);
    FromFinalizing(Next(s, Run(w, Go)), w);
    GoesOn(s, w, 3, StoresOf(s).(db := Finalizes(s.db, k, s.clock), logs := SafetyLogs(s.logs, k), rate := s.rate - 1));
  }

  /** A worker lets go of the lease it has taken; a Telegram runner has none. */
  function Unleased(leases: Store<nat, nat>, k: Runner): Store<nat, nat> {
    if k.held.LockAndLease? then KeyStore.Apply(leases, DelIf(k.turn, k.holder)) else leases
  }

  lemma FromLeaseRelease(s: State, w: nat)
    requires w in s.runners && s.runners[w].pc.LeaseRelease? && !s.runners[w].exit.BySkip?
    ensures var k := s.runners[w];
      LeavesBehind(s, Play(s, Goes(w, 4)), w,
                   StoresOf(s).(db := Finalizes(s.db, k, s.clock), logs := SafetyLogs(s.logs, k), rate := s.rate - 1,
                                leases := Unleased(s.leases, k)))
  {
    hide Next, L.Apply, Play, Goes, LeavesBehind, KeyStore.Apply, SafetyLogs;
    var k := s.runners[w];
    OneRun(s, w, Go);
    ReadsNothing(s.db);
    SafetyIsOf(s.logs, k, k.(pc := SafetyPublish));
    FromSafetyPublish(Next(s, Run(w, Go)), w);
    GoesOn(s, w, 4, StoresOf(s).(db := Finalizes(s.db, k, s.clock), logs := SafetyLogs(s.logs, k), rate := s.rate - 1,
                                 leases := Unleased(s.leases, k)));
  }

  lemma SafetyIsOf(logs: map<nat, seq<Frame>>, k: Runner, k': Runner)
    requires k' == k.(pc := k'.pc)
    ensures SafetyLogs(logs, k') == SafetyLogs(logs, k)
  {
  }

  function Unlocked(active: Store<nat, nat>, k: Runner): Store<nat, nat> {
    if k.held.Nothing? then active else KeyStore.Apply(active, DelIf(k.chat, k.turn))
  }

  /**
    A runner that leaves its try block, and is left alone, lets go of the lock and the lease it has taken if they
    are still its own, publishes a last word if it is a worker that has not had one, closes its turn with its
    status and error if it has one, and gives exactly one rate slot back.
  */
  lemma LeavesTry(s: State, w: nat)
    requires w in s.runners && s.runners[w].pc.Unlocking?
    requires s.runners[w].exit.Normally? || s.runners[w].exit.ByCancel?
    ensures var k := s.runners[w];
      LeavesBehind(s, Play(s, Goes(w, 5)), w,
                   Stores(Finalizes(s.db, k, s.clock), Unlocked(s.active, k), Unleased(s.leases, k), SafetyLogs(s.logs, k), s.rate - 1))
  {
    hide Next, L.Apply, Play, Goes, LeavesBehind, KeyStore.Apply, SafetyLogs;
    var k := s.runners[w];
    OneRun(s, w, Go);
    ReadsNothing(s.db);
    SafetyIsOf(s.logs, k, k.(pc := LeaseRelease));
    FromLeaseRelease(Next(s, Run(w, Go)), w);
    GoesOn(s, w, 5, Stores(Finalizes(s.db, k, s.clock), Unlocked(s.active, k), Unleased(s.leases, k), SafetyLogs(s.logs, k), s.rate - 1));
  }

  /** A worker that reads another turn in its chat's lock says so, closes its own turn, and leaves that lock alone. */
  lemma BusyTurn(s: State, w: nat)
    requires w in s.runners && s.runners[w].pc.LockCheck? && s.runners[w].kind.Web? && s.runners[w].exit.Normally?
    requires s.runners[w].held.Nothing? && !s.runners[w].published && IsActive(s.db.rows, s.runners[w].turn)
    requires Get(s.active, s.runners[w].chat) != Some(s.runners[w].turn)
    ensures var k, s' := s.runners[w], Play(s, [Run(w, Go)] + Goes(w, 5));
      && k.turn in s'.db.rows && s'.db.rows[k.turn].status == Failed && s'.db.rows[k.turn].errorCode == Some("turn_busy")
      && s'.logs == Behind(s.logs, k.turn, ErrorFrame("turn_busy"))
      && s'.active == s.active && s'.leases == s.leases && s'.rate == s.rate - 1
  {
    hide Next, Play, Goes, L.Apply, Get, IsActive;
    OneRun(s, w, Go);
    ReadsNothing(s.db);
    var s1 := Next(s, Run(w, Go));
    LeavesTry(s1, w);
    PlayFirst(s, Run(w, Go), Goes(w, 5));
    FinalizesRow(s.db, s1.runners[w], s.clock);
  }

  // ---------- the stream ----------

  /** The worker's record behind a published event. */
  function Taken(k: Runner, f: Frame): Runner {
    match f
    case Content(_) => k
    case DoneFrame(_) => k.(published := true, status := Some(Completed))
    case ErrorFrame(code) => k.(published := true, status := Some(Failed), error := Some(if code != "" then code else "codex_error"))
  }

  function Publish(w: nat, f: Frame): seq<Action> {
    [Run(w, Emit(f)), Run(w, Go)]
  }

  /** One event of the stream: behind the log, and its number in the row. */
  lemma PublishesOne(s: State, w: nat, t: nat, f: Frame)
    requires Streams(s, w, t)
    ensures var s' := Play(s, Publish(w, f));
      && Streams(s', w, t) && s'.runners == s.runners[w := Taken(s.runners[w], f)] && s'.clock == s.clock
      && StoresOf(s') == StoresOf(s).(logs := Behind(s.logs, t, f), db := s'.db)
      && s'.db == s.db.(rows := s.db.rows[t := s.db.rows[t].(lastEvent := |Log(s, t)| + 1)])
  {
    hide Next, IsActive;
    StreamsMeans(s, w, t);
    OneRun(s, w, Emit(f));
    var s1 := Next(s, Run(w, Emit(f)));
    ReadsNothing(s.db);
    OneRun(s1, w, Go);
    PlayTwo(s, Run(w, Emit(f)), Run(w, Go));
    assert Log(s1, t) == Log(s, t) + [f];
    StaysActive(s.db.rows, t, |Log(s, t)| + 1);
  }

  lemma StaysActive(rows: Rows, t: nat, event: nat)
    requires IsActive(rows, t)
    ensures IsActive(rows[t := rows[t].(lastEvent := event)], t)
  {
  }

  function PublishAll(w: nat, frames: seq<Frame>): seq<Action> {
    if frames == [] then [] else Publish(w, frames[0]) + PublishAll(w, frames[1..])
  }

  function TakenAll(k: Runner, frames: seq<Frame>): Runner
    decreases |frames|
  {
    if frames == [] then k else TakenAll(Taken(k, frames[0]), frames[1..])
  }

  /** What a part of the stream changes: the log of its turn, the event number in its row, and the worker's record. */
  ghost predicate Streamed(s: State, s': State, w: nat, t: nat, frames: seq<Frame>) {
    && w in s.runners && t in s.db.rows
    && s'.runners == s.runners[w := TakenAll(s.runners[w], frames)] && s'.clock == s.clock
    && s'.active == s.active && s'.leases == s.leases && s'.rate == s.rate
    && Log(s', t) == Log(s, t) + frames && (forall u :: u != t ==> Log(s', u) == Log(s, u))
    && s'.db.rows.Keys == s.db.rows.Keys && s'.db.rows[t] == s.db.rows[t].(lastEvent := s'.db.rows[t].lastEvent)
    && (frames != [] ==> s'.db.rows[t].lastEvent == |Log(s', t)|)
    && (forall u :: u in s.db.rows && u != t ==> s'.db.rows[u] == s.db.rows[u])
  }

  lemma StreamedNothing(s: State, w: nat, t: nat)
    requires w in s.runners && t in s.db.rows
    ensures Streamed(s, s, w, t, [])
  {
    assert Log(s, t) + [] == Log(s, t);
  }

  lemma StreamedCons(s: State, s1: State, s': State, w: nat, t: nat, f: Frame, frames: seq<Frame>)
    requires w in s.runners && t in s.db.rows
    requires s1.runners == s.runners[w := Taken(s.runners[w], f)] && s1.clock == s.clock
    requires StoresOf(s1) == StoresOf(s).(logs := Behind(s.logs, t, f), db := s1.db)
    requires s1.db == s.db.(rows := s.db.rows[t := s.db.rows[t].(lastEvent := |Log(s, t)| + 1)])
    requires Streamed(s1, s', w, t, frames)
    requires frames == [] ==> s'.db == s1.db
    ensures Streamed(s, s', w, t, [f] + frames)
  {
    hide Taken;
    assert ([f] + frames)[1..] == frames;
    assert Log(s1, t) == Log(s, t) + [f];
    assert Log(s, t) + [f] + frames == Log(s, t) + ([f] + frames);
  }

  /** Any events of the stream: they are in the log, in order, and behind all that was there. */
  lemma {:induction false} PublishesAll(s: State, w: nat, t: nat, frames: seq<Frame>)
    requires Streams(s, w, t)
    ensures var s' := Play(s, PublishAll(w, frames));
      Streams(s', w, t) && Streamed(s, s', w, t, frames) && (frames == [] ==> s' == s)
    decreases |frames|
  {
    hide Next, Streams, Streamed, TakenAll, Behind, StoresOf, Log;
    StreamsMeans(s, w, t);
    if frames == [] {
      StreamedNothing(s, w, t);
    } else {
      PublishesOne(s, w, t, frames[0]);
      var s1 := Play(s, Publish(w, frames[0]));
      PublishesAll(s1, w, t, frames[1..]);
      PlayConcat(s, Publish(w, frames[0]), PublishAll(w, frames[1..]));
      StreamedCons(s, s1, Play(s1, PublishAll(w, frames[1..])), w, t, frames[0], frames[1..]);
      assert [frames[0]] + frames[1..] == frames;
    }
  }

  lemma StreamsMeans(s: State, w: nat, t: nat)
    requires Streams(s, w, t)
    ensures w in s.runners && t in s.db.rows && s.runners[w].turn == t
  {
  }

  // ---------- whole turns ----------

  function Contents(payloads: seq<string>): seq<Frame> {
    if payloads == [] then [] else [Content(payloads[0])] + Contents(payloads[1..])
  }

  lemma {:induction false} ContentsChangeNothing(k: Runner, payloads: seq<string>, f: Frame)
    ensures TakenAll(k, Contents(payloads) + [f]) == Taken(k, f)
    decreases |payloads|
  {
    if payloads == [] {
      assert [] + [f] == [f] && [f][1..] == [];
    } else {
      var frames := Contents(payloads) + [f];
      assert frames[0] == Content(payloads[0]) && frames[1..] == Contents(payloads[1..]) + [f];
      ContentsChangeNothing(k, payloads[1..], f);
    }
  }

  /** The stream yields its contents and its last event, and is exhausted; then the worker goes its way. */
  function WholeStream(w: nat, payloads: seq<string>, f: Frame): seq<Action> {
    PublishAll(w, Contents(payloads) + [f]) + ([Run(w, EndStream)] + Goes(w, 5))
  }

  /** The turn is closed with the given verdict, its lock and lease are free, and one rate slot has been given back. */
  ghost predicate Closes(s: State, s': State, w: nat, t: nat, status: Status, code: Option<string>) {
    && t in s.db.rows && t in s'.db.rows && w in s.runners
    && s'.db.rows[t].status == status && s'.db.rows[t].errorCode == code && s'.db.rows[t].completedAt == Some(s.clock)
    && s'.db.rows[t].chat == s.db.rows[t].chat && s'.db.rows[t].codexTurn == s.db.rows[t].codexTurn
    && s'.active == s.active - {s.db.rows[t].chat} && s'.leases == s.leases - {t} && s'.rate == s.rate - 1
    && w in s'.runners && s'.runners[w].pc.Exited? && OthersKept(s, s', w)
    && forall u :: u in s.db.rows && u != t ==> u in s'.db.rows && s'.db.rows[u] == s.db.rows[u]
  }

  /** A worker at work that has not had a terminal event yet. */
  ghost predicate Works(s: State, w: nat, t: nat) {
    Streams(s, w, t) && var k := s.runners[w]; !k.published && k.status.None? && k.error.None?
  }

  lemma LeavesWith(s: State, w: nat, t: nat, c: Choice, k': Runner)
    requires Streams(s, w, t) && RunnerStep(s, s.runners[w], c) == (NOTHING, k')
    requires k'.pc.Unlocking? && k' == s.runners[w].(pc := k'.pc, exit := k'.exit, status := k'.status, error := k'.error)
    requires k'.exit.Normally? || k'.exit.ByCancel?
    requires k'.status.Some? && Terminal(k'.status.value)
    ensures var s' := Play(s, [Run(w, c)] + Goes(w, 5));
      && Closes(s, s', w, t, k'.status.value, k'.error)
      && s'.logs == SafetyLogs(s.logs, k')
  {
    hide Next, RunnerStep, SafetyLogs;
    OneRun(s, w, c);
    ReadsNothing(s.db);
    var s1 := Next(s, Run(w, c));
    LeavesTry(s1, w);
    assert ([Run(w, c)] + Goes(w, 5))[1..] == Goes(w, 5);
  }

  /**
    A whole turn of a worker that is left alone: whatever contents the stream yields before its last event, the
    log holds them all, in order, and then that event; and the row is COMPLETED if it is done, and else FAILED
    with its code. Lock and lease are free again and one rate slot is given back.
  */
  lemma WholeTurn(s: State, w: nat, t: nat, payloads: seq<string>, f: Frame)
    requires Works(s, w, t) && IsTerminal(f)
    ensures var s' := Play(s, WholeStream(w, payloads, f));
      && (f.DoneFrame? ==> Closes(s, s', w, t, Completed, None))
      && (f.ErrorFrame? ==> Closes(s, s', w, t, Failed, Some(if f.code != "" then f.code else "codex_error")))
      && Log(s', t) == Log(s, t) + Contents(payloads) + [f]
      && (forall u :: u != t ==> Log(s', u) == Log(s, u))
  {
    hide Next, Streams, Closes, SafetyLogs, Play, Goes, PublishAll, TakenAll;
    var frames := Contents(payloads) + [f];
    StreamsMeans(s, w, t);
    PublishesAll(s, w, t, frames);
    ContentsChangeNothing(s.runners[w], payloads, f);
    var s1 := Play(s, PublishAll(w, frames));
    var k := s1.runners[w];
    EndsStream(s1, w, t);
    LeavesWith(s1, w, t, EndStream, k.(pc := Unlocking));
    PlayConcat(s, PublishAll(w, frames), [Run(w, EndStream)] + Goes(w, 5));
    var s' := Play(s1, [Run(w, EndStream)] + Goes(w, 5));
    PublishedNeedsNoSafety(s1.logs, k.(pc := Unlocking));
    ClosesSince(s, s1, s', w, t, k.status.value, k.error);
    assert Log(s, t) + frames == Log(s, t) + Contents(payloads) + [f];
  }

  lemma EndsStream(s: State, w: nat, t: nat)
    requires Streams(s, w, t)
    ensures RunnerStep(s, s.runners[w], EndStream) == (NOTHING, s.runners[w].(pc := Unlocking)) && s.runners[w].exit.Normally?
  {
  }

  lemma PublishedNeedsNoSafety(logs: map<nat, seq<Frame>>, k: Runner)
    ensures k.published ==> SafetyLogs(logs, k) == logs
  {
  }

  /** Closing behind a stream is closing since its beginning. */
  lemma ClosesSince(s: State, s1: State, s': State, w: nat, t: nat, status: Status, code: Option<string>)
    requires Closes(s1, s', w, t, status, code)
    requires w in s.runners && t in s.db.rows && s1.clock == s.clock && s1.active == s.active && s1.leases == s.leases && s1.rate == s.rate
    requires s1.runners == s.runners[w := s1.runners[w]]
    requires s1.db.rows.Keys == s.db.rows.Keys && s1.db.rows[t].chat == s.db.rows[t].chat
    requires s1.db.rows[t].codexTurn == s.db.rows[t].codexTurn
    requires forall u :: u in s.db.rows && u != t ==> s1.db.rows[u] == s.db.rows[u]
    ensures Closes(s, s', w, t, status, code)
  {
  }

  /** A cancelled worker closes its turn as CANCELLED, and says nothing; whoever cancelled it tells the client. */
  lemma CancelledTurn(s: State, w: nat, t: nat)
    requires Works(s, w, t)
    ensures var s' := Play(s, [Run(w, Cancel)] + Goes(w, 5));
      Closes(s, s', w, t, Cancelled, None) && s'.logs == s.logs
  {
    hide Next, Closes, Play, Goes;
    var k := s.runners[w];
    LeavesWith(s, w, t, Cancel, k.(exit := ByCancel, status := Some(Cancelled), pc := Unlocking));
  }

  /** A worker that finds its ownership lost at the next event drops that event, says so instead, and closes as FAILED. */
  lemma OusterTold(s: State, w: nat, f: Frame)
    requires w in s.runners && s.runners[w].pc.Streaming? && s.runners[w].kind.Web? && s.runners[w].ownership.Lost?
    requires s.runners[w].held.LockAndLease? && s.runners[w].exit.Normally? && !s.runners[w].published
    ensures var k, s' := s.runners[w], Play(s, [Run(w, Emit(f))] + Goes(w, 5));
      && s'.logs == Behind(s.logs, k.turn, ErrorFrame("ownership_lost"))
      && (IsActive(s.db.rows, k.turn) ==>
            && k.turn in s'.db.rows && s'.db.rows[k.turn].status == Failed
            && s'.db.rows[k.turn].errorCode == Some("ownership_lost"))
      && (!IsActive(s.db.rows, k.turn) ==> s'.db == s.db)
      && s'.rate == s.rate - 1
  {
    hide Next, Play, Goes, L.Apply;
    var k := s.runners[w];
    OneRun(s, w, Emit(f));
    ReadsNothing(s.db);
    var s1 := Next(s, Run(w, Emit(f)));
    LeavesTry(s1, w);
    PlayFirst(s, Run(w, Emit(f)), Goes(w, 5));
    FinalizesRow(s.db, s1.runners[w], s.clock);
  }

  lemma PlayFirst(s: State, a: Action, acts: seq<Action>)
    ensures Play(s, [a] + acts) == Play(Next(s, a), acts)
  {
    hide Next;
    assert ([a] + acts)[1..] == acts;
  }

  lemma FinalizesRow(db: L.Db, k: Runner, now: int)
    requires k.status.Some? && Terminal(k.status.value)
    ensures var db' := Finalizes(db, k, now);
      if IsActive(db.rows, k.turn) then
        && k.turn in db'.rows && db'.rows[k.turn].status == k.status.value && db'.rows[k.turn].errorCode == k.error
      else db' == db
  {
  }

  /** A failing worker lets go of its lock, tells the client, and closes its turn as FAILED. */
  lemma CrashedTurn(s: State, w: nat, t: nat)
    requires Works(s, w, t)
    ensures var s' := Play(s, [Run(w, Crash)] + Goes(w, 6));
      && t in s'.db.rows && s'.db.rows[t].status == Failed && s'.db.rows[t].errorCode == Some("codex_error")
      && s'.logs == Behind(s.logs, t, ErrorFrame("codex_error"))
      && s'.active == s.active - {s.db.rows[t].chat} && s'.leases == s.leases - {t} && s'.rate == s.rate - 1
  {
    hide Next, Play, L.Apply, IsActive;
    StreamsMeans(s, w, t);
    var s1, s2, s3 := Next(s, Run(w, Crash)), Next(Next(s, Run(w, Crash)), Run(w, Go)),
                      Next(Next(Next(s, Run(w, Crash)), Run(w, Go)), Run(w, Go));
    OneRun(s, w, Crash);
    OneRun(s1, w, Go);
    OneRun(s2, w, Go);
    ReadsNothing(s.db);
    FromLeaseRelease(s3, w);
    PlayFirst(s, Run(w, Crash), Goes(w, 6));
    assert Goes(w, 6) == [Run(w, Go)] + Goes(w, 5) && Goes(w, 5) == [Run(w, Go)] + Goes(w, 4);
    PlayFirst(s1, Run(w, Go), Goes(w, 5));
    PlayFirst(s2, Run(w, Go), Goes(w, 4));
    PublishedNeedsNoSafety(s3.logs, s3.runners[w]);
    FinalizesRow(s.db, s3.runners[w], s.clock);
  }

  // ---------- the sidecar's ids ----------

  /** When the sidecar has accepted the turn, the row of a STARTING turn says so, and which sidecar turn it is. */
  lemma StartsRunning(s: State, w: nat, t: nat, thread: string, codexTurn: string)
    requires Streams(s, w, t)
    ensures var s' := Next(s, Run(w, Started(thread, codexTurn)));
      && t in s'.db.rows
      && (s.db.rows[t].status.Starting? ==>
            && s'.db.rows[t].status.Running? && s'.db.rows[t].codexThread == Some(thread)
            && s'.db.rows[t].codexTurn == Some(codexTurn) && FreshSince(s'.db.rows, t, s.clock))
      && (s.db.rows[t].status.Running? ==> s'.db == s.db)
      && Streams(s', w, t) && s'.runners == s.runners && s'.logs == s.logs
  {
    OneRun(s, w, Started(thread, codexTurn));
    hide Next;
  }

  /** A heartbeat of a worker that has its turn keeps everything it has: the row fresh, lock and lease for one time to live. */
  lemma BeatsKeepTurn(s: State, w: nat, t: nat)
    requires Streams(s, w, t)
    ensures var s' := Play(s, [Run(w, BeatRow), Run(w, BeatLock), Run(w, BeatLease)]);
      && Streams(s', w, t) && s'.runners == s.runners && s'.clock == s.clock
      && FreshSince(s'.db.rows, t, s.clock)
      && s'.active[s.runners[w].chat] == Key(t, s.clock + 30)
      && s'.leases[t] == Key(s.runners[w].holder, s.clock + 30)
  {
    var s1 := Next(s, Run(w, BeatRow));
    var s2 := Next(s1, Run(w, BeatLock));
    BeatsRow(s, w, t);
    BeatsLock(s1, w, t);
    BeatsLease(s2, w, t);
    hide Next, Streams;
    PlayThree(s, Run(w, BeatRow), Run(w, BeatLock), Run(w, BeatLease));
  }

  lemma BeatsRow(s: State, w: nat, t: nat)
    requires Streams(s, w, t)
    ensures var s' := Next(s, Run(w, BeatRow));
      && Streams(s', w, t) && s'.runners == s.runners && s'.clock == s.clock && FreshSince(s'.db.rows, t, s.clock)
  {
    OneRun(s, w, BeatRow);
    hide Next;
  }

  lemma BeatsLock(s: State, w: nat, t: nat)
    requires Streams(s, w, t)
    ensures var s' := Next(s, Run(w, BeatLock));
      && Streams(s', w, t) && s'.runners == s.runners && s'.clock == s.clock && s'.db == s.db
      && s'.active[s.runners[w].chat] == Key(t, s.clock + Locks.LOCK_TTL)
  {
    OneRun(s, w, BeatLock);
    ReadsNothing(s.db);
    hide Next, L.Apply;
  }

  lemma BeatsLease(s: State, w: nat, t: nat)
    requires Streams(s, w, t)
    ensures var s' := Next(s, Run(w, BeatLease));
      && Streams(s', w, t) && s'.runners == s.runners && s'.clock == s.clock && s'.db == s.db && s'.active == s.active
      && s'.leases[t] == Key(s.runners[w].holder, s.clock + Locks.LEASE_TTL)
  {
    OneRun(s, w, BeatLease);
    ReadsNothing(s.db);
    hide Next, L.Apply;
  }

  /** The heartbeat goes on while the worker leaves, until it gives its lease back; and then no more. */
  lemma BeatsUntilRelease(s: State, w: nat, t: nat)
    requires w in s.runners && s.runners[w].kind.Web? && s.runners[w].turn == t && s.runners[w].held.LockAndLease?
    requires Get(s.leases, t) == Some(s.runners[w].holder)
    ensures var pc, s' := s.runners[w].pc, Next(s, Run(w, BeatLease));
      && (pc.Unlocking? || pc.CrashPublish? || pc.LeaseRelease? ==> s'.leases[t] == Key(s.runners[w].holder, s.clock + 30))
      && (pc.SafetyPublish? || pc.Finalizing? || pc.RateRelease? || pc.Exited? || pc.Dead? ==> s'.leases == s.leases)
  {
    OneRun(s, w, BeatLease);
    hide Next;
  }

  // ---------- Telegram ----------

  /** A Telegram runner at work: it has the lock and no lease, and publishes nothing. */
  ghost predicate WorksInTelegram(s: State, w: nat, t: nat) {
    && w in s.runners && IsActive(s.db.rows, t)
    && var k := s.runners[w];
       && k == NewRunner(Tg, t, s.db.rows[t].chat, 0).(pc := Streaming, held := Lock)
       && Get(s.active, k.chat) == Some(t)
  }

  lemma TelegramStarts(s: State, w: nat, t: nat)
    requires w !in s.runners && IsActive(s.db.rows, t) && s.db.rows[t].chat !in s.web && s.db.rows[t].chat !in s.active
    ensures var s' := Next(Next(s, StartTg(w, t)), Run(w, Go));
      && WorksInTelegram(s', w, t) && s'.db == s.db && s'.logs == s.logs && s'.rate == s.rate && s'.clock == s.clock
      && s'.leases == s.leases && s'.active == s.active[s.db.rows[t].chat := Key(t, s.clock + 30)]
  {
    var s1 := Next(s, StartTg(w, t));
    assert s1.db == s.db && s1.active == s.active && s1.runners == s.runners[w := NewRunner(Tg, t, s.db.rows[t].chat, 0)];
    OneRun(s1, w, Go);
    ReadsNothing(s.db);
    hide Next, L.Apply;
  }

  /** A whole Telegram turn: the row gets the outcome with its error, the lock is free, a rate slot is back, no log is touched. */
  lemma TelegramTurn(s: State, w: nat, t: nat, status: Status, error: Option<string>)
    requires WorksInTelegram(s, w, t) && Terminal(status)
    ensures var s' := Play(s, [Run(w, Outcome(status, error))] + Goes(w, 5));
      && t in s'.db.rows && s'.db.rows[t].status == status && s'.db.rows[t].errorCode == error
      && s'.active == s.active - {s.db.rows[t].chat} && s'.leases == s.leases && s'.logs == s.logs && s'.rate == s.rate - 1
  {
    hide Next, Play, Goes, L.Apply, IsActive;
    OneRun(s, w, Outcome(status, error));
    ReadsNothing(s.db);
    var s1 := Next(s, Run(w, Outcome(status, error)));
    LeavesTry(s1, w);
    PlayFirst(s, Run(w, Outcome(status, error)), Goes(w, 5));
    FinalizesRow(s.db, s1.runners[w], s.clock);
  }

  /** From the empty system: a turn that is created, enqueued and delivered, and yields anything and then done, is COMPLETED. */
  lemma TurnCompletes(chat: nat, payloads: seq<string>, text: string)
    ensures exists acts: seq<Action>, t: nat ::
      var s := Play(Init({chat}), acts);
      && t in s.db.rows && s.db.rows[t].chat == chat && s.db.rows[t].status.Completed?
      && Log(s, t) == Contents(payloads) + [DoneFrame(text)]
      && chat !in s.active && t !in s.leases && s.rate == -1
  {
    hide Next, Play, Closes, Contents;
    var s0 := Init({chat});
    var t := s0.db.nextId;
    Started1(s0, chat, 0, 0);
    var s3 := Next(Next(Next(s0, Create(chat, 0)), Enqueue(t)), Deliver(0, t, 0));
    Started2(s3, 0);
    var s5 := Next(Next(s3, Run(0, Go)), Run(0, Go));
    PlayThree(s0, Create(chat, 0), Enqueue(t), Deliver(0, t, 0));
    PlayTwo(s3, Run(0, Go), Run(0, Go));
    PlayConcat(s0, [Create(chat, 0), Enqueue(t), Deliver(0, t, 0)], [Run(0, Go), Run(0, Go)]);
    WholeTurn(s5, 0, t, payloads, DoneFrame(text));
    PlayConcat(s0, Start(chat, t, 0, 0), WholeStream(0, payloads, DoneFrame(text)));
    var acts := Start(chat, t, 0, 0) + WholeStream(0, payloads, DoneFrame(text));
    assert [] + Contents(payloads) + [DoneFrame(text)] == Contents(payloads) + [DoneFrame(text)];
    ClosesMeans(s5, Play(s0, acts), 0, t, Completed, None);
  }

  lemma ClosesMeans(s: State, s': State, w: nat, t: nat, status: Status, code: Option<string>)
    requires Closes(s, s', w, t, status, code)
    ensures t in s'.db.rows && s'.db.rows[t].status == status && s'.db.rows[t].chat == s.db.rows[t].chat && t !in s'.leases && s'.rate == s.rate - 1
    ensures t in s.db.rows && s.db.rows[t].chat !in s'.active
  {
  }
}
