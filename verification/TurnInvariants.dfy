/** What every step of the turn protocol keeps, for every process in every state. */
module TurnInvariants {
  import opened KeyStore
  import opened TurnStore
  import opened TurnProtocol
  import L = TurnLedger

  // ---------- stores only grow ----------

  ghost predicate LogsExtend(s: State, s': State) {
    forall t :: Log(s, t) <= Log(s', t)
  }

  lemma NextExtendsLogs(s: State, a: Action)
    ensures LogsExtend(s, Next(s, a))
  {
    var publish := EffectOf(s, a).publish;
    assert Next(s, a).logs == Appended(s.logs, publish);
  }

  lemma HasTerminalExtends(a: seq<Frame>, b: seq<Frame>)
    requires a <= b
    ensures HasTerminal(a) ==> HasTerminal(b)
    ensures HasDone(a) ==> HasDone(b)
    ensures forall f :: f in a ==> f in b
  {
    assert forall i :: 0 <= i < |a| ==> a[i] == b[i];
  }

  // ---------- runners ----------

  ghost predicate RunnerOk(s: State, k: Runner) {
    && k.turn in s.db.rows
    && s.db.rows[k.turn].chat == k.chat
    && (k.kind.Web? <==> k.chat in s.web)
    && (k.status.Some? ==> Terminal(k.status.value))
  }

  /** Terminal frames are in the log before the worker relies on them. */
  ghost predicate RunnerPublishes(log: seq<Frame>, k: Runner) {
    && (k.pc.Noting? ==> k.pc.frame in log)
    && (k.published ==> HasTerminal(log))
    && (k.kind.Web? && k.status == Some(Completed) ==> HasDone(log))
    && (k.kind.Web? && !k.exit.ByCancel? && !k.exit.BySkip? && (k.pc.Finalizing? || k.pc.RateRelease? || k.pc.Exited?) ==> HasTerminal(log))
  }

  /** A runner that has not got past its locks, or that skips a redelivery, has changed nothing. */
  ghost predicate RunnerUntouched(k: Runner, touched: bool) {
    && (k.pc.Locking? || k.pc.LockCheck? || k.pc.Leasing? ==> !touched && k.exit.Normally?)
    && (k.pc.Streaming? || k.pc.Noting? || k.pc.CrashPublish? ==> !k.exit.BySkip?)
    && (k.exit.BySkip? ==> !touched)
    && (k.pc.Locking? || k.pc.LockCheck? || k.pc.Leasing? || k.exit.BySkip? ==> !k.held.LockAndLease?)
  }

  ghost predicate RunnerInv(s: State, w: nat, k: Runner) {
    RunnerOk(s, k) && RunnerPublishes(Log(s, k.turn), k) && RunnerUntouched(k, w in s.touched)
  }

  lemma RunnerInvStable(s: State, s': State, w: nat, k: Runner)
    requires RunnerInv(s, w, k) && (w in s.touched <==> w in s'.touched)
    requires LogsExtend(s, s') && Develops(s.db.rows, s'.db.rows) && s'.web == s.web
    ensures RunnerInv(s', w, k)
  {
    HasTerminalExtends(Log(s, k.turn), Log(s', k.turn));
  }

  /** The log of the runner's own turn after its step. */
  ghost function LogAfter(s: State, k: Runner, e: Effect): seq<Frame> {
    if e.publish.Some? then Log(s, k.turn) + [e.publish.value.1] else Log(s, k.turn)
  }

  ghost predicate StaysOnTurn(k: Runner, e: Effect, k': Runner) {
    && (e.publish.Some? ==> e.publish.value.0 == k.turn)
    && k'.turn == k.turn && k'.chat == k.chat && k'.kind == k.kind && k'.holder == k.holder
    && (k'.status == k.status || (k'.status.Some? && Terminal(k'.status.value)))
  }

  lemma StepStaysOnTurn(s: State, k: Runner, c: Choice)
    ensures StaysOnTurn(k, RunnerStep(s, k, c).0, RunnerStep(s, k, c).1)
  {
    hide Advance, Teardown, Stream, StaysOnTurn;
    AdvanceStays(s, k);
    TeardownStays(s, k);
    StreamStays(s, k, c);
    EndStays(s, k);
  }

  lemma AdvanceStays(s: State, k: Runner)
    ensures StaysOnTurn(k, Advance(s, k).0, Advance(s, k).1)
  {
  }

  lemma TeardownStays(s: State, k: Runner)
    ensures StaysOnTurn(k, Teardown(s, k).0, Teardown(s, k).1)
  {
  }

  lemma StreamStays(s: State, k: Runner, c: Choice)
    ensures StaysOnTurn(k, Stream(s, k, c).0, Stream(s, k, c).1)
  {
  }

  lemma EndStays(s: State, k: Runner)
    ensures StaysOnTurn(k, NOTHING, k) && StaysOnTurn(k, NOTHING, k.(pc := Dead))
    ensures StaysOnTurn(k, NOTHING, k.(exit := ByCancel, status := Some(Cancelled), pc := Unlocking))
    ensures StaysOnTurn(k, NOTHING, k.(exit := ByCrash, status := Some(Failed), error := Some("codex_error"), pc := Unlocking))
  {
  }

  lemma AppendTerminal(log: seq<Frame>, f: Frame)
    ensures f in log + [f]
    ensures IsTerminal(f) ==> HasTerminal(log + [f])
    ensures f.DoneFrame? ==> HasDone(log + [f])
  {
    assert (log + [f])[|log|] == f;
  }

  lemma InLogIsTerminal(log: seq<Frame>, f: Frame)
    requires f in log
    ensures IsTerminal(f) ==> HasTerminal(log)
    ensures f.DoneFrame? ==> HasDone(log)
  {
  }

  /** What a step adds to the log, and what stays in it. */
  lemma AfterPublish(s: State, k: Runner, e: Effect)
    ensures HasTerminal(Log(s, k.turn)) ==> HasTerminal(LogAfter(s, k, e))
    ensures HasDone(Log(s, k.turn)) ==> HasDone(LogAfter(s, k, e))
    ensures e.publish.Some? ==> e.publish.value.1 in LogAfter(s, k, e)
    ensures e.publish.Some? && IsTerminal(e.publish.value.1) ==> HasTerminal(LogAfter(s, k, e))
    ensures e.publish.Some? && e.publish.value.1.DoneFrame? ==> HasDone(LogAfter(s, k, e))
  {
    if e.publish.Some? {
      HasTerminalExtends(Log(s, k.turn), LogAfter(s, k, e));
      AppendTerminal(Log(s, k.turn), e.publish.value.1);
    }
  }

  lemma AdvancePublishes(s: State, k: Runner)
    requires RunnerPublishes(Log(s, k.turn), k)
    ensures RunnerPublishes(LogAfter(s, k, Advance(s, k).0), Advance(s, k).1)
  {
    hide HasTerminal, HasDone, Log;
    if k.pc.Noting? {
      InLogIsTerminal(Log(s, k.turn), k.pc.frame);
    }
  }

  lemma TeardownPublishes(s: State, k: Runner)
    requires RunnerPublishes(Log(s, k.turn), k) && !InTry(k.pc)
    ensures RunnerPublishes(LogAfter(s, k, Teardown(s, k).0), Teardown(s, k).1)
  {
    hide HasTerminal, HasDone, BuildTerminal, LogAfter, Log;
    AfterPublish(s, k, Teardown(s, k).0);
    BuildTerminalIsTerminal(k.status, k.error);
  }

  lemma StreamPublishes(s: State, k: Runner, c: Choice)
    requires RunnerPublishes(Log(s, k.turn), k) && (k.pc.Streaming? || (Beats(k) && IsBeat(c)))
    ensures RunnerPublishes(LogAfter(s, k, Stream(s, k, c).0), Stream(s, k, c).1)
  {
    hide HasTerminal, HasDone, Log;
    AfterPublish(s, k, Stream(s, k, c).0);
  }

  lemma EndPublishes(s: State, k: Runner)
    requires RunnerPublishes(Log(s, k.turn), k)
    ensures LogAfter(s, k, NOTHING) == Log(s, k.turn)
    ensures RunnerPublishes(Log(s, k.turn), k.(pc := Dead))
    ensures RunnerPublishes(Log(s, k.turn), k.(exit := ByCancel, status := Some(Cancelled), pc := Unlocking))
    ensures RunnerPublishes(Log(s, k.turn), k.(exit := ByCrash, status := Some(Failed), error := Some("codex_error"), pc := Unlocking))
  {
  }

  lemma StepPublishes(s: State, k: Runner, c: Choice)
    requires RunnerPublishes(Log(s, k.turn), k)
    ensures RunnerPublishes(LogAfter(s, k, RunnerStep(s, k, c).0), RunnerStep(s, k, c).1)
  {
    hide Advance, Teardown, Stream, RunnerPublishes, LogAfter, Log;
    EndPublishes(s, k);
    if c.Go? {
      if InTry(k.pc) {
        AdvancePublishes(s, k);
      } else {
        TeardownPublishes(s, k);
      }
    } else if k.pc.Streaming? || (Beats(k) && IsBeat(c)) {
      StreamPublishes(s, k, c);
    }
  }

  lemma BuildTerminalIsTerminal(status: Option<Status>, error: Option<string>)
    ensures IsTerminal(BuildTerminal(status, error))
    ensures status == Some(Completed) ==> BuildTerminal(status, error).DoneFrame?
  {
  }

  lemma AdvanceUntouched(s: State, k: Runner, touched: bool)
    requires RunnerUntouched(k, touched) && InTry(k.pc)
    ensures RunnerUntouched(Advance(s, k).1, touched || Touches(s, Advance(s, k).0))
  {
    hide Get, Log;
    if !k.pc.Noting? {
      assert !Touches(s, Advance(s, k).0);
    }
    hide Touches;
  }

  lemma TeardownUntouched(s: State, k: Runner, touched: bool)
    requires RunnerUntouched(k, touched) && !InTry(k.pc)
    ensures RunnerUntouched(Teardown(s, k).1, touched || Touches(s, Teardown(s, k).0))
  {
    hide BuildTerminal;
    if k.exit.BySkip? {
      assert !Touches(s, Teardown(s, k).0);
    }
    hide Touches;
  }

  lemma StreamUntouched(s: State, k: Runner, c: Choice, touched: bool)
    requires RunnerUntouched(k, touched) && (k.pc.Streaming? || (Beats(k) && IsBeat(c)))
    ensures RunnerUntouched(Stream(s, k, c).1, touched || Touches(s, Stream(s, k, c).0))
  {
    hide Touches, Get, IsActive;
  }

  lemma StepUntouched(s: State, k: Runner, c: Choice, touched: bool)
    requires RunnerUntouched(k, touched)
    ensures RunnerUntouched(RunnerStep(s, k, c).1, touched || Touches(s, RunnerStep(s, k, c).0))
  {
    hide Advance, Teardown, Stream, Touches;
    if c.Go? {
      if InTry(k.pc) {
        AdvanceUntouched(s, k, touched);
      } else {
        TeardownUntouched(s, k, touched);
      }
    } else if k.pc.Streaming? || (Beats(k) && IsBeat(c)) {
      StreamUntouched(s, k, c, touched);
    }
    NothingTouchesNothing(s);
  }

  lemma NothingTouchesNothing(s: State)
    ensures !Touches(s, NOTHING)
  {
  }

  // ---------- rows ----------

  /** COMPLETED is only ever written for a web turn whose log holds a done frame. */
  ghost predicate CompletedHasDone(s: State) {
    forall t :: t in s.db.rows && s.db.rows[t].status.Completed? && s.db.rows[t].chat in s.web ==> HasDone(Log(s, t))
  }

  // ---------- readers ----------

  ghost predicate Contiguous(log: seq<Frame>, r: Reader) {
    && r.start <= r.cursor <= |log|
    && r.seen == log[r.start..r.cursor]
    && (r.pc.Delivering? ==> 0 < r.batch <= |log| - r.cursor)
  }

  ghost predicate StopsAtTerminal(r: Reader) {
    && (forall i :: 0 <= i < |r.seen| - 1 ==> !IsTerminal(r.seen[i]))
    && (r.seen != [] && IsTerminal(r.seen[|r.seen| - 1]) ==> r.pc.Finishing? || r.pc.ReadOver? || r.pc.Gone?)
  }

  /** What the client is told of a finished turn is what its row says. */
  predicate TellsRow(f: Frame, row: Row) {
    match row.status
    case Completed => f == DoneFrame("")
    case Failed => f == ErrorFrame(if row.errorCode.Some? && row.errorCode.value != "" then row.errorCode.value else "stream_dropped")
    case Cancelled => f == ErrorFrame(if row.errorCode.Some? && row.errorCode.value != "" then row.errorCode.value else "cancelled")
    case _ => false
  }

  ghost predicate EndsWithTerminal(s: State, r: Reader) {
    && r.turn in s.db.rows
    && (r.synthetic.Some? ==> r.pc.ReadOver? || r.pc.Gone?)
    && (r.synthetic.Some? ==> TellsRow(r.synthetic.value, s.db.rows[r.turn]))
    && (r.pc.Finishing? ==> HasTerminal(r.seen) || Terminal(s.db.rows[r.turn].status))
    && (r.pc.ReadOver? ==> HasTerminal(r.seen) || (r.synthetic.Some? && IsTerminal(r.synthetic.value)))
  }

  ghost predicate ReaderInv(s: State, r: Reader) {
    Contiguous(Log(s, r.turn), r) && StopsAtTerminal(r) && EndsWithTerminal(s, r)
  }

  lemma ReaderInvStable(s: State, s': State, r: Reader)
    requires ReaderInv(s, r) && LogsExtend(s, s') && Develops(s.db.rows, s'.db.rows)
    ensures ReaderInv(s', r)
  {
    var a, b := Log(s, r.turn), Log(s', r.turn);
    assert a <= b;
    assert b[r.start..r.cursor] == a[r.start..r.cursor];
  }

  lemma ReadStepKeeps(s: State, r: Reader)
    requires ReaderInv(s, r)
    ensures ReaderInv(s, ReadStep(s, r))
  {
    if r.pc.Delivering? {
      DeliveryKeeps(s, r);
    } else {
      hide HasTerminal;
      SyntheticIsTerminal(s, r);
    }
  }

  lemma SyntheticIsTerminal(s: State, r: Reader)
    requires r.turn in s.db.rows
    ensures var f := SyntheticTerminal(s.db.rows[r.turn]);
      && (f.Some? <==> Terminal(s.db.rows[r.turn].status))
      && (f.Some? ==> IsTerminal(f.value) && TellsRow(f.value, s.db.rows[r.turn]))
  {
  }

  lemma DeliveryKeeps(s: State, r: Reader)
    requires ReaderInv(s, r) && r.pc.Delivering?
    ensures ReaderInv(s, ReadStep(s, r))
  {
    hide HasTerminal;
    var log := Log(s, r.turn);
    var f := log[r.cursor];
    assert log[r.start..r.cursor + 1] == log[r.start..r.cursor] + [f];
    AppendTerminal(r.seen, f);
  }

  // ---------- sweepers ----------

  ghost predicate SweeperInv(s: State, p: Sweeper) {
    p.turn in s.db.rows && s.db.rows[p.turn].chat == p.chat
  }

  // ---------- all together ----------

  ghost predicate Inv(s: State) {
    && L.Sound(s.db)
    && CompletedHasDone(s)
    && s.touched <= s.runners.Keys
    && (forall w :: w in s.runners ==> RunnerInv(s, w, s.runners[w]))
    && (forall p :: p in s.sweepers ==> SweeperInv(s, s.sweepers[p]))
    && (forall r :: r in s.readers ==> ReaderInv(s, s.readers[r]))
  }

  lemma NextDevelops(s: State, a: Action)
    requires L.Sound(s.db)
    ensures L.Sound(Next(s, a).db) && Develops(s.db.rows, Next(s, a).db.rows)
    ensures Next(s, a).db == L.Apply(s.db, EffectOf(s, a).db) && Next(s, a).web == s.web
  {
    hide L.Sound, Develops, L.Apply;
    L.ApplyKeepsSound(s.db, EffectOf(s, a).db);
    L.ApplyDevelops(s.db, EffectOf(s, a).db);
  }

  lemma NextKeepsRunners(s: State, a: Action, w: nat)
    requires Inv(s) && w in RunnersOf(s, a)
    ensures RunnerInv(Next(s, a), w, RunnersOf(s, a)[w])
  {
    hide L.Sound, Develops, L.Apply, RunnerStep, Touches, LogsExtend, CompletedHasDone, ReaderInv, SweeperInv;
    NextDevelops(s, a);
    NextExtendsLogs(s, a);
    if w !in s.runners {
      NewRunnerInv(s, a, w);
    } else if a.Run? && a.runner == w {
      OwnStepKeepsRunner(s, a, w);
    } else {
      RunnerInvStable(s, Next(s, a), w, s.runners[w]);
    }
  }

  lemma NewRunnerInv(s: State, a: Action, w: nat)
    requires w !in s.runners && w in RunnersOf(s, a) && s.touched <= s.runners.Keys
    ensures RunnerInv(Next(s, a), w, RunnersOf(s, a)[w])
  {
    assert a.Deliver? || a.StartTg?;
    assert Next(s, a).db == s.db;
  }

  lemma OwnStepKeepsRunner(s: State, a: Action, w: nat)
    requires L.Sound(s.db) && a.Run? && a.runner == w && w in s.runners && RunnerInv(s, w, s.runners[w])
    ensures RunnerInv(Next(s, a), w, RunnersOf(s, a)[w])
  {
    hide L.Sound, L.Apply, RunnerStep, RunnerPublishes, RunnerUntouched, Touches;
    var s', k := Next(s, a), s.runners[w];
    NextDevelops(s, a);
    StepStaysOnTurn(s, k, a.choice);
    StepPublishes(s, k, a.choice);
    StepUntouched(s, k, a.choice, w in s.touched);
    assert Log(s', k.turn) == LogAfter(s, k, RunnerStep(s, k, a.choice).0);
  }

  lemma NextKeepsCompleted(s: State, a: Action)
    requires Inv(s)
    ensures CompletedHasDone(Next(s, a))
  {
    hide L.Sound, HasDone;
    var s' := Next(s, a);
    NextDevelops(s, a);
    NextExtendsLogs(s, a);
    forall t | t in s'.db.rows && s'.db.rows[t].status.Completed? && s'.db.rows[t].chat in s'.web
      ensures HasDone(Log(s', t))
    {
      if t in s.db.rows && s.db.rows[t].status.Completed? {
        HasTerminalExtends(Log(s, t), Log(s', t));
      } else {
        CompletionIsPublished(s, a, t);
        HasTerminalExtends(Log(s, t), Log(s', t));
      }
    }
  }

  /** The only way a web turn's row becomes COMPLETED is its own worker, which has seen a done frame published. */
  lemma CompletionIsPublished(s: State, a: Action, t: nat)
    requires Inv(s)
    requires var s' := Next(s, a); t in s'.db.rows && s'.db.rows[t].status.Completed? && s'.db.rows[t].chat in s.web
    requires !(t in s.db.rows && s.db.rows[t].status.Completed?)
    ensures HasDone(Log(s, t))
  {
    var op := EffectOf(s, a).db;
    CompletedByClose(s.db, op, t);
    assert op.Close? && op.turn == t && op.status == Completed;
    assert a.Run? && a.runner in s.runners;
    var k := s.runners[a.runner];
    assert RunnerInv(s, a.runner, k);
    OnlyFinalizingCloses(s, k, a.choice);
  }

  lemma CompletedByClose(db: L.Db, op: L.DbOp, t: nat)
    requires var rows := L.Apply(db, op).rows; t in rows && rows[t].status.Completed?
    requires !(t in db.rows && db.rows[t].status.Completed?)
    ensures op.Close? && op.turn == t && op.status == Completed && IsActive(db.rows, t)
    ensures L.Apply(db, op).rows[t].chat == db.rows[t].chat
  {
  }

  lemma OnlyFinalizingCloses(s: State, k: Runner, c: Choice)
    requires RunnerStep(s, k, c).0.db.Close?
    ensures k.pc.Finalizing? && c.Go? && !k.exit.BySkip? && k.status == Some(RunnerStep(s, k, c).0.db.status)
    ensures RunnerStep(s, k, c).0.db.turn == k.turn
  {
  }

  lemma NextKeepsReaders(s: State, a: Action, r: nat)
    requires Inv(s) && r in ReadersOf(s, a)
    ensures ReaderInv(Next(s, a), ReadersOf(s, a)[r])
  {
    hide L.Sound, Develops, L.Apply, LogsExtend, CompletedHasDone, RunnerInv, SweeperInv, ReaderInv, ReadStep;
    NextDevelops(s, a);
    NextExtendsLogs(s, a);
    var s' := Next(s, a);
    if r !in s.readers {
      NewReaderInv(s, a, r);
    } else if a.Tail? && a.reader == r {
      ReadStepKeeps(s, s.readers[r]);
      ReaderInvStable(s, s', ReadStep(s, s.readers[r]));
    } else if a.HangUp? && a.reader == r {
      GoneInv(s, s.readers[r]);
      ReaderInvStable(s, s', s.readers[r].(pc := Gone));
    } else {
      ReaderInvStable(s, s', s.readers[r]);
    }
  }

  lemma NewReaderInv(s: State, a: Action, r: nat)
    requires r !in s.readers && r in ReadersOf(s, a)
    ensures ReaderInv(Next(s, a), ReadersOf(s, a)[r])
  {
    assert a.OpenTail?;
    assert Next(s, a).db == s.db && Next(s, a).logs == s.logs;
  }

  lemma GoneInv(s: State, r: Reader)
    requires ReaderInv(s, r)
    ensures ReaderInv(s, r.(pc := Gone))
  {
  }

  lemma NextKeepsSweepers(s: State, a: Action, p: nat)
    requires Inv(s) && p in SweepersOf(s, a)
    ensures SweeperInv(Next(s, a), SweepersOf(s, a)[p])
  {
    hide L.Sound, L.Apply, RunnerInv, ReaderInv;
    NextDevelops(s, a);
  }

  lemma NextKeepsTouched(s: State, a: Action)
    requires s.touched <= s.runners.Keys
    ensures Next(s, a).touched <= Next(s, a).runners.Keys
  {
    hide RunnerStep;
    if a.Run? && a.runner !in s.runners {
      NothingTouchesNothing(s);
    }
    hide Touches;
  }

  /** Every action keeps the invariant. */
  lemma NextKeepsInv(s: State, a: Action)
    requires Inv(s)
    ensures Inv(Next(s, a))
  {
    hide L.Sound, Develops, RunnerInv, ReaderInv, SweeperInv, CompletedHasDone, EffectOf, RunnersOf, SweepersOf, ReadersOf;
    var s' := Next(s, a);
    NextDevelops(s, a);
    NextKeepsCompleted(s, a);
    NextKeepsTouched(s, a);
    assert s'.runners == RunnersOf(s, a) && s'.sweepers == SweepersOf(s, a) && s'.readers == ReadersOf(s, a);
    forall w | w in s'.runners ensures RunnerInv(s', w, s'.runners[w]) {
      NextKeepsRunners(s, a, w);
    }
    forall p | p in s'.sweepers ensures SweeperInv(s', s'.sweepers[p]) {
      NextKeepsSweepers(s, a, p);
    }
    forall r | r in s'.readers ensures ReaderInv(s', s'.readers[r]) {
      NextKeepsReaders(s, a, r);
    }
  }

  lemma {:induction false} PlayKeepsInv(s: State, acts: seq<Action>)
    requires Inv(s)
    ensures Inv(Play(s, acts))
    decreases |acts|
  {
    hide Inv, Next;
    if acts != [] {
      NextKeepsInv(s, acts[0]);
      PlayKeepsInv(Next(s, acts[0]), acts[1..]);
    }
  }

  lemma InitInv(web: set<nat>)
    ensures Inv(Init(web))
  {
  }
}
