/** What a worker makes of the terminal event it has published, and what it may still publish. */
module Verdicts {
  import opened KeyStore
  import opened TurnStore
  import opened TurnProtocol
  import opened TurnInvariants
  import opened TurnTheorems
  import L = TurnLedger

  // ---------- from the event to the row ----------

  /** The status and error that a terminal event stands for. */
  predicate StandsFor(f: Frame, status: Option<Status>, error: Option<string>) {
    && (f.DoneFrame? ==> status == Some(Completed))
    && (f.ErrorFrame? ==> status == Some(Failed) && error == Some(if f.code != "" then f.code else "codex_error"))
  }

  /** A worker that was neither cancelled nor failed, and has kept its turn, has the status of the last terminal event it noted. */
  ghost predicate VerdictOk(noted: map<nat, Frame>, w: nat, k: Runner) {
    && (w in noted ==> IsTerminal(noted[w]))
    && (k.pc.Locking? || k.pc.LockCheck? || k.pc.Leasing? ==> w !in noted && k.status.None?)
    && (k.kind.Web? && k.exit.Normally? && k.ownership.Owned? && w in noted ==> StandsFor(noted[w], k.status, k.error))
    && (k.kind.Web? && k.exit.Normally? && k.ownership.Owned? && w !in noted && k.held.LockAndLease? ==> k.status.None?)
    && (k.kind.Web? && k.status == Some(Completed) ==> w in noted && k.published)
    && (k.kind.Web? && w in noted ==> k.published)
    && (k.pc.Locking? || k.pc.LockCheck? || k.pc.Leasing? ==> k.ownership.Owned? && !k.held.LockAndLease?)
    && (k.kind.Web? && (k.pc.Streaming? || k.pc.Noting?) ==> k.held.LockAndLease?)
  }

  ghost predicate VerdictsOk(s: State) {
    && s.noted.Keys <= s.runners.Keys
    && forall w :: w in s.runners ==> VerdictOk(s.noted, w, s.runners[w])
  }

  function NotedBy(noted: map<nat, Frame>, w: nat, k: Runner, c: Choice): map<nat, Frame> {
    if c.Go? && k.pc.Noting? && IsTerminal(k.pc.frame) then noted[w := k.pc.frame] else noted
  }

  lemma AdvanceKeepsVerdict(s: State, w: nat, k: Runner)
    requires VerdictOk(s.noted, w, k) && InTry(k.pc)
    ensures VerdictOk(NotedBy(s.noted, w, k, Go), w, Advance(s, k).1)
  {
    hide Get, Log;
  }

  lemma TeardownKeepsVerdict(s: State, w: nat, k: Runner)
    requires VerdictOk(s.noted, w, k) && !InTry(k.pc)
    ensures VerdictOk(s.noted, w, Teardown(s, k).1)
  {
    hide BuildTerminal, Log;
  }

  lemma StreamKeepsVerdict(s: State, w: nat, k: Runner, c: Choice)
    requires VerdictOk(s.noted, w, k) && (k.pc.Streaming? || (Beats(k) && IsBeat(c)))
    ensures VerdictOk(s.noted, w, Stream(s, k, c).1)
  {
    hide Get, Log, IsActive;
  }

  lemma EndKeepsVerdict(noted: map<nat, Frame>, w: nat, k: Runner)
    requires VerdictOk(noted, w, k)
    ensures VerdictOk(noted, w, k.(pc := Dead))
    ensures VerdictOk(noted, w, k.(exit := ByCancel, status := Some(Cancelled), pc := Unlocking))
    ensures VerdictOk(noted, w, k.(exit := ByCrash, status := Some(Failed), error := Some("codex_error"), pc := Unlocking))
  {
  }

  lemma StepKeepsVerdict(s: State, w: nat, k: Runner, c: Choice)
    requires VerdictOk(s.noted, w, k)
    ensures VerdictOk(NotedBy(s.noted, w, k, c), w, RunnerStep(s, k, c).1)
  {
    hide Advance, Teardown, Stream, VerdictOk;
    EndKeepsVerdict(s.noted, w, k);
    if c.Go? {
      if InTry(k.pc) {
        AdvanceKeepsVerdict(s, w, k);
      } else {
        TeardownKeepsVerdict(s, w, k);
      }
    } else if k.pc.Streaming? || (Beats(k) && IsBeat(c)) {
      StreamKeepsVerdict(s, w, k, c);
    }
  }

  lemma VerdictOfOthers(noted: map<nat, Frame>, more: map<nat, Frame>, w: nat, k: Runner)
    requires VerdictOk(noted, w, k) && (w in noted <==> w in more) && (w in noted ==> more[w] == noted[w])
    ensures VerdictOk(more, w, k)
  {
  }

  lemma NewVerdict(noted: map<nat, Frame>, w: nat, kind: Kind, turn: nat, chat: nat, holder: nat)
    requires w !in noted
    ensures VerdictOk(noted, w, NewRunner(kind, turn, chat, holder))
  {
  }

  lemma NextKeepsVerdicts(s: State, a: Action)
    requires VerdictsOk(s)
    ensures VerdictsOk(Next(s, a))
  {
    hide VerdictOk, EffectOf, RunnerStep, Commit, Touches;
    var s' := Next(s, a);
    forall w | w in s'.runners ensures VerdictOk(s'.noted, w, s'.runners[w]) {
      if w !in s.runners {
        assert a.Deliver? || a.StartTg?;
        NewVerdict(s.noted, w, s'.runners[w].kind, s'.runners[w].turn, s'.runners[w].chat, s'.runners[w].holder);
      } else if a.Run? && a.runner == w {
        StepKeepsVerdict(s, w, s.runners[w], a.choice);
        assert s'.noted == NotedBy(s.noted, w, s.runners[w], a.choice);
      } else {
        VerdictOfOthers(s.noted, s'.noted, w, s.runners[w]);
      }
    }
  }

  lemma {:induction false} PlayKeepsVerdicts(s: State, acts: seq<Action>)
    requires VerdictsOk(s)
    ensures VerdictsOk(Play(s, acts))
    decreases |acts|
  {
    hide Next, VerdictsOk;
    if acts != [] {
      NextKeepsVerdicts(s, acts[0]);
      PlayKeepsVerdicts(Next(s, acts[0]), acts[1..]);
    }
  }

  /** Over any schedule. */
  lemma ReachableVerdict(web: set<nat>, acts: seq<Action>, w: nat)
    requires w in Play(Init(web), acts).runners
    ensures var s := Play(Init(web), acts); VerdictOk(s.noted, w, s.runners[w])
  {
    PlayKeepsVerdicts(Init(web), acts);
  }

  /** What finalizing makes of the row: it agrees with the last terminal event noted, and nothing is written without one. */
  ghost predicate WritesAsNoted(s: State, s': State, w: nat)
    requires w in s.runners
  {
    var t := s.runners[w].turn;
    if w in s.noted && IsActive(s.db.rows, t) then
      && IsTerminal(s.noted[w]) && t in s'.db.rows
      && s'.db.rows[t].completedAt == Some(s.clock)
      && StandsFor(s.noted[w], Some(s'.db.rows[t].status), s'.db.rows[t].errorCode)
    else s'.db == s.db
  }

  ghost predicate AboutToFinalize(s: State, w: nat) {
    && w in s.runners
    && var k := s.runners[w];
       k.pc.Finalizing? && k.kind.Web? && k.exit.Normally? && k.ownership.Owned? && k.held.LockAndLease?
  }

  lemma WritesWhatItNoted(s: State, w: nat)
    requires AboutToFinalize(s, w) && VerdictOk(s.noted, w, s.runners[w])
    ensures WritesAsNoted(s, Next(s, Run(w, Go)), w)
  {
    FinalizingWrites(s, w);
    hide Next;
  }

  /**
    Over any schedule: a worker that is about to finalize, was neither cancelled nor failed and has kept its turn
    writes what it has published. If its row is still active, a noted done event makes it COMPLETED, a noted
    error event FAILED with that event's code; and it never finalizes without such an event.
  */
  lemma FinalizesAsNoted(web: set<nat>, acts: seq<Action>, w: nat)
    requires AboutToFinalize(Play(Init(web), acts), w)
    ensures WritesAsNoted(Play(Init(web), acts), Next(Play(Init(web), acts), Run(w, Go)), w)
  {
    ReachableVerdict(web, acts, w);
    hide Play, Next, VerdictOk, WritesAsNoted;
    WritesWhatItNoted(Play(Init(web), acts), w);
  }

  lemma FinalizingWrites(s: State, w: nat)
    requires w in s.runners && s.runners[w].pc.Finalizing? && !s.runners[w].exit.BySkip?
    ensures var k := s.runners[w];
      Next(s, Run(w, Go)).db == if k.status.Some? then L.Apply(s.db, L.Close(k.turn, k.status.value, k.error, None, s.clock)) else s.db
  {
    hide Touches, L.Apply;
    assert L.Apply(s.db, L.Read) == s.db by {
      ReadsNothing(s.db);
    }
    assert RunnerStep(s, s.runners[w], Go) == Teardown(s, s.runners[w]);
  }

  lemma ReadsNothing(db: L.Db)
    ensures L.Apply(db, L.Read) == db
  {
  }

  /** What has been noted has been published: it is in the turn's log. */
  ghost predicate NotedInLog(s: State) {
    forall w :: w in s.noted ==> w in s.runners && s.noted[w] in Log(s, s.runners[w].turn)
  }

  lemma NextKeepsNoted(s: State, a: Action)
    requires Inv(s) && NotedInLog(s)
    ensures NotedInLog(Next(s, a))
  {
    var s' := Next(s, a);
    NextExtendsLogs(s, a);
    hide Inv, RunnerOk, RunnerUntouched, EffectOf, RunnersOf, Commit, Touches, Log;
    forall w | w in s'.noted ensures w in s'.runners && s'.noted[w] in Log(s', s'.runners[w].turn) {
      assert w in s.runners;
      NextKeepsTurn(s, a, w);
      var t := s.runners[w].turn;
      HasTerminalExtends(Log(s, t), Log(s', t));
      if Notes(s, a) && a.runner == w {
        RunnerHasInv(s, w);
      }
    }
  }

  lemma RunnerHasInv(s: State, w: nat)
    requires Inv(s) && w in s.runners
    ensures RunnerInv(s, w, s.runners[w])
  {
  }

  lemma {:induction false} PlayKeepsNoted(s: State, acts: seq<Action>)
    requires Inv(s) && NotedInLog(s)
    ensures NotedInLog(Play(s, acts))
    decreases |acts|
  {
    hide Next, NotedInLog, Inv;
    if acts != [] {
      NextKeepsInv(s, acts[0]);
      NextKeepsNoted(s, acts[0]);
      PlayKeepsNoted(Next(s, acts[0]), acts[1..]);
    }
  }

  lemma NotedIsPublished(web: set<nat>, acts: seq<Action>, w: nat)
    requires w in Play(Init(web), acts).noted
    ensures var s := Play(Init(web), acts); w in s.runners && s.noted[w] in Log(s, s.runners[w].turn)
  {
    InitInv(web);
    PlayKeepsNoted(Init(web), acts);
  }

  lemma NextKeepsTurn(s: State, a: Action, w: nat)
    requires w in s.runners
    ensures w in Next(s, a).runners && Next(s, a).runners[w].turn == s.runners[w].turn
  {
    hide RunnerStep, EffectOf, Commit;
    if a.Run? && a.runner == w {
      StepStaysOnTurn(s, s.runners[w], a.choice);
    }
  }

  // ---------- losing the turn ----------

  /** A heartbeat that finds the row closed, the lock not its own, or the lease not its own. */
  predicate Misses(s: State, k: Runner, c: Choice) {
    || (c.BeatRow? && !IsActive(s.db.rows, k.turn))
    || (c.BeatLock? && Get(s.active, k.chat) != Some(k.turn))
    || (c.BeatLease? && k.kind.Web? && Get(s.leases, k.turn) != Some(k.holder))
  }

  /** Exactly such a heartbeat makes a worker lose its turn, and it never gets it back. */
  lemma LosesIffMisses(s: State, k: Runner, c: Choice)
    ensures var k' := RunnerStep(s, k, c).1;
      k'.ownership.Lost? <==> k.ownership.Lost? || ((k.pc.Streaming? || Beats(k)) && Misses(s, k, c))
  {
    hide Log, BuildTerminal;
  }

  ghost predicate HasLost(s: State, w: nat) {
    w in s.runners && s.runners[w].kind.Web? && s.runners[w].ownership.Lost?
  }

  lemma NextKeepsLost(s: State, a: Action, w: nat)
    requires HasLost(s, w)
    ensures HasLost(Next(s, a), w)
  {
    hide RunnerStep, EffectOf, Commit, Misses;
    if a.Run? && a.runner == w {
      LosesIffMisses(s, s.runners[w], a.choice);
      StepStaysOnTurn(s, s.runners[w], a.choice);
    }
  }

  lemma {:induction false} LostForGood(s: State, acts: seq<Action>, w: nat)
    requires HasLost(s, w)
    ensures HasLost(Play(s, acts), w)
    decreases |acts|
  {
    hide Next, HasLost;
    if acts != [] {
      NextKeepsLost(s, acts[0], w);
      LostForGood(Next(s, acts[0]), acts[1..], w);
    }
  }

  lemma LostPublishesErrors(s: State, w: nat, k: Runner, c: Choice)
    requires VerdictOk(s.noted, w, k) && k.kind.Web? && k.ownership.Lost?
    ensures var publish := RunnerStep(s, k, c).0.publish; publish.Some? ==> publish.value.1.ErrorFrame?
  {
    hide Get, Log, IsActive;
  }

  /**
    A worker whose turn was closed, or whose lock or lease went to somebody else, falls silent with the first
    heartbeat that finds out: whatever happens later, it publishes no content and no done event any more, at
    most an error.
  */
  lemma SilentOnceLost(web: set<nat>, before: seq<Action>, w: nat, beat: Choice, after: seq<Action>, c: Choice)
    requires var s := Play(Init(web), before);
      && w in s.runners && s.runners[w].kind.Web? && (s.runners[w].pc.Streaming? || Beats(s.runners[w]))
      && Misses(s, s.runners[w], beat)
    ensures var s := Play(Init(web), before + ([Run(w, beat)] + after));
      && w in s.runners
      && var publish := EffectOf(s, Run(w, c)).publish;
         publish.Some? ==> publish.value.1.ErrorFrame?
  {
    var s := Play(Init(web), before);
    var s1 := Next(s, Run(w, beat));
    hide Play, RunnerStep, Misses, Beats, Commit, Touches;
    LosesIffMisses(s, s.runners[w], beat);
    StepStaysOnTurn(s, s.runners[w], beat);
    assert HasLost(s1, w);
    hide Next;
    LostForGood(s1, after, w);
    PlayConcat(Init(web), before, [Run(w, beat)] + after);
    PlayCons(s, Run(w, beat), after);
    var s2 := Play(s1, after);
    ReachableVerdict(web, before + ([Run(w, beat)] + after), w);
    LostPublishesErrors(s2, w, s2.runners[w], c);
  }

  lemma PlayCons(s: State, a: Action, acts: seq<Action>)
    ensures Play(s, [a] + acts) == Play(Next(s, a), acts)
  {
    hide Next;
    assert ([a] + acts)[1..] == acts;
  }
}
