/**
  The broker may deliver a turn's job any number of times.  When such a redelivery leaves no trace, and when it
  does harm.
*/
module Redelivery {
  import opened KeyStore
  import opened TurnStore
  import opened TurnProtocol
  import opened TurnInvariants
  import opened TurnTheorems
  import Locks = TurnLocks

  // ---------- what `touched` records ----------

  lemma {:induction false} TouchedGrows(s: State, acts: seq<Action>)
    ensures s.touched <= Play(s, acts).touched
    decreases |acts|
  {
    if acts != [] {
      assert s.touched <= Next(s, acts[0]).touched;
      hide Next;
      TouchedGrows(Next(s, acts[0]), acts[1..]);
    }
  }

  lemma StepOutsideTouched(s: State, w: nat, c: Choice)
    requires w !in Next(s, Run(w, c)).touched
    ensures var s' := Next(s, Run(w, c)); s'.db == s.db && s'.logs == s.logs && s'.rate == s.rate
  {
    hide RunnerStep;
  }

  /**
    A runner that is not in `touched` at the end of a schedule has, with no step of its own, changed a turn row,
    the history, an event log or the rate counter.
  */
  lemma UntouchedMeansUnchanged(s: State, acts: seq<Action>, i: nat, w: nat)
    requires i < |acts| && acts[i].Run? && acts[i].runner == w && w !in Play(s, acts).touched
    ensures var before, after := Play(s, acts[..i]), Play(s, acts[..i + 1]);
      after.db == before.db && after.logs == before.logs && after.rate == before.rate
  {
    hide Next;
    var before := Play(s, acts[..i]);
    assert acts[..i + 1] == acts[..i] + [acts[i]];
    PlayConcat(s, acts[..i], [acts[i]]);
    PlayOne(before, acts[i]);
    assert acts == acts[..i + 1] + acts[i + 1..];
    PlayConcat(s, acts[..i + 1], acts[i + 1..]);
    TouchedGrows(Play(s, acts[..i + 1]), acts[i + 1..]);
    StepOutsideTouched(before, w, acts[i].choice);
  }

  lemma PlayOne(s: State, a: Action)
    ensures Play(s, [a]) == Next(s, a)
  {
    hide Next;
    assert [a][1..] == [];
  }

  // ---------- skipping ----------

  /** Behind its locks and its lease a runner has decided whether it skips. */
  predicate Decided(pc: Pc) {
    !pc.Locking? && !pc.LockCheck? && !pc.Leasing?
  }

  ghost predicate DecidedAs(s: State, w: nat, skips: bool) {
    w in s.runners && Decided(s.runners[w].pc) && (s.runners[w].exit.BySkip? <==> skips)
  }

  lemma StepKeepsDecision(s: State, k: Runner, c: Choice)
    requires Decided(k.pc) && (k.exit.BySkip? ==> !InTry(k.pc))
    ensures var k' := RunnerStep(s, k, c).1;
      Decided(k'.pc) && (k'.exit.BySkip? <==> k.exit.BySkip?)
  {
    hide Get, IsActive, Log;
  }

  lemma NextKeepsDecision(s: State, a: Action, w: nat, skips: bool)
    requires Inv(s) && DecidedAs(s, w, skips)
    ensures DecidedAs(Next(s, a), w, skips)
  {
    assert RunnerInv(s, w, s.runners[w]);
    hide Inv, RunnerOk, RunnerPublishes, EffectOf, RunnerStep, Commit, Touches;
    if a.Run? && a.runner == w {
      StepKeepsDecision(s, s.runners[w], a.choice);
    }
  }

  lemma {:induction false} DecisionSticks(s: State, acts: seq<Action>, w: nat, skips: bool)
    requires Inv(s) && DecidedAs(s, w, skips)
    ensures DecidedAs(Play(s, acts), w, skips)
    decreases |acts|
  {
    hide Inv, Next, DecidedAs;
    if acts != [] {
      NextKeepsInv(s, acts[0]);
      NextKeepsDecision(s, acts[0], w, skips);
      DecisionSticks(Next(s, acts[0]), acts[1..], w, skips);
    }
  }

  /** A runner that came to its end without skipping has at least given its rate slot back. */
  ghost predicate ExitsTouch(s: State) {
    forall w :: w in s.runners && s.runners[w].pc.Exited? && !s.runners[w].exit.BySkip? ==> w in s.touched
  }

  lemma ExitTouches(s: State, k: Runner, c: Choice)
    requires !k.pc.Exited?
    ensures var (e, k') := RunnerStep(s, k, c);
      k'.pc.Exited? && !k'.exit.BySkip? ==> Touches(s, e)
  {
    hide Get, IsActive, Log;
  }

  lemma NextKeepsExits(s: State, a: Action)
    requires ExitsTouch(s)
    ensures ExitsTouch(Next(s, a))
  {
    hide RunnerStep, Touches;
    if a.Run? && a.runner in s.runners {
      var k := s.runners[a.runner];
      if k.pc.Exited? {
        ExitedStays(s, k, a.choice);
      } else {
        ExitTouches(s, k, a.choice);
      }
    }
  }

  lemma ExitedStays(s: State, k: Runner, c: Choice)
    requires k.pc.Exited?
    ensures RunnerStep(s, k, c).1 == k
  {
  }

  lemma {:induction false} PlayKeepsExits(s: State, acts: seq<Action>)
    requires ExitsTouch(s)
    ensures ExitsTouch(Play(s, acts))
    decreases |acts|
  {
    hide Next, ExitsTouch;
    if acts != [] {
      NextKeepsExits(s, acts[0]);
      PlayKeepsExits(Next(s, acts[0]), acts[1..]);
    }
  }

  /** At the end of its life a runner has left no trace exactly if it skipped; one that skips never leaves any. */
  lemma UntouchedIffSkipped(web: set<nat>, acts: seq<Action>, w: nat)
    requires w in Play(Init(web), acts).runners
    ensures var s := Play(Init(web), acts);
      && (s.runners[w].exit.BySkip? ==> w !in s.touched)
      && (s.runners[w].pc.Exited? ==> (w !in s.touched <==> s.runners[w].exit.BySkip?))
  {
    ReachableInv(web, acts);
    assert RunnerInv(Play(Init(web), acts), w, Play(Init(web), acts).runners[w]);
    PlayKeepsExits(Init(web), acts);
  }

  /** The runner decides with one step, and everything behind that follows from it. */
  lemma DecidedRun(web: set<nat>, before: seq<Action>, w: nat, c: Choice, after: seq<Action>, skips: bool)
    requires DecidedAs(Next(Play(Init(web), before), Run(w, c)), w, skips)
    ensures var s := Play(Next(Play(Init(web), before), Run(w, c)), after);
      && w in s.runners
      && (skips ==> w !in s.touched)
      && (s.runners[w].pc.Exited? ==> (w !in s.touched <==> skips))
  {
    hide Next, Inv, DecidedAs;
    var s := Play(Init(web), before);
    ReachableInv(web, before);
    NextKeepsInv(s, Run(w, c));
    DecisionSticks(Next(s, Run(w, c)), after, w, skips);
    PlayConcat(Init(web), before, [Run(w, c)] + after);
    assert ([Run(w, c)] + after)[1..] == after;
    assert Play(s, [Run(w, c)] + after) == Play(Next(s, Run(w, c)), after);
    DecidedMeans(Play(Next(s, Run(w, c)), after), w, skips);
    UntouchedIffSkipped(web, before + ([Run(w, c)] + after), w);
  }

  lemma DecidedMeans(s: State, w: nat, skips: bool)
    ensures DecidedAs(s, w, skips) ==> w in s.runners && (s.runners[w].exit.BySkip? <==> skips)
  {
  }

  /** What may happen to a delivery that waits for its locks: the answer comes, or the worker is shut down, or it fails. */
  predicate Decisive(c: Choice) {
    c.Go? || c.Cancel? || c.Crash?
  }

  lemma LookDecides(s: State, w: nat, c: Choice)
    requires w in s.runners && s.runners[w].kind.Web? && s.runners[w].pc.LockCheck? && s.runners[w].exit.Normally? && Decisive(c)
    ensures DecidedAs(Next(s, Run(w, c)), w, c.Go? && Get(s.active, s.runners[w].chat) == Some(s.runners[w].turn))
  {
    hide Commit, Touches;
  }

  lemma LeasingDecides(s: State, w: nat, c: Choice)
    requires w in s.runners && s.runners[w].pc.Leasing? && s.runners[w].exit.Normally? && Decisive(c)
    ensures DecidedAs(Next(s, Run(w, c)), w, c.Go? && s.runners[w].turn in s.leases)
  {
    hide Commit, Touches;
  }

  lemma InterruptionDecides(s: State, w: nat, c: Choice)
    requires w in s.runners && InTry(s.runners[w].pc) && s.runners[w].exit.Normally? && (c.Cancel? || c.Crash?)
    ensures DecidedAs(Next(s, Run(w, c)), w, false)
  {
    hide Commit, Touches;
  }

  /**
    A redelivery that found the chat's lock taken. If it gets to read the lock, and the lock names its own turn,
    then whatever happens later the delivery never changes a row, a log or the rate counter. Otherwise, and that
    includes being cancelled or failing before the read, it leaves a trace by the time it ends.
  */
  lemma RedeliveryMeetsLock(web: set<nat>, before: seq<Action>, w: nat, c: Choice, after: seq<Action>)
    requires var s := Play(Init(web), before); w in s.runners && s.runners[w].kind.Web? && s.runners[w].pc.LockCheck?
    requires Decisive(c)
    ensures var s, s' := Play(Init(web), before), Play(Next(Play(Init(web), before), Run(w, c)), after);
      var own := c.Go? && Get(s.active, s.runners[w].chat) == Some(s.runners[w].turn);
      && w in s'.runners
      && (own ==> w !in s'.touched)
      && (s'.runners[w].pc.Exited? ==> (w !in s'.touched <==> own))
  {
    var s := Play(Init(web), before);
    hide Play, Next, DecidedAs, RunnerOk, RunnerPublishes;
    ReachableInv(web, before);
    assert RunnerInv(s, w, s.runners[w]);
    LookDecides(s, w, c);
    DecidedRun(web, before, w, c, after, c.Go? && Get(s.active, s.runners[w].chat) == Some(s.runners[w].turn));
  }

  /** Likewise a delivery that has the lock and tries for the lease: no trace exactly if it learns that some process has it. */
  lemma RedeliveryMeetsLease(web: set<nat>, before: seq<Action>, w: nat, c: Choice, after: seq<Action>)
    requires var s := Play(Init(web), before); w in s.runners && s.runners[w].pc.Leasing?
    requires Decisive(c)
    ensures var s, s' := Play(Init(web), before), Play(Next(Play(Init(web), before), Run(w, c)), after);
      var leased := c.Go? && s.runners[w].turn in s.leases;
      && w in s'.runners
      && (leased ==> w !in s'.touched)
      && (s'.runners[w].pc.Exited? ==> (w !in s'.touched <==> leased))
  {
    var s := Play(Init(web), before);
    hide Play, Next, DecidedAs, RunnerOk, RunnerPublishes;
    ReachableInv(web, before);
    assert RunnerInv(s, w, s.runners[w]);
    LeasingDecides(s, w, c);
    DecidedRun(web, before, w, c, after, c.Go? && s.runners[w].turn in s.leases);
  }

  /** A delivery that is cancelled or fails before it has tried for the lock leaves a trace by the time it ends. */
  lemma RedeliveryInterrupted(web: set<nat>, before: seq<Action>, w: nat, c: Choice, after: seq<Action>)
    requires var s := Play(Init(web), before); w in s.runners && s.runners[w].pc.Locking?
    requires c.Cancel? || c.Crash?
    ensures var s' := Play(Next(Play(Init(web), before), Run(w, c)), after);
      w in s'.runners && (s'.runners[w].pc.Exited? ==> w in s'.touched)
  {
    var s := Play(Init(web), before);
    hide Play, Next, DecidedAs, RunnerOk, RunnerPublishes;
    ReachableInv(web, before);
    assert RunnerInv(s, w, s.runners[w]);
    InterruptionDecides(s, w, c);
    DecidedRun(web, before, w, c, after, false);
  }

  /** Delivering the job of a terminal turn changes nothing at all. */
  lemma RedeliveryOfTerminalTurn(s: State, w: nat, t: nat, holder: nat)
    requires t in s.db.rows && Terminal(s.db.rows[t].status)
    ensures Next(s, Deliver(w, t, holder)) == s
  {
  }

  // ---------- redeliveries that do harm ----------

  function Goes(w: nat, n: nat): seq<Action> {
    if n == 0 then [] else [Run(w, Go)] + Goes(w, n - 1)
  }

  /** Steps left until the finally block has finalized the turn. */
  function StepsToClose(pc: Pc): nat {
    match pc
    case Unlocking => 4
    case LeaseRelease => 3
    case SafetyPublish => 2
    case Finalizing => 1
    case _ => 0
  }

  ghost predicate OthersKept(s: State, s': State, w: nat) {
    forall v :: v in s.runners && v != w ==> v in s'.runners && s'.runners[v] == s.runners[v]
  }

  /** A runner on its way out with a verdict: left alone it will finalize. */
  ghost predicate OnItsWayOut(s: State, w: nat, verdict: Status) {
    && w in s.runners
    && var k := s.runners[w];
       && 0 < StepsToClose(k.pc)
       && (k.exit.Normally? || k.exit.ByCancel?)
       && k.status == Some(verdict) && Terminal(verdict)
       && IsActive(s.db.rows, k.turn)
  }

  lemma StepOut(s: State, w: nat, verdict: Status)
    requires OnItsWayOut(s, w, verdict)
    ensures var k, s' := s.runners[w], Next(s, Run(w, Go));
      && OthersKept(s, s', w) && w in s'.runners && s'.runners[w].turn == k.turn
      && (!k.pc.Finalizing? ==> OnItsWayOut(s', w, verdict) && StepsToClose(s'.runners[w].pc) == StepsToClose(k.pc) - 1)
      && (k.pc.Finalizing? ==> k.turn in s'.db.rows && s'.db.rows[k.turn].status == verdict)
  {
    hide Touches, BuildTerminal, Keys;
    var k := s.runners[w];
    assert RunnerStep(s, k, Go) == Teardown(s, k);
    if !k.pc.Finalizing? {
      assert Next(s, Run(w, Go)).db == s.db;
    }
  }

  lemma {:induction false} WalkOut(s: State, w: nat, verdict: Status)
    requires OnItsWayOut(s, w, verdict)
    ensures var t, s' := s.runners[w].turn, Play(s, Goes(w, StepsToClose(s.runners[w].pc)));
      t in s'.db.rows && s'.db.rows[t].status == verdict && OthersKept(s, s', w)
    decreases StepsToClose(s.runners[w].pc)
  {
    hide Next;
    var n := StepsToClose(s.runners[w].pc);
    StepOut(s, w, verdict);
    var s' := Next(s, Run(w, Go));
    assert Goes(w, n)[1..] == Goes(w, n - 1);
    if n > 1 {
      WalkOut(s', w, verdict);
    }
  }

  /** The worker streams its turn, with the chat's lock and the turn's lease in its hands. */
  ghost predicate Streams(s: State, w: nat, t: nat) {
    && w in s.runners && IsActive(s.db.rows, t) && s.db.rows[t].chat in s.web
    && var k := s.runners[w];
       && k.kind.Web? && k.turn == t && k.chat == s.db.rows[t].chat
       && k.pc.Streaming? && k.exit.Normally? && k.held.LockAndLease? && k.ownership.Owned?
       && Get(s.active, k.chat) == Some(t) && Get(s.leases, t) == Some(k.holder)
  }

  /**
    The job is delivered again and loses the race for the lock; before it looks at the lock `wait` seconds pass
    and the lock expires.
  */
  function LateLook(w: nat, t: nat, chat: nat, holder: nat, wait: nat): seq<Action> {
    [Deliver(w, t, holder), Run(w, Go)] + [Tick(wait), ExpireLock(chat), Run(w, Go)] + Goes(w, 4)
  }

  /** The second worker starts, and finds the lock taken. */
  lemma SecondWorkerStarts(s: State, w: nat, t: nat, holder: nat)
    requires t in s.queue && w !in s.runners && IsActive(s.db.rows, t)
    requires s.db.rows[t].chat in s.web && s.db.rows[t].chat in s.active
    ensures var k, s2 := NewRunner(Web, t, s.db.rows[t].chat, holder), Next(Next(s, Deliver(w, t, holder)), Run(w, Go));
      && s2.db == s.db && s2.active == s.active && s2.clock == s.clock
      && s2.runners == s.runners[w := k.(pc := LockCheck)]
  {
    hide Touches;
    var s1 := Next(s, Deliver(w, t, holder));
    assert s1.db == s.db && s1.active == s.active && s1.runners == s.runners[w := NewRunner(Web, t, s.db.rows[t].chat, holder)];
  }

  lemma LockRunsOut(s: State, chat: nat, wait: nat)
    requires chat in s.active && s.active[chat].deadline <= s.clock + wait
    ensures var s' := Next(Next(s, Tick(wait)), ExpireLock(chat));
      s'.db == s.db && s'.runners == s.runners && chat !in s'.active
  {
    var s1 := Next(s, Tick(wait));
    assert s1.db == s.db && s1.active == s.active && s1.clock == s.clock + wait;
  }

  lemma LooksTooLate(s: State, w: nat)
    requires w in s.runners && IsActive(s.db.rows, s.runners[w].turn)
    requires var k := s.runners[w]; k.kind.Web? && k.pc.LockCheck? && k.exit.Normally? && k.chat !in s.active
    ensures var s' := Next(s, Run(w, Go));
      OnItsWayOut(s', w, Failed) && s'.runners[w].turn == s.runners[w].turn && s'.runners[w].pc.Unlocking? && OthersKept(s, s', w)
  {
    hide Touches;
    assert Next(s, Run(w, Go)).db == s.db;
  }

  /**
    "Redelivery while the owner runs is skipped silently" does not hold of every schedule: whenever a worker
    streams its turn, one redelivery whose SET NX fails and whose GET comes when the lock has run out closes the
    turn as FAILED, while the worker goes on as before.
  */
  lemma RedeliveryMayFailLiveTurn(s: State, live: nat, w: nat, t: nat, holder: nat, wait: nat)
    requires Streams(s, live, t) && t in s.queue && w !in s.runners
    requires s.active[s.db.rows[t].chat].deadline <= s.clock + wait
    ensures var s' := Play(s, LateLook(w, t, s.db.rows[t].chat, holder, wait));
      && t in s'.db.rows && s'.db.rows[t].status == Failed
      && live in s'.runners && s'.runners[live] == s.runners[live]
  {
    hide Next, OnItsWayOut, Play;
    var chat := s.db.rows[t].chat;
    SecondWorkerStarts(s, w, t, holder);
    var s2 := Next(Next(s, Deliver(w, t, holder)), Run(w, Go));
    LockRunsOut(s2, chat, wait);
    var s4 := Next(Next(s2, Tick(wait)), ExpireLock(chat));
    LooksTooLate(s4, w);
    var s5 := Next(s4, Run(w, Go));
    WalkOut(s5, w, Failed);
    var first, second := [Deliver(w, t, holder), Run(w, Go)], [Tick(wait), ExpireLock(chat), Run(w, Go)];
    PlayTwo(s, Deliver(w, t, holder), Run(w, Go));
    PlayThree(s2, Tick(wait), ExpireLock(chat), Run(w, Go));
    PlayConcat(s, first, second);
    PlayConcat(s, first + second, Goes(w, 4));
    assert live != w;
  }

  /** The job is delivered again, finds the lock taken, and is cancelled before it has looked at it. */
  function CancelledLook(w: nat, t: nat, holder: nat): seq<Action> {
    [Deliver(w, t, holder), Run(w, Go), Run(w, Cancel)] + Goes(w, 4)
  }

  lemma CancelledBeforeLook(s: State, w: nat)
    requires w in s.runners && IsActive(s.db.rows, s.runners[w].turn)
    requires var k := s.runners[w]; k.pc.LockCheck? && k.exit.Normally?
    ensures var s' := Next(s, Run(w, Cancel));
      OnItsWayOut(s', w, Cancelled) && s'.runners[w].turn == s.runners[w].turn && s'.runners[w].pc.Unlocking? && OthersKept(s, s', w)
  {
    hide Touches;
    assert Next(s, Run(w, Cancel)).db == s.db;
  }

  /**
    The lock need not run out: whenever a worker streams its turn, a redelivery that is cancelled, as by the
    shutdown of its process, between its SET NX and its GET closes the turn as CANCELLED, while the lock names
    the turn all the time and the worker goes on as before.
  */
  lemma CancelledRedeliveryEndsLiveTurn(s: State, live: nat, w: nat, t: nat, holder: nat)
    requires Streams(s, live, t) && t in s.queue && w !in s.runners
    ensures var s' := Play(s, CancelledLook(w, t, holder));
      && t in s'.db.rows && s'.db.rows[t].status == Cancelled
      && live in s'.runners && s'.runners[live] == s.runners[live]
  {
    hide Next, OnItsWayOut, Play;
    SecondWorkerStarts(s, w, t, holder);
    var s2 := Next(Next(s, Deliver(w, t, holder)), Run(w, Go));
    CancelledBeforeLook(s2, w);
    var s3 := Next(s2, Run(w, Cancel));
    WalkOut(s3, w, Cancelled);
    PlayThree(s, Deliver(w, t, holder), Run(w, Go), Run(w, Cancel));
    PlayConcat(s, [Deliver(w, t, holder), Run(w, Go), Run(w, Cancel)], Goes(w, 4));
    assert live != w;
  }

  lemma PlayTwo(s: State, a: Action, b: Action)
    ensures Play(s, [a, b]) == Next(Next(s, a), b)
  {
    hide Next;
    assert [a, b][1..] == [b];
    PlayOne(Next(s, a), b);
  }

  lemma PlayThree(s: State, a: Action, b: Action, c: Action)
    ensures Play(s, [a, b, c]) == Next(Next(Next(s, a), b), c)
  {
    hide Next;
    assert [a, b, c][1..] == [b, c];
    PlayTwo(Next(s, a), b, c);
  }

  /** An ordinary start: the turn is created and enqueued, and a worker takes its lock and its lease. */
  function Start(chat: nat, t: nat, w: nat, holder: nat): seq<Action> {
    [Create(chat, 0), Enqueue(t), Deliver(w, t, holder)] + [Run(w, Go), Run(w, Go)]
  }

  lemma Started1(s: State, chat: nat, w: nat, holder: nat)
    requires chat in s.web && !HasActive(s.db.rows, chat) && w !in s.runners
    ensures var t := s.db.nextId;
      var s' := Next(Next(Next(s, Create(chat, 0)), Enqueue(t)), Deliver(w, t, holder));
      && s'.web == s.web && s'.active == s.active && s'.leases == s.leases && s'.clock == s.clock
      && s'.logs == s.logs && s'.rate == s.rate
      && s'.db.rows == s.db.rows[t := NewRow(chat, 0, s.clock)] && t in s'.queue
      && s'.runners == s.runners[w := NewRunner(Web, t, chat, holder)]
  {
    var t := s.db.nextId;
    var s1 := Next(s, Create(chat, 0));
    assert s1.db.rows == s.db.rows[t := NewRow(chat, 0, s.clock)] && s1.runners == s.runners && s1.web == s.web;
    var s2 := Next(s1, Enqueue(t));
    assert s2.db == s1.db && t in s2.queue;
  }

  lemma Started2(s: State, w: nat)
    requires w in s.runners && IsActive(s.db.rows, s.runners[w].turn)
    requires var k := s.runners[w];
      && k == NewRunner(Web, k.turn, k.chat, k.holder) && s.db.rows[k.turn].chat == k.chat && k.chat in s.web
      && k.chat !in s.active && k.turn !in s.leases
    ensures var k, s' := s.runners[w], Next(Next(s, Run(w, Go)), Run(w, Go));
      && Streams(s', w, k.turn) && s'.queue == s.queue && s'.runners.Keys == s.runners.Keys
      && s'.db == s.db && s'.clock == s.clock && s'.active[k.chat].deadline == s.clock + Locks.LOCK_TTL
      && s'.logs == s.logs && s'.rate == s.rate && s'.active.Keys == s.active.Keys + {k.chat} && s'.leases.Keys == s.leases.Keys + {k.turn}
      && !s'.runners[w].published && s'.runners[w].status.None? && s'.runners[w].error.None?
  {
    hide Touches;
    var s1 := Next(s, Run(w, Go));
    assert s1.db == s.db && s1.leases == s.leases && s1.runners == s.runners[w := s.runners[w].(held := Lock, pc := Leasing)];
  }

  /** Both come about from the empty system: a second delivery closes the turn of a live worker as FAILED, or as CANCELLED. */
  lemma LiveTurnFails(chat: nat)
    ensures exists acts: seq<Action>, s: State, t: nat ::
      && s == Play(Init({chat}), acts) && Streams(s, 0, t)
      && (var s' := Play(s, LateLook(1, t, chat, 1, Locks.LOCK_TTL));
          t in s'.db.rows && s'.db.rows[t].status == Failed && 0 in s'.runners && s'.runners[0] == s.runners[0])
      && (var s' := Play(s, CancelledLook(1, t, 1));
          t in s'.db.rows && s'.db.rows[t].status == Cancelled && 0 in s'.runners && s'.runners[0] == s.runners[0])
  {
    hide Next, Play;
    var s0 := Init({chat});
    var t := s0.db.nextId;
    Started1(s0, chat, 0, 0);
    var s3 := Next(Next(Next(s0, Create(chat, 0)), Enqueue(t)), Deliver(0, t, 0));
    Started2(s3, 0);
    var s := Next(Next(s3, Run(0, Go)), Run(0, Go));
    PlayThree(s0, Create(chat, 0), Enqueue(t), Deliver(0, t, 0));
    PlayTwo(s3, Run(0, Go), Run(0, Go));
    PlayConcat(s0, [Create(chat, 0), Enqueue(t), Deliver(0, t, 0)], [Run(0, Go), Run(0, Go)]);
    assert s == Play(s0, Start(chat, t, 0, 0));
    RedeliveryMayFailLiveTurn(s, 0, 1, t, 1, Locks.LOCK_TTL);
    CancelledRedeliveryEndsLiveTurn(s, 0, 1, t, 1);
  }
}
