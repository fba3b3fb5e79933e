/** The finalizers of the protocol, left alone, do what the methods of Recovery are proved to do. */
module SweepTheorems {
  import opened KeyStore
  import opened TurnStore
  import opened TurnProtocol
  import opened Redelivery
  import L = TurnLedger
  import R = Recovery

  function Sweeps(p: nat, n: nat): seq<Action> {
    if n == 0 then [] else [Sweep(p)] + Sweeps(p, n - 1)
  }

  lemma SweepsStep(s: State, p: nat, n: nat)
    requires n > 0
    ensures Play(s, Sweeps(p, n)) == Play(Next(s, Sweep(p)), Sweeps(p, n - 1))
  {
    hide Next;
    assert Sweeps(p, n)[1..] == Sweeps(p, n - 1);
  }

  lemma OneSweep(s: State, p: nat)
    requires p in s.sweepers
    ensures var (e, k), s' := SweepStep(s, s.sweepers[p]), Next(s, Sweep(p));
      && s'.db == L.Apply(s.db, e.db) && s'.active == Keys(s.active, e.lock) && s'.leases == Keys(s.leases, e.lease)
      && s'.sweepers == s.sweepers[p := k] && s'.clock == s.clock
  {
    hide SweepStep, L.Apply, Keys;
  }

  /** The finalizer is done, and this is what it has made of the table and the locks. */
  ghost predicate Leaves(s: State, p: nat, rows: Rows, active: Store<nat, nat>) {
    p in s.sweepers && s.sweepers[p].pc.Over? && s.db.rows == rows && s.active == active
  }

  lemma {:induction false} OverStays(s: State, p: nat, n: nat)
    requires p in s.sweepers && s.sweepers[p].pc.Over?
    ensures Leaves(Play(s, Sweeps(p, n)), p, s.db.rows, s.active)
    decreases n
  {
    if n > 0 {
      hide Next, Leaves, Play;
      SweepsStep(s, p, n);
      OneSweep(s, p);
      OverStays(Next(s, Sweep(p)), p, n - 1);
    }
  }

  /** The common end of the lease listener and the zombie check: close the turn, then let go of its lock. */
  lemma ClosesThenReleases(s: State, p: nat)
    requires p in s.sweepers && s.sweepers[p].pc.Closing? && (s.sweepers[p].kind.LeaseExpired? || s.sweepers[p].kind.Zombie?)
    ensures var k := s.sweepers[p];
      Leaves(Play(s, Sweeps(p, 2)), p,
             Finalized(s.db.rows, k.turn, Failed, SweepCode(k.kind), SweepDetail(k.kind), s.clock),
             KeyStore.Apply(s.active, DelIf(k.chat, k.turn)))
  {
    hide Next, Finalized;
    SweepsStep(s, p, 2);
    OneSweep(s, p);
    var s1 := Next(s, Sweep(p));
    SweepsStep(s1, p, 1);
    OneSweep(s1, p);
    var k := s.sweepers[p];
    CloseIsFinalized(s.db, k.turn, Failed, SweepCode(k.kind), SweepDetail(k.kind), s.clock);
  }

  lemma CloseIsFinalized(db: L.Db, t: nat, status: Status, code: Option<string>, detail: Option<string>, now: int)
    requires Terminal(status)
    ensures L.Apply(db, L.Close(t, status, code, detail, now)).rows == Finalized(db.rows, t, status, code, detail, now)
  {
  }

  /** Recovery.FinalizeOrphan, in the other order of its two effects. */
  lemma OrphanAlone(s: State, p: nat)
    requires p in s.sweepers && s.sweepers[p].kind.Orphan? && s.sweepers[p].pc.ReleaseFirst?
    ensures var k := s.sweepers[p];
      Leaves(Play(s, Sweeps(p, 2)), p,
             Finalized(s.db.rows, k.turn, Failed, R.ORPHAN_CODE, R.ORPHAN_DETAIL, s.clock),
             KeyStore.Apply(s.active, DelIf(k.chat, k.turn)))
  {
    hide Next, Finalized;
    SweepsStep(s, p, 2);
    OneSweep(s, p);
    var s1 := Next(s, Sweep(p));
    SweepsStep(s1, p, 1);
    OneSweep(s1, p);
    CloseIsFinalized(s.db, s.sweepers[p].turn, Failed, R.ORPHAN_CODE, R.ORPHAN_DETAIL, s.clock);
  }

  /** Recovery.FinalizeLeaseExpired. */
  lemma LeaseExpiredAlone(s: State, p: nat)
    requires p in s.sweepers && s.sweepers[p].kind.LeaseExpired? && s.sweepers[p].pc.Checking?
    ensures var k := s.sweepers[p];
      Leaves(Play(s, Sweeps(p, 3)), p,
             Finalized(s.db.rows, k.turn, Failed, R.LEASE_CODE, R.LEASE_DETAIL, s.clock),
             if IsActive(s.db.rows, k.turn) then KeyStore.Apply(s.active, DelIf(k.chat, k.turn)) else s.active)
  {
    hide Next, Leaves, KeyStore.Apply, Play;
    SweepsStep(s, p, 3);
    OneSweep(s, p);
    var s1 := Next(s, Sweep(p));
    if IsActive(s.db.rows, s.sweepers[p].turn) {
      ClosesThenReleases(s1, p);
    } else {
      OverStays(s1, p, 2);
    }
  }

  /** Recovery.CloseZombie, for the active row that a new request found. */
  lemma ZombieAlone(s: State, p: nat)
    requires p in s.sweepers && s.sweepers[p].kind.Zombie? && s.sweepers[p].pc.Checking? && IsActive(s.db.rows, s.sweepers[p].turn)
    ensures var k := s.sweepers[p];
      var closed := s.db.rows[k.turn].codexTurn.Some? && k.turn !in s.leases;
      Leaves(Play(s, Sweeps(p, 4)), p,
             if closed then Finalized(s.db.rows, k.turn, Failed, R.LEASE_CODE, R.ZOMBIE_DETAIL, s.clock) else s.db.rows,
             if closed then KeyStore.Apply(s.active, DelIf(k.chat, k.turn)) else s.active)
  {
    hide Next, Leaves, KeyStore.Apply, Play, Finalized;
    SweepsStep(s, p, 4);
    OneSweep(s, p);
    var s1 := Next(s, Sweep(p));
    if s.db.rows[s.sweepers[p].turn].codexTurn.Some? {
      SweepsStep(s1, p, 3);
      OneSweep(s1, p);
      var s2 := Next(s1, Sweep(p));
      if s.sweepers[p].turn in s.leases {
        OverStays(s2, p, 2);
      } else {
        ClosesThenReleases(s2, p);
      }
    } else {
      OverStays(s1, p, 3);
    }
  }

  // ---------- from the start ----------

  /** A finalizer of the given kind looks at turn `t` and takes `n` steps. */
  function SweepRun(p: nat, kind: SweepKind, t: nat, n: nat): seq<Action> {
    [StartSweep(p, kind, t)] + Sweeps(p, n)
  }

  lemma Starts(s: State, p: nat, kind: SweepKind, t: nat, n: nat)
    requires p !in s.sweepers && t in s.db.rows
    ensures var s1 := Next(s, StartSweep(p, kind, t));
      && Play(s, SweepRun(p, kind, t, n)) == Play(s1, Sweeps(p, n))
      && s1.db == s.db && s1.active == s.active && s1.leases == s.leases && s1.clock == s.clock && s1.runners == s.runners
      && s1.sweepers == s.sweepers[p := Sweeper(kind, t, s.db.rows[t].chat, FirstSweepPc(kind))]
  {
    var s1 := Next(s, StartSweep(p, kind, t));
    assert SweepRun(p, kind, t, n)[1..] == Sweeps(p, n);
  }

  /** The startup sweep of a stale turn: closed with its code, and its own lock is gone in any case. */
  lemma OrphanSwept(s: State, p: nat, t: nat)
    requires p !in s.sweepers && t in s.db.rows
    ensures Leaves(Play(s, SweepRun(p, Orphan, t, 2)), p,
                   Finalized(s.db.rows, t, Failed, Some("orphan_heartbeat"), R.ORPHAN_DETAIL, s.clock),
                   KeyStore.Apply(s.active, DelIf(s.db.rows[t].chat, t)))
  {
    hide Next, Play, Leaves, Finalized, KeyStore.Apply;
    Starts(s, p, Orphan, t, 2);
    OrphanAlone(Next(s, StartSweep(p, Orphan, t)), p);
  }

  lemma LeaseExpirySwept(s: State, p: nat, t: nat)
    requires p !in s.sweepers && t in s.db.rows
    ensures Leaves(Play(s, SweepRun(p, LeaseExpired, t, 3)), p,
                   Finalized(s.db.rows, t, Failed, Some("lease_expired"), R.LEASE_DETAIL, s.clock),
                   if IsActive(s.db.rows, t) then KeyStore.Apply(s.active, DelIf(s.db.rows[t].chat, t)) else s.active)
  {
    hide Next, Play, Leaves, Finalized, KeyStore.Apply;
    Starts(s, p, LeaseExpired, t, 3);
    LeaseExpiredAlone(Next(s, StartSweep(p, LeaseExpired, t)), p);
  }

  lemma ZombieSwept(s: State, p: nat, t: nat)
    requires p !in s.sweepers && IsActive(s.db.rows, t)
    ensures var closed := s.db.rows[t].codexTurn.Some? && t !in s.leases;
      Leaves(Play(s, SweepRun(p, Zombie, t, 4)), p,
             if closed then Finalized(s.db.rows, t, Failed, Some("lease_expired"), R.ZOMBIE_DETAIL, s.clock) else s.db.rows,
             if closed then KeyStore.Apply(s.active, DelIf(s.db.rows[t].chat, t)) else s.active)
  {
    hide Next, Play, Leaves, Finalized, KeyStore.Apply;
    Starts(s, p, Zombie, t, 4);
    ZombieAlone(Next(s, StartSweep(p, Zombie, t)), p);
  }

  /** The handlers that only close: a stale sidecar turn, a failed enqueue, a user's cancel. They leave the lock alone. */
  lemma ClosesOnly(s: State, p: nat, kind: SweepKind, t: nat)
    requires p !in s.sweepers && t in s.db.rows && (kind.StaleSidecar? || kind.EnqueueFailed? || kind.UserCancel?)
    ensures var code := if kind.StaleSidecar? then "stale_active_turn" else if kind.EnqueueFailed? then "enqueue_failed" else "user_cancelled";
      Leaves(Play(s, SweepRun(p, kind, t, 1)), p,
             Finalized(s.db.rows, t, if kind.UserCancel? then Cancelled else Failed, Some(code), None, s.clock), s.active)
  {
    hide Next, Finalized;
    Starts(s, p, kind, t, 1);
    var s1 := Next(s, StartSweep(p, kind, t));
    SweepsStep(s1, p, 1);
    OneSweep(s1, p);
    CloseIsFinalized(s.db, t, if kind.UserCancel? then Cancelled else Failed, SweepCode(kind), None, s.clock);
  }

  // ---------- a worker that dies ----------

  /** Its process dies; the lease and the lock run out, and the listener hears of the lease. */
  function DeathAndRecovery(w: nat, p: nat, t: nat, chat: nat, wait: nat): seq<Action> {
    [Run(w, Die), Tick(wait)] + [ExpireLease(t), ExpireLock(chat)] + SweepRun(p, LeaseExpired, t, 3)
  }

  lemma Dies(s: State, w: nat, wait: nat)
    requires w in s.runners
    ensures var s' := Next(Next(s, Run(w, Die)), Tick(wait));
      && s'.db == s.db && s'.active == s.active && s'.leases == s.leases && s'.clock == s.clock + wait && s'.sweepers == s.sweepers
  {
    var s1 := Next(s, Run(w, Die));
    assert s1.db == s.db && s1.active == s.active && s1.leases == s.leases && s1.clock == s.clock && s1.sweepers == s.sweepers;
  }

  lemma RunsOut(s: State, t: nat, chat: nat)
    requires t in s.leases && s.leases[t].deadline <= s.clock && chat in s.active && s.active[chat].deadline <= s.clock
    ensures var s' := Next(Next(s, ExpireLease(t)), ExpireLock(chat));
      && s'.db == s.db && s'.active == s.active - {chat} && s'.leases == s.leases - {t} && s'.clock == s.clock && s'.sweepers == s.sweepers
  {
    var s1 := Next(s, ExpireLease(t));
    assert s1.db == s.db && s1.active == s.active && s1.leases == s.leases - {t} && s1.clock == s.clock && s1.sweepers == s.sweepers;
  }

  /**
    No dead worker blocks its chat for good: whenever a worker streams its turn and dies, then by the time its lease
    and lock have run out the listener closes the turn as FAILED, and lock and lease are free for the next one.
  */
  lemma DeadWorkerIsRecovered(s: State, w: nat, p: nat, t: nat, wait: nat)
    requires Streams(s, w, t) && p !in s.sweepers
    requires s.leases[t].deadline <= s.clock + wait && s.active[s.db.rows[t].chat].deadline <= s.clock + wait
    ensures var chat := s.db.rows[t].chat;
      var s' := Play(s, DeathAndRecovery(w, p, t, chat, wait));
      && t in s'.db.rows && s'.db.rows[t].status == Failed && s'.db.rows[t].errorCode == Some("lease_expired")
      && chat !in s'.active
  {
    hide Next, Play;
    var chat := s.db.rows[t].chat;
    Dies(s, w, wait);
    var s2 := Next(Next(s, Run(w, Die)), Tick(wait));
    RunsOut(s2, t, chat);
    var s4 := Next(Next(s2, ExpireLease(t)), ExpireLock(chat));
    LeaseExpirySwept(s4, p, t);
    PlayTwo(s, Run(w, Die), Tick(wait));
    PlayTwo(s2, ExpireLease(t), ExpireLock(chat));
    PlayConcat(s, [Run(w, Die), Tick(wait)], [ExpireLease(t), ExpireLock(chat)]);
    PlayConcat(s, [Run(w, Die), Tick(wait)] + [ExpireLease(t), ExpireLock(chat)], SweepRun(p, LeaseExpired, t, 3));
    assert KeyStore.Apply(s4.active, DelIf(chat, t)) == s4.active;
  }
}
