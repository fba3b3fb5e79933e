/** The Redis-backed locks of a running turn: services/turns/locks.py and services/turns/lease.py. */
module TurnLocks {
  import opened KeyStore

  const LOCK_TTL := 30  // _LOCK_TTL_S
  const LEASE_TTL := 30
  const LEADER_TTL := 30

  datatype LockOutcome = Acquired | Redelivery | ActiveBusy

  /** `turn:active:{chat}`: the one turn that may run in a chat. */
  class ActiveLocks {
    var active: Store<nat, nat>

    constructor ()
      ensures active == map[]
    {
      active := map[];
    }

    method TryAcquireActive(chat: nat, turn: nat, now: int) returns (ok: bool)
      modifies this
      ensures ok == (chat !in old(active))
      ensures active == Apply(old(active), SetNx(chat, turn, now + 30))
    {
      ok := chat !in active;
      if ok {
        active := active[chat := Key(turn, now + LOCK_TTL)];
      }
    }

    method ActiveLockValue(chat: nat) returns (turn: Option<nat>)
      ensures turn.None? <==> chat !in active
      ensures turn.Some? ==> active[chat].owner == turn.value
    {
      turn := if chat in active then Some(active[chat].owner) else None;
    }

    /** Moves the deadline of this turn's own lock only. False means that the lock is no longer this turn's. */
    method HeartbeatActive(chat: nat, turn: nat, now: int) returns (owned: bool)
      modifies this
      ensures owned == (Get(old(active), chat) == Some(turn))
      ensures active == Apply(old(active), Refresh(chat, turn, now + 30))
      ensures !owned ==> active == old(active)
    {
      owned := chat in active && active[chat].owner == turn;
      if owned {
        active := active[chat := Key(turn, now + LOCK_TTL)];
      }
    }

    /** Removes the lock only if it is this turn's. */
    method ReleaseActive(chat: nat, turn: nat) returns (deleted: bool)
      modifies this
      ensures deleted == (Get(old(active), chat) == Some(turn))
      ensures active == Apply(old(active), DelIf(chat, turn))
    {
      deleted := chat in active && active[chat].owner == turn;
      if deleted {
        active := active - {chat};
      }
    }

    /**
      Entering hold_turn_locks. `meanwhile` is what others do to the locks between the failed SET NX and the
      GET: the outcome is REDELIVERY exactly if the lock names this turn after that.
    */
    method EnterTurnLocks(chat: nat, turn: nat, now: int, meanwhile: seq<Op<nat, nat>>) returns (outcome: LockOutcome)
      modifies this
      ensures outcome.Acquired? <==> chat !in old(active)
      ensures outcome.Acquired? ==> active == old(active)[chat := Key(turn, now + 30)]
      ensures !outcome.Acquired? ==> active == Exec(old(active), meanwhile)
      ensures !outcome.Acquired? ==> (outcome.Redelivery? <==> Get(active, chat) == Some(turn))
    {
      var acquired := TryAcquireActive(chat, turn, now);
      if acquired {
        return Acquired;
      }
      active := Exec(active, meanwhile);
      var value := ActiveLockValue(chat);
      outcome := if value == Some(turn) then Redelivery else ActiveBusy;
    }
  }

  /** If nobody frees the lock in between, a redelivered job meets its own turn's lock and is told so. */
  lemma OwnLockMeansRedelivery(active: Store<nat, nat>, chat: nat, turn: nat, meanwhile: seq<Op<nat, nat>>)
    requires Get(active, chat) == Some(turn) && Undisturbed(active[chat].deadline, meanwhile, chat, turn)
    ensures Get(Exec(active, meanwhile), chat) == Some(turn)
  {
    Custody(active, meanwhile, chat, turn);
  }

  /** `turn:lease:{turn}` with the process that runs it, and this process's own register of leases. */
  class Leases {
    var keys: Store<nat, string>
    var local: set<(nat, string)>        // _ACTIVE_LEASES
    var leaders: Store<string, string>   // leader:{name}

    constructor ()
      ensures keys == map[] && local == {} && leaders == map[]
    {
      keys, local, leaders := map[], {}, map[];
    }

    method Acquire(turn: nat, holder: string, now: int) returns (ok: bool)
      modifies this`keys, this`local
      ensures ok == (turn !in old(keys))
      ensures keys == Apply(old(keys), SetNx(turn, holder, now + 30))
      ensures local == if ok then old(local) + {(turn, holder)} else old(local)
    {
      ok := turn !in keys;
      if ok {
        keys := keys[turn := Key(holder, now + LEASE_TTL)];
        local := local + {(turn, holder)};
      }
    }

    /** Moves the deadline of the holder's own lease only. */
    method Refresh(turn: nat, holder: string, now: int) returns (owned: bool)
      modifies this`keys
      ensures owned == (Get(old(keys), turn) == Some(holder))
      ensures keys == Apply(old(keys), Op.Refresh(turn, holder, now + 30))
      ensures !owned ==> keys == old(keys)
    {
      owned := turn in keys && keys[turn].owner == holder;
      if owned {
        keys := keys[turn := keys[turn].(deadline := now + LEASE_TTL)];
      }
    }

    method Release(turn: nat, holder: string) returns (deleted: bool)
      modifies this`keys, this`local
      ensures deleted == (Get(old(keys), turn) == Some(holder))
      ensures keys == Apply(old(keys), DelIf(turn, holder))
      ensures local == old(local) - {(turn, holder)}
    {
      local := local - {(turn, holder)};
      deleted := turn in keys && keys[turn].owner == holder;
      if deleted {
        keys := keys - {turn};
      }
    }

    method AcquireLeader(name: string, holder: string, now: int) returns (ok: bool)
      modifies this`leaders
      ensures ok == (name !in old(leaders))
      ensures leaders == Apply(old(leaders), SetNx(name, holder, now + 30))
    {
      ok := name !in leaders;
      if ok {
        leaders := leaders[name := Key(holder, now + LEADER_TTL)];
      }
    }

    /** Moves the deadline of the leader's own key only. */
    method RefreshLeader(name: string, holder: string, now: int) returns (owned: bool)
      modifies this`leaders
      ensures owned == (Get(old(leaders), name) == Some(holder))
      ensures leaders == Apply(old(leaders), Op.Refresh(name, holder, now + 30))
      ensures !owned ==> leaders == old(leaders)
    {
      owned := name in leaders && leaders[name].owner == holder;
      if owned {
        leaders := leaders[name := leaders[name].(deadline := now + LEADER_TTL)];
      }
    }

    method ReleaseLeader(name: string, holder: string) returns (deleted: bool)
      modifies this`leaders
      ensures deleted == (Get(old(leaders), name) == Some(holder))
      ensures leaders == Apply(old(leaders), DelIf(name, holder))
    {
      deleted := name in leaders && leaders[name].owner == holder;
      if deleted {
        leaders := leaders - {name};
      }
    }

    /**
      Graceful shutdown: frees exactly the leases that are registered here and still held with the registered
      value, counts them, and leaves every other process's lease alone.
    */
    method ReleaseAllLocal() returns (released: nat)
      modifies this`keys, this`local
      ensures local == {}
      ensures keys == Freed(old(keys), old(local))
      ensures released == |old(keys)| - |keys|
    {
      var snapshot := local;
      released := 0;
      FreedNone(keys);
      while snapshot != {}
        invariant snapshot <= old(local) && local == snapshot
        invariant keys == Freed(old(keys), old(local) - snapshot)
        invariant released == |old(keys)| - |keys|
        decreases snapshot
      {
        var entry :| entry in snapshot;
        var (turn, holder) := entry;
        FreedOneMore(old(keys), old(local) - snapshot, turn, holder);
        SizeWithout(keys, turn);
        assert old(local) - (snapshot - {entry}) == (old(local) - snapshot) + {entry};
        snapshot := snapshot - {entry};
        if turn in keys && keys[turn].owner == holder {
          keys := keys - {turn};
          released := released + 1;
        }
        local := local - {entry};
      }
      assert old(local) - snapshot == old(local);
    }
  }

  /** The leases that remain when the given ones have been released by their holders. */
  function Freed(keys: Store<nat, string>, entries: set<(nat, string)>): Store<nat, string> {
    map t | t in keys && (t, keys[t].owner) !in entries :: keys[t]
  }

  lemma FreedNone(keys: Store<nat, string>)
    ensures forall local: set<(nat, string)> :: Freed(keys, local - local) == keys
  {
  }

  lemma FreedOneMore(keys: Store<nat, string>, done: set<(nat, string)>, turn: nat, holder: string)
    ensures Apply(Freed(keys, done), DelIf(turn, holder)) == Freed(keys, done + {(turn, holder)})
  {
  }

  lemma SizeWithout(m: Store<nat, string>, t: nat)
    ensures t in m ==> |m - {t}| == |m| - 1
  {
    assert (m - {t}).Keys == m.Keys - {t};
  }
}
