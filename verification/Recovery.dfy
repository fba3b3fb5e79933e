/** Recovery of turns whose runner is gone: services/turns/recovery.py, and the zombie check of rpc/chat/service.py. */
module Recovery {
  import opened KeyStore
  import opened TurnStore
  import opened TurnLocks

  const STALE_THRESHOLD := 120  // seconds without a heartbeat

  const ORPHAN_CODE := Some("orphan_heartbeat")
  const ORPHAN_DETAIL := Some("no heartbeat for >120.0s")
  const LEASE_CODE := Some("lease_expired")
  const LEASE_DETAIL := Some("worker lease expired without release")
  const ZOMBIE_DETAIL := Some("worker lease missing — runner dead")

  function Orphaned(row: Row, now: int): Row {
    Closed(row, Failed, ORPHAN_CODE, ORPHAN_DETAIL, now)
  }

  /** _finalize_orphan: closes the turn if it is still active, and in any case lets go of its own lock. */
  method FinalizeOrphan(table: TurnTable, locks: ActiveLocks, turn: nat, chat: nat, now: int)
    requires table.Valid()
    modifies table`rows, locks
    ensures table.Valid()
    ensures table.rows == Finalized(old(table.rows), turn, Failed, ORPHAN_CODE, ORPHAN_DETAIL, now)
    ensures locks.active == Apply(old(locks.active), DelIf(chat, turn))
  {
    var won := table.FinalizeOnce(turn, Failed, ORPHAN_CODE, ORPHAN_DETAIL, now);
    var freed := locks.ReleaseActive(chat, turn);
  }

  /** The rows after a sweep over `stale`. */
  function Swept(rows: Rows, stale: set<nat>, now: int): Rows {
    map t | t in rows :: if t in stale && Active(rows[t].status) then Orphaned(rows[t], now) else rows[t]
  }

  /** The locks after a sweep: exactly those that name a swept turn of their own chat are gone. */
  function Unlocked(active: Store<nat, nat>, rows: Rows, stale: set<nat>): Store<nat, nat> {
    map c | c in active && !(active[c].owner in stale && active[c].owner in rows && rows[active[c].owner].chat == c) :: active[c]
  }

  /**
    The startup sweep finalizes exactly the active turns without a heartbeat for more than two minutes, frees
    their locks, and touches no other turn and no lock that names another turn.
  */
  method ReconcileStaleTurns(table: TurnTable, locks: ActiveLocks, now: int) returns (count: nat)
    requires table.Valid()
    modifies table`rows, locks
    ensures table.Valid()
    ensures var stale := StaleActive(old(table.rows), 120, now);
      && count == |stale|
      && table.rows == Swept(old(table.rows), stale, now)
      && locks.active == Unlocked(old(locks.active), old(table.rows), stale)
  {
    var stale := table.FindStaleActive(STALE_THRESHOLD, now);
    hide StaleActive;
    var rest := stale;
    NoneSwept(table.rows, locks.active, now);
    assert stale - rest == {};
    StaleAreRows(table.rows, now);
    while rest != {}
      invariant table.Valid() && rest <= stale && table.rows.Keys == old(table.rows).Keys
      invariant table.rows == Swept(old(table.rows), stale - rest, now)
      invariant locks.active == Unlocked(old(locks.active), old(table.rows), stale - rest)
      decreases rest
    {
      var turn :| turn in rest;
      ghost var done := stale - rest;
      SweptKeepsChat(old(table.rows), done, turn, now);
      FinalizeOrphan(table, locks, turn, table.rows[turn].chat, now);
      SweptOneMore(old(table.rows), done, turn, now);
      UnlockedOneMore(old(locks.active), old(table.rows), done, turn);
      rest := rest - {turn};
      assert stale - rest == done + {turn};
    }
    assert stale - rest == stale;
    count := |stale|;
  }

  lemma StaleAreRows(rows: Rows, now: int)
    ensures StaleActive(rows, STALE_THRESHOLD, now) <= rows.Keys
  {
  }

  lemma NoneSwept(rows: Rows, active: Store<nat, nat>, now: int)
    ensures Swept(rows, {}, now) == rows && Unlocked(active, rows, {}) == active
  {
  }

  lemma SweptKeepsChat(rows: Rows, done: set<nat>, turn: nat, now: int)
    requires turn in rows
    ensures Swept(rows, done, now).Keys == rows.Keys && Swept(rows, done, now)[turn].chat == rows[turn].chat
  {
  }

  lemma SweptOneMore(rows: Rows, done: set<nat>, turn: nat, now: int)
    requires turn in rows && turn !in done
    ensures Finalized(Swept(rows, done, now), turn, Failed, ORPHAN_CODE, ORPHAN_DETAIL, now) == Swept(rows, done + {turn}, now)
  {
    var a, b := Finalized(Swept(rows, done, now), turn, Failed, ORPHAN_CODE, ORPHAN_DETAIL, now), Swept(rows, done + {turn}, now);
    assert a.Keys == b.Keys;
    forall t | t in rows ensures a[t] == b[t] {
    }
  }

  lemma UnlockedOneMore(active: Store<nat, nat>, rows: Rows, done: set<nat>, turn: nat)
    requires turn in rows
    ensures Apply(Unlocked(active, rows, done), DelIf(rows[turn].chat, turn)) == Unlocked(active, rows, done + {turn})
  {
  }

  /** reconcile_if_stale works on a row read earlier; it counts exactly two minutes as stale, unlike the sweep. */
  method ReconcileIfStale(table: TurnTable, locks: ActiveLocks, turn: nat, seen: Row, now: int) returns (finalized: bool)
    requires table.Valid()
    modifies table`rows, locks
    ensures table.Valid()
    ensures finalized <==> 120 <= now - seen.heartbeatAt
    ensures table.rows == if finalized then Finalized(old(table.rows), turn, Failed, ORPHAN_CODE, ORPHAN_DETAIL, now) else old(table.rows)
    ensures locks.active == if finalized then Apply(old(locks.active), DelIf(seen.chat, turn)) else old(locks.active)
  {
    if now - seen.heartbeatAt < STALE_THRESHOLD {
      return false;
    }
    FinalizeOrphan(table, locks, turn, seen.chat, now);
    return true;
  }

  /** The lease-expired listener closes an active turn and frees its lock; a terminal or unknown turn is left alone. */
  method FinalizeLeaseExpired(table: TurnTable, locks: ActiveLocks, turn: nat, now: int)
    requires table.Valid()
    modifies table`rows, locks
    ensures table.Valid()
    ensures table.rows == Finalized(old(table.rows), turn, Failed, LEASE_CODE, LEASE_DETAIL, now)
    ensures locks.active == if IsActive(old(table.rows), turn)
                            then Apply(old(locks.active), DelIf(old(table.rows)[turn].chat, turn)) else old(locks.active)
  {
    if turn !in table.rows {
      return;
    }
    var chat, status := table.rows[turn].chat, table.rows[turn].status;
    if status != Starting && status != Running {
      return;
    }
    var won := table.FinalizeOnce(turn, Failed, LEASE_CODE, LEASE_DETAIL, now);
    var freed := locks.ReleaseActive(chat, turn);
  }

  /**
    The inline zombie check of a new request: an active turn that reached the sidecar but has no lease is
    closed and unlocked. A turn that is still starting has no lease yet and is spared.
  */
  method CloseZombie(table: TurnTable, locks: ActiveLocks, leases: Leases, turn: nat, now: int) returns (closed: bool)
    requires table.Valid() && turn in table.rows
    modifies table`rows, locks
    ensures table.Valid()
    ensures closed <==> old(table.rows)[turn].codexTurn.Some? && turn !in leases.keys
    ensures table.rows == if closed then Finalized(old(table.rows), turn, Failed, LEASE_CODE, ZOMBIE_DETAIL, now)
                          else old(table.rows)
    ensures locks.active == if closed then Apply(old(locks.active), DelIf(old(table.rows)[turn].chat, turn)) else old(locks.active)
  {
    closed := table.rows[turn].codexTurn.Some? && turn !in leases.keys;
    if closed {
      var chat := table.rows[turn].chat;
      var won := table.FinalizeOnce(turn, Failed, LEASE_CODE, ZOMBIE_DETAIL, now);
      var freed := locks.ReleaseActive(chat, turn);
    }
  }

  /** After a sweep no turn is stale, and every turn that was not stale is as it was. */
  lemma SweepIsExact(rows: Rows, now: int)
    ensures var stale := StaleActive(rows, STALE_THRESHOLD, now);
      var after := Swept(rows, stale, now);
      && StaleActive(after, STALE_THRESHOLD, now) == {}
      && (forall t :: t in rows && t !in stale ==> after[t] == rows[t])
      && Develops(rows, after)
  {
    var stale := StaleActive(rows, STALE_THRESHOLD, now);
    var after := Swept(rows, stale, now);
    forall t | t in rows ensures t !in StaleActive(after, STALE_THRESHOLD, now) && RowDevelops(rows[t], after[t]) {
      if IsActive(rows, t) && rows[t].heartbeatAt < now - STALE_THRESHOLD {
        assert after[t] == Orphaned(rows[t], now);
      }
    }
  }
}
