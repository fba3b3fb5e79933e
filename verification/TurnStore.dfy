/**
  The `turns` table (models/turn.py, services/turns/service.py): one durable row per assistant turn,
  changed by guarded UPDATE statements, with a partial unique index on the chat of active rows.
*/
module TurnStore {
  import opened KeyStore

  datatype Status = Starting | Running | Completed | Failed | Cancelled

  predicate Active(s: Status) {
    s.Starting? || s.Running?
  }

  predicate Terminal(s: Status) {
    s.Completed? || s.Failed? || s.Cancelled?
  }

  datatype Row = Row(
    chat: nat,
    user: nat,
    status: Status,
    codexThread: Option<string>,
    codexTurn: Option<string>,
    errorCode: Option<string>,
    errorDetail: Option<string>,
    lastEvent: nat,
    heartbeatAt: int,
    completedAt: Option<int>,
    assistant: Option<nat>)

  type Rows = map<nat, Row>

  // ---------- single statements ----------

  predicate IsActive(rows: Rows, t: nat) {
    t in rows && Active(rows[t].status)
  }

  predicate HasActive(rows: Rows, chat: nat) {
    exists t :: t in rows && IsActive(rows, t) && rows[t].chat == chat
  }

  /** The partial unique index `turns_active_per_chat`. */
  ghost predicate OneActive(rows: Rows) {
    forall t, u :: IsActive(rows, t) && IsActive(rows, u) && rows[t].chat == rows[u].chat ==> t == u
  }

  function NewRow(chat: nat, user: nat, now: int): Row {
    Row(chat, user, Starting, None, None, None, None, 0, now, None, None)
  }

  /** INSERT of a STARTING row; the unique index refuses it while the chat has an active turn. */
  function Created(rows: Rows, t: nat, chat: nat, user: nat, now: int): Rows {
    if HasActive(rows, chat) then rows else rows[t := NewRow(chat, user, now)]
  }

  /** UPDATE .. WHERE id = t AND status = 'STARTING' */
  function MarkedRunning(rows: Rows, t: nat, thread: string, codexTurn: string, now: int): Rows {
    if t in rows && rows[t].status.Starting?
    then rows[t := rows[t].(status := Running, codexThread := Some(thread), codexTurn := Some(codexTurn), heartbeatAt := now)]
    else rows
  }

  /** UPDATE .. SET heartbeat_at WHERE id = t AND status IN ('STARTING', 'RUNNING') */
  function HeartBeaten(rows: Rows, t: nat, now: int): Rows {
    if IsActive(rows, t) then rows[t := rows[t].(heartbeatAt := now)] else rows
  }

  /** UPDATE .. SET last_event_id WHERE id = t, whatever the status. */
  function EventNoted(rows: Rows, t: nat, event: nat): Rows {
    if t in rows then rows[t := rows[t].(lastEvent := event)] else rows
  }

  function MessageAttached(rows: Rows, t: nat, message: nat): Rows {
    if t in rows then rows[t := rows[t].(assistant := Some(message))] else rows
  }

  function Closed(row: Row, status: Status, code: Option<string>, detail: Option<string>, now: int): Row {
    row.(status := status, errorCode := code, errorDetail := detail, completedAt := Some(now))
  }

  /** UPDATE .. SET status, error, completed_at WHERE id = t AND status IN ('STARTING', 'RUNNING') */
  function Finalized(rows: Rows, t: nat, status: Status, code: Option<string>, detail: Option<string>, now: int): Rows {
    if IsActive(rows, t) then rows[t := Closed(rows[t], status, code, detail, now)] else rows
  }

  /** SELECT .. WHERE status IN ('STARTING', 'RUNNING') AND heartbeat_at < now - threshold */
  function StaleActive(rows: Rows, threshold: int, now: int): set<nat> {
    set t | t in rows && IsActive(rows, t) && rows[t].heartbeatAt < now - threshold
  }

  /** Every sweep, whatever its threshold, counts the turn's silence from `now`. */
  ghost predicate FreshSince(rows: Rows, t: nat, now: int) {
    forall age, later :: t in StaleActive(rows, age, later) <==> age < later - now
  }

  // ---------- what every statement keeps ----------

  function Rank(s: Status): nat {
    match s
    case Starting => 0
    case Running => 1
    case _ => 2
  }

  /**
    How a row may develop: it stays with its chat, its status only moves from STARTING to RUNNING to one of
    the terminal values, and once terminal it keeps status, error and completion time.
  */
  predicate RowDevelops(before: Row, after: Row) {
    && after.chat == before.chat
    && Rank(before.status) <= Rank(after.status)
    && (Terminal(before.status) ==>
          && after.status == before.status
          && after.errorCode == before.errorCode
          && after.errorDetail == before.errorDetail
          && after.completedAt == before.completedAt)
  }

  /** No row disappears, and every row develops. */
  ghost predicate Develops(before: Rows, after: Rows) {
    forall t :: t in before ==> t in after && RowDevelops(before[t], after[t])
  }

  lemma RowDevelopsTransitive(a: Row, b: Row, c: Row)
    requires RowDevelops(a, b) && RowDevelops(b, c)
    ensures RowDevelops(a, c)
  {
  }

  lemma DevelopsTransitive(a: Rows, b: Rows, c: Rows)
    requires Develops(a, b) && Develops(b, c)
    ensures Develops(a, c)
  {
    forall t | t in a ensures t in c && RowDevelops(a[t], c[t]) {
      RowDevelopsTransitive(a[t], b[t], c[t]);
    }
  }

  // ---------- the table ----------

  datatype FinalizeResult = Won | TooLate | NotTerminal

  class TurnTable {
    var rows: Rows
    var nextId: nat

    ghost predicate Valid()
      reads this
    {
      OneActive(rows) && forall t :: t in rows ==> t < nextId
    }

    constructor ()
      ensures Valid() && rows == map[]
    {
      rows, nextId := map[], 1;
    }

    /** None if another turn of the chat is active. The sequence number is used up either way. */
    method TryCreateStarting(chat: nat, user: nat, now: int) returns (created: Option<nat>)
      requires Valid()
      modifies this
      ensures Valid() && Develops(old(rows), rows)
      ensures created == if HasActive(old(rows), chat) then None else Some(old(nextId))
      ensures rows == Created(old(rows), old(nextId), chat, user, now)
      ensures nextId == old(nextId) + 1
      // The new turn waits for its worker, without a verdict, and counts as fresh from now on.
      ensures created.Some? ==>
                && rows.Keys == old(rows).Keys + {created.value}
                && var row := rows[created.value];
                   && row.chat == chat && row.user == user && row.status.Starting? && row.codexTurn.None?
                   && row.errorCode.None? && row.completedAt.None? && row.assistant.None?
                   && FreshSince(rows, created.value, now)
    {
      var t := nextId;
      nextId := nextId + 1;
      if HasActive(rows, chat) {
        return None;
      }
      rows := rows[t := NewRow(chat, user, now)];
      return Some(t);
    }

    method MarkRunning(t: nat, thread: string, codexTurn: string, now: int) returns (ok: bool)
      requires Valid()
      modifies this`rows
      ensures Valid() && Develops(old(rows), rows)
      ensures ok == (t in old(rows) && old(rows)[t].status.Starting?)
      ensures rows == MarkedRunning(old(rows), t, thread, codexTurn, now)
      ensures ok ==>
                && rows[t].status.Running? && rows[t].codexThread == Some(thread) && rows[t].codexTurn == Some(codexTurn)
                && FreshSince(rows, t, now)
    {
      ok := t in rows && rows[t].status.Starting?;
      if ok {
        rows := rows[t := rows[t].(status := Running, codexThread := Some(thread), codexTurn := Some(codexTurn), heartbeatAt := now)];
      }
    }

    method AttachAssistantMessage(t: nat, message: nat)
      requires Valid()
      modifies this`rows
      ensures Valid() && Develops(old(rows), rows)
      ensures rows == MessageAttached(old(rows), t, message)
    {
      if t in rows {
        rows := rows[t := rows[t].(assistant := Some(message))];
      }
    }

    method UpdateLastEvent(t: nat, event: nat)
      requires Valid()
      modifies this`rows
      ensures Valid() && Develops(old(rows), rows)
      ensures rows == EventNoted(old(rows), t, event)
    {
      if t in rows {
        rows := rows[t := rows[t].(lastEvent := event)];
      }
    }

    method Heartbeat(t: nat, now: int) returns (owned: bool)
      requires Valid()
      modifies this`rows
      ensures Valid() && Develops(old(rows), rows)
      ensures owned == IsActive(old(rows), t)
      ensures rows == HeartBeaten(old(rows), t, now)
      // No sweep takes the turn for stale before its threshold has passed from now.
      ensures owned ==> FreshSince(rows, t, now)
    {
      owned := t in rows && (rows[t].status == Starting || rows[t].status == Running);
      if owned {
        rows := rows[t := rows[t].(heartbeatAt := now)];
      }
    }

    /** Exactly the first caller wins; a status that is not terminal is refused without a change. */
    method FinalizeOnce(t: nat, status: Status, code: Option<string>, detail: Option<string>, now: int)
      returns (r: FinalizeResult)
      requires Valid()
      modifies this`rows
      ensures Valid() && Develops(old(rows), rows)
      ensures r == if !Terminal(status) then NotTerminal else if IsActive(old(rows), t) then Won else TooLate
      ensures r.Won? ==> !IsActive(rows, t)
      ensures rows == if r.Won? then Finalized(old(rows), t, status, code, detail, now) else old(rows)
      ensures r.Won? ==>
                && rows.Keys == old(rows).Keys && (forall u :: u in rows && u != t ==> rows[u] == old(rows)[u])
                && rows[t].status == status && rows[t].errorCode == code && rows[t].errorDetail == detail
                && rows[t].completedAt == Some(now) && rows[t].assistant == old(rows)[t].assistant
    {
      if status != Completed && status != Failed && status != Cancelled {
        return NotTerminal;
      }
      if t !in rows || (rows[t].status != Starting && rows[t].status != Running) {
        return TooLate;
      }
      rows := rows[t := rows[t].(status := status, errorCode := code, errorDetail := detail, completedAt := Some(now))];
      return Won;
    }

    /** The chat's active turn: there is at most one, so LIMIT 1 does not pick. */
    method GetActiveForChat(chat: nat) returns (r: Option<nat>)
      requires Valid()
      ensures r.None? ==> !HasActive(rows, chat)
      ensures r.Some? ==> IsActive(rows, r.value) && rows[r.value].chat == chat
      ensures r.Some? ==> forall t :: IsActive(rows, t) && rows[t].chat == chat ==> t == r.value
    {
      if t :| t in rows && IsActive(rows, t) && rows[t].chat == chat {
        return Some(t);
      }
      return None;
    }

    /** Exactly the active rows, STARTING ones included, whose last heartbeat is older than the threshold. */
    method FindStaleActive(threshold: int, now: int) returns (stale: set<nat>)
      ensures forall t :: t in stale <==> t in rows && Active(rows[t].status) && threshold < now - rows[t].heartbeatAt
      ensures stale == StaleActive(rows, threshold, now)
    {
      var cutoff := now - threshold;
      stale := set t | t in rows && (rows[t].status == Starting || rows[t].status == Running) && rows[t].heartbeatAt < cutoff;
    }
  }
}
