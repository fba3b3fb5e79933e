/**
  The committed history of the `turns` table.  Every statement any process runs against the table is one
  of a few atomic operations; whatever their order, per chat the history strictly alternates between the
  creation and the finalization of one and the same turn, and the table agrees with it.
*/
module TurnLedger {
  import opened KeyStore
  import opened TurnStore

  datatype Life =
    | Born(turn: nat, chat: nat)
    | Ended(turn: nat, chat: nat, status: Status)

  datatype Db = Db(rows: Rows, nextId: nat, history: seq<Life>)

  datatype DbOp =
    | Read
    | Insert(chat: nat, user: nat, now: int)
    | Mark(turn: nat, thread: string, codexTurn: string, now: int)
    | Beat(turn: nat, now: int)
    | Note(turn: nat, event: nat)
    | Attach(turn: nat, message: nat)
    | Close(turn: nat, status: Status, code: Option<string>, detail: Option<string>, now: int)

  /** One committed statement. The history grows where try_create_starting and finalize_once report success. */
  function Apply(db: Db, op: DbOp): Db {
    match op
    case Read => db
    case Insert(chat, user, now) =>
      var history := if HasActive(db.rows, chat) then db.history else db.history + [Born(db.nextId, chat)];
      Db(Created(db.rows, db.nextId, chat, user, now), db.nextId + 1, history)
    case Mark(t, thread, codexTurn, now) => db.(rows := MarkedRunning(db.rows, t, thread, codexTurn, now))
    case Beat(t, now) => db.(rows := HeartBeaten(db.rows, t, now))
    case Note(t, event) => db.(rows := EventNoted(db.rows, t, event))
    case Attach(t, message) => db.(rows := MessageAttached(db.rows, t, message))
    case Close(t, status, code, detail, now) =>
      if Terminal(status) && IsActive(db.rows, t)
      then Db(Finalized(db.rows, t, status, code, detail, now), db.nextId, db.history + [Ended(t, db.rows[t].chat, status)])
      else db
  }

  function Exec(db: Db, ops: seq<DbOp>): Db
    decreases |ops|
  {
    if ops == [] then db else Exec(Apply(db, ops[0]), ops[1..])
  }

  const EMPTY := Db(map[], 1, [])

  // ---------- strict alternation ----------

  /** The turn of the chat that was created last and is not yet finalized. */
  function Open(history: seq<Life>, chat: nat): Option<nat> {
    if history == [] then None
    else
      var last := history[|history| - 1];
      if last.chat != chat then Open(history[..|history| - 1], chat)
      else if last.Born? then Some(last.turn)
      else None
  }

  predicate Mentions(history: seq<Life>, t: nat) {
    exists i :: 0 <= i < |history| && history[i].turn == t
  }

  /** Each entry fits what is open before it: a new turn needs a free chat, an end needs its own turn open. */
  predicate Fits(history: seq<Life>, e: Life) {
    match e
    case Born(t, chat) => Open(history, chat).None? && !Mentions(history, t)
    case Ended(t, chat, status) => Open(history, chat) == Some(t) && Terminal(status)
  }

  predicate Alternates(history: seq<Life>) {
    forall i :: 0 <= i < |history| ==> Fits(history[..i], history[i])
  }

  ghost predicate Sound(db: Db) {
    && OneActive(db.rows)
    && (forall t :: t in db.rows ==> t < db.nextId)
    && (forall i :: 0 <= i < |db.history| ==> db.history[i].turn < db.nextId)
    && Alternates(db.history)
    && (forall t :: IsActive(db.rows, t) ==> Open(db.history, db.rows[t].chat) == Some(t))
    && (forall c, t :: Open(db.history, c) == Some(t) ==> IsActive(db.rows, t) && db.rows[t].chat == c)
  }

  lemma AlternatesSnoc(history: seq<Life>, e: Life)
    requires Alternates(history) && Fits(history, e)
    ensures Alternates(history + [e])
  {
    var h := history + [e];
    forall i | 0 <= i < |h| ensures Fits(h[..i], h[i]) {
      assert h[..i] == history[..i];
      assert i == |history| ==> history[..i] == history;
    }
  }

  lemma OpenSnoc(history: seq<Life>, e: Life, chat: nat)
    ensures Open(history + [e], chat)
         == if e.chat != chat then Open(history, chat) else if e.Born? then Some(e.turn) else None
  {
    assert (history + [e])[..|history|] == history;
  }

  lemma InsertKeepsSound(db: Db, chat: nat, user: nat, now: int)
    requires Sound(db)
    ensures Sound(Apply(db, Insert(chat, user, now)))
  {
    hide Open, Alternates;
    if !HasActive(db.rows, chat) {
      var e := Born(db.nextId, chat);
      var db' := Apply(db, Insert(chat, user, now));
      forall c ensures Open(db'.history, c) == if c == chat then Some(db.nextId) else Open(db.history, c) {
        OpenSnoc(db.history, e, c);
      }
      assert forall t :: Open(db.history, chat) == Some(t) ==> HasActive(db.rows, chat);
      AlternatesSnoc(db.history, e);
      forall t | IsActive(db'.rows, t) && t != db.nextId ensures IsActive(db.rows, t) && db.rows[t].chat != chat {
      }
    }
  }

  lemma CloseKeepsSound(db: Db, op: DbOp)
    requires Sound(db) && op.Close?
    ensures Sound(Apply(db, op))
  {
    hide Open, Alternates;
    if Terminal(op.status) && IsActive(db.rows, op.turn) {
      var chat := db.rows[op.turn].chat;
      var e := Ended(op.turn, chat, op.status);
      var db' := Apply(db, op);
      forall c ensures Open(db'.history, c) == if c == chat then None else Open(db.history, c) {
        OpenSnoc(db.history, e, c);
      }
      AlternatesSnoc(db.history, e);
    }
  }

  /** Every statement keeps the table and the history sound, and rows only develop. */
  lemma ApplyKeepsSound(db: Db, op: DbOp)
    requires Sound(db)
    ensures Sound(Apply(db, op))
  {
    match op
    case Insert(chat, user, now) => InsertKeepsSound(db, chat, user, now);
    case Close(_, _, _, _, _) => CloseKeepsSound(db, op);
    case _ => QuietKeepsSound(db, op);
  }

  /** Statements other than creation and finalization neither add nor remove rows nor change who is active. */
  lemma QuietKeepsActive(db: Db, op: DbOp)
    requires !op.Insert? && !op.Close?
    ensures Apply(db, op).rows.Keys == db.rows.Keys
    ensures forall t :: t in db.rows ==> Apply(db, op).rows[t].chat == db.rows[t].chat
    ensures forall t :: IsActive(Apply(db, op).rows, t) == IsActive(db.rows, t)
  {
  }

  lemma QuietKeepsSound(db: Db, op: DbOp)
    requires Sound(db) && !op.Insert? && !op.Close?
    ensures Sound(Apply(db, op))
  {
    QuietKeepsActive(db, op);
    var db' := Apply(db, op);
    assert db'.history == db.history && db'.nextId == db.nextId;
    hide Open, Alternates, IsActive, Apply;
  }

  lemma ApplyDevelops(db: Db, op: DbOp)
    requires Sound(db)
    ensures Develops(db.rows, Apply(db, op).rows)
  {
    hide Open, Alternates;
  }

  // ---------- whole runs ----------

  lemma {:induction false} ExecKeepsSound(db: Db, ops: seq<DbOp>)
    requires Sound(db)
    ensures Sound(Exec(db, ops))
    decreases |ops|
  {
    hide Sound, Apply;
    if ops != [] {
      ApplyKeepsSound(db, ops[0]);
      ExecKeepsSound(Apply(db, ops[0]), ops[1..]);
    }
  }

  /** In every order of statements by any processes: one active turn per chat, and strict alternation. */
  lemma EveryRunAlternates(ops: seq<DbOp>)
    ensures OneActive(Exec(EMPTY, ops).rows) && Alternates(Exec(EMPTY, ops).history)
    ensures forall c, t :: Open(Exec(EMPTY, ops).history, c) == Some(t) <==>
                           IsActive(Exec(EMPTY, ops).rows, t) && Exec(EMPTY, ops).rows[t].chat == c
  {
    ExecKeepsSound(EMPTY, ops);
  }

  /** Status, error and completion time of a terminal row never change again, and no status goes back. */
  lemma {:induction false} ExecDevelops(db: Db, ops: seq<DbOp>)
    requires Sound(db)
    ensures Develops(db.rows, Exec(db, ops).rows)
    decreases |ops|
  {
    hide Sound, Apply, Develops;
    if ops == [] {
      DevelopsReflexive(db.rows);
    } else {
      ApplyKeepsSound(db, ops[0]);
      ApplyDevelops(db, ops[0]);
      ExecDevelops(Apply(db, ops[0]), ops[1..]);
      DevelopsTransitive(db.rows, Apply(db, ops[0]).rows, Exec(db, ops).rows);
    }
  }

  /** No later statement detaches a turn's message or attaches another, but an attachment itself. */
  lemma {:induction false} AttachmentStays(db: Db, t: nat, message: nat, ops: seq<DbOp>)
    requires Sound(db) && t in db.rows && forall op :: op in ops ==> !op.Attach?
    ensures var rows := Exec(Apply(db, Attach(t, message)), ops).rows; t in rows && rows[t].assistant == Some(message)
    decreases |ops|
  {
    if ops != [] {
      ApplyKeepsSound(db, Attach(t, message));
      RowKeepsMessage(Apply(db, Attach(t, message)), t, ops);
    }
  }

  lemma {:induction false} RowKeepsMessage(db: Db, t: nat, ops: seq<DbOp>)
    requires Sound(db) && t in db.rows && forall op :: op in ops ==> !op.Attach?
    ensures var rows := Exec(db, ops).rows; t in rows && rows[t].assistant == db.rows[t].assistant
    decreases |ops|
  {
    if ops != [] {
      ApplyKeepsSound(db, ops[0]);
      StatementKeepsMessage(db, t, ops[0]);
      hide Apply, Sound;
      RowKeepsMessage(Apply(db, ops[0]), t, ops[1..]);
    }
  }

  lemma StatementKeepsMessage(db: Db, t: nat, op: DbOp)
    requires Sound(db) && t in db.rows && !op.Attach?
    ensures var rows := Apply(db, op).rows; t in rows && rows[t].assistant == db.rows[t].assistant
  {
  }

  lemma DevelopsReflexive(rows: Rows)
    ensures Develops(rows, rows)
  {
  }

  predicate Ends(e: Life, t: nat) {
    e.Ended? && e.turn == t
  }

  /** If a chat's open turn was closed at `i` and is open again at `j`, it was born in between. */
  lemma {:induction false} ReopenedNeedsBirth(history: seq<Life>, i: nat, j: nat, chat: nat, t: nat)
    requires Alternates(history) && i < j <= |history|
    requires history[i].Ended? && history[i].chat == chat
    requires Open(history[..j], chat) == Some(t)
    ensures exists k :: i < k < j && history[k] == Born(t, chat)
    decreases j
  {
    assert history[..j][..j - 1] == history[..j - 1];
    var last := history[..j][j - 1];
    assert last == history[j - 1];
    if last.chat != chat {
      ReopenedNeedsBirth(history, i, j - 1, chat, t);
    } else {
      assert last == Born(t, chat);
    }
  }

  lemma {:induction false} OpenWasBorn(history: seq<Life>, n: nat, chat: nat, t: nat)
    requires n <= |history| && Open(history[..n], chat) == Some(t)
    ensures exists k :: 0 <= k < n && history[k] == Born(t, chat)
    decreases n
  {
    assert history[..n][..n - 1] == history[..n - 1];
    var last := history[..n][n - 1];
    assert last == history[n - 1];
    if last.chat != chat {
      OpenWasBorn(history, n - 1, chat, t);
    }
  }

  lemma PrefixMentions(history: seq<Life>, t: nat)
    ensures forall i, j :: 0 <= i < j <= |history| && history[i].turn == t ==> Mentions(history[..j], t)
  {
    forall i, j | 0 <= i < j <= |history| && history[i].turn == t ensures Mentions(history[..j], t) {
      assert history[..j][i] == history[i];
    }
  }

  lemma BornOnce(history: seq<Life>, a: nat, b: nat, t: nat)
    requires Alternates(history) && a < |history| && b < |history|
    requires history[a].Born? && history[a].turn == t && history[b].Born? && history[b].turn == t
    ensures a == b
  {
    hide Open, Mentions;
    PrefixMentions(history, t);
    assert Fits(history[..a], history[a]) && Fits(history[..b], history[b]);
  }

  /** Exactly once: no alternating history ends a turn twice, so finalize_once succeeds at most once per turn. */
  lemma FinalizedAtMostOnce(history: seq<Life>, i: nat, j: nat, t: nat)
    requires Alternates(history) && i <= j < |history|
    requires Ends(history[i], t) && Ends(history[j], t)
    ensures i == j
  {
    hide Open;
    assert Fits(history[..i], history[i]) && Fits(history[..j], history[j]);
    OpenWasBorn(history, i, history[i].chat, t);
    OpenWasBorn(history, j, history[j].chat, t);
    var a :| 0 <= a < i && history[a] == Born(t, history[i].chat);
    var b :| 0 <= b < j && history[b] == Born(t, history[j].chat);
    BornOnce(history, a, b, t);
    if i < j {
      ReopenedNeedsBirth(history, i, j, history[i].chat, t);
      var k :| i < k < j && history[k] == Born(t, history[i].chat);
      BornOnce(history, a, k, t);
    }
  }
}
