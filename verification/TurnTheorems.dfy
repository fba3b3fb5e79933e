/** What holds over every schedule of the turn protocol. */
module TurnTheorems {
  import opened KeyStore
  import opened TurnStore
  import opened TurnProtocol
  import opened TurnInvariants
  import L = TurnLedger

  lemma ReachableInv(web: set<nat>, acts: seq<Action>)
    ensures Inv(Play(Init(web), acts))
  {
    InitInv(web);
    PlayKeepsInv(Init(web), acts);
  }

  // ---------- rows ----------

  /** The statements a schedule runs against the table, in order. */
  function Statements(s: State, acts: seq<Action>): seq<L.DbOp>
    decreases |acts|
  {
    if acts == [] then [] else [EffectOf(s, acts[0]).db] + Statements(Next(s, acts[0]), acts[1..])
  }

  lemma {:induction false} TableFollowsStatements(s: State, acts: seq<Action>)
    ensures Play(s, acts).db == L.Exec(s.db, Statements(s, acts))
    decreases |acts|
  {
    if acts != [] {
      hide EffectOf, L.Apply;
      assert Next(s, acts[0]).db == L.Apply(s.db, EffectOf(s, acts[0]).db);
      hide Next;
      TableFollowsStatements(Next(s, acts[0]), acts[1..]);
    }
  }

  /**
    Every interleaving of creators, workers, redeliveries, recovery and cancels: each chat has at most one
    STARTING or RUNNING row, and its committed history strictly alternates between creating and finalizing
    one and the same turn.
  */
  lemma OneTurnAtATime(web: set<nat>, acts: seq<Action>)
    ensures var db := Play(Init(web), acts).db;
      && OneActive(db.rows)
      && L.Alternates(db.history)
      && forall c, t :: L.Open(db.history, c) == Some(t) <==> IsActive(db.rows, t) && db.rows[t].chat == c
  {
    TableFollowsStatements(Init(web), acts);
    L.EveryRunAlternates(Statements(Init(web), acts));
  }

  /** Over any schedule at most one finalize_once call per turn reports success. */
  lemma FinalizedOnce(web: set<nat>, acts: seq<Action>, i: nat, j: nat, t: nat)
    requires var h := Play(Init(web), acts).db.history;
      i < |h| && j < |h| && L.Ends(h[i], t) && L.Ends(h[j], t)
    ensures i == j
  {
    OneTurnAtATime(web, acts);
    var h := Play(Init(web), acts).db.history;
    if i <= j {
      L.FinalizedAtMostOnce(h, i, j, t);
    } else {
      L.FinalizedAtMostOnce(h, j, i, t);
    }
  }

  /** Whatever happens later, a status never goes back, and a terminal row keeps status, error and completion time. */
  lemma TerminalIsForever(web: set<nat>, acts: seq<Action>, more: seq<Action>)
    ensures Develops(Play(Init(web), acts).db.rows, Play(Init(web), acts + more).db.rows)
  {
    var s := Play(Init(web), acts);
    ReachableInv(web, acts);
    PlayConcat(Init(web), acts, more);
    TableFollowsStatements(s, more);
    L.ExecDevelops(s.db, Statements(s, more));
  }

  // ---------- terminal events ----------

  /**
    A worker that finalizes a turn, unless it was cancelled or skips a redelivery, has already put a terminal
    event into the log; and COMPLETED is written only behind a done event.
  */
  lemma PublishedBeforeFinalized(web: set<nat>, acts: seq<Action>, w: nat)
    requires var s := Play(Init(web), acts);
      w in s.runners && s.runners[w].kind.Web? && RunnerStep(s, s.runners[w], Go).0.db.Close?
    ensures var s := Play(Init(web), acts);
      var k := s.runners[w];
      && (!k.exit.ByCancel? ==> HasTerminal(Log(s, k.turn)))
      && (RunnerStep(s, k, Go).0.db.status.Completed? ==> HasDone(Log(s, k.turn)))
  {
    var s := Play(Init(web), acts);
    ReachableInv(web, acts);
    OnlyFinalizingCloses(s, s.runners[w], Go);
    assert RunnerInv(s, w, s.runners[w]);
  }

  /**
    Whether it finalizes or not: a worker that has got past its finally block's publishing, unless it was
    cancelled or skips a redelivery, leaves a terminal event in the log.
  */
  lemma NoExitWithoutTerminal(web: set<nat>, acts: seq<Action>, w: nat)
    requires var s := Play(Init(web), acts);
      && w in s.runners && s.runners[w].kind.Web? && !s.runners[w].exit.ByCancel? && !s.runners[w].exit.BySkip?
      && (s.runners[w].pc.Finalizing? || s.runners[w].pc.RateRelease? || s.runners[w].pc.Exited?)
    ensures HasTerminal(Log(Play(Init(web), acts), Play(Init(web), acts).runners[w].turn))
  {
    var s := Play(Init(web), acts);
    ReachableInv(web, acts);
    assert RunnerInv(s, w, s.runners[w]);
  }

  /** In every reachable state, a web turn's COMPLETED row has a done event in its log. */
  lemma CompletedIsVisible(web: set<nat>, acts: seq<Action>, t: nat)
    requires var s := Play(Init(web), acts); t in s.db.rows && s.db.rows[t].status.Completed? && s.db.rows[t].chat in web
    ensures HasDone(Log(Play(Init(web), acts), t))
  {
    ReachableInv(web, acts);
    PlayKeepsWeb(Init(web), acts);
  }

  lemma {:induction false} PlayKeepsWeb(s: State, acts: seq<Action>)
    ensures Play(s, acts).web == s.web
    decreases |acts|
  {
    if acts != [] {
      PlayKeepsWeb(Next(s, acts[0]), acts[1..]);
    }
  }

  // ---------- readers ----------

  /**
    What a client has read is a contiguous run of the log right behind its cursor, each event once, and never
    past the first terminal event.
  */
  lemma TailIsContiguous(web: set<nat>, acts: seq<Action>, r: nat)
    requires r in Play(Init(web), acts).readers
    ensures var s := Play(Init(web), acts);
      var c := s.readers[r];
      && c.start <= c.cursor <= |Log(s, c.turn)|
      && c.seen == Log(s, c.turn)[c.start..c.cursor]
      && forall i :: 0 <= i < |c.seen| - 1 ==> !IsTerminal(c.seen[i])
  {
    ReachableInv(web, acts);
    var s := Play(Init(web), acts);
    assert ReaderInv(s, s.readers[r]);
  }

  /** A tail that runs to its end has delivered a terminal event, from the log or made from the row. */
  lemma TailDeliversTerminal(web: set<nat>, acts: seq<Action>, r: nat)
    requires var s := Play(Init(web), acts); r in s.readers && s.readers[r].pc.ReadOver?
    ensures var c := Play(Init(web), acts).readers[r];
      && (HasTerminal(c.seen) || (c.synthetic.Some? && IsTerminal(c.synthetic.value)))
      && (c.synthetic.Some? ==>
            && c.turn in Play(Init(web), acts).db.rows
            && TellsRow(c.synthetic.value, Play(Init(web), acts).db.rows[c.turn]))
  {
    ReachableInv(web, acts);
    var s := Play(Init(web), acts);
    assert ReaderInv(s, s.readers[r]);
  }

  /**
    What a finished tail adds of its own agrees with the row, then and ever after: done exactly for a COMPLETED
    turn, and otherwise an error with the row's code, or the default of its status if the row has none.
  */
  lemma SyntheticTellsRow(web: set<nat>, acts: seq<Action>, r: nat)
    requires var s := Play(Init(web), acts); r in s.readers && s.readers[r].synthetic.Some?
    ensures var s := Play(Init(web), acts);
      var f := s.readers[r].synthetic.value;
      && s.readers[r].turn in s.db.rows
      && var row := s.db.rows[s.readers[r].turn];
         && (f.DoneFrame? <==> row.status.Completed?)
         && (f.ErrorFrame? <==> row.status.Failed? || row.status.Cancelled?)
         && (f.ErrorFrame? ==>
               f.code == if row.errorCode.Some? && row.errorCode.value != "" then row.errorCode.value
                         else if row.status.Failed? then "stream_dropped" else "cancelled")
  {
    ReachableInv(web, acts);
    var s := Play(Init(web), acts);
    assert ReaderInv(s, s.readers[r]);
  }

  /** It is added exactly if the row is terminal when the tail ends; so tailing a terminal turn tells its row at once. */
  lemma TailOfTerminalTurn(s: State, r: nat, t: nat, after: nat)
    requires r !in s.readers && t in s.db.rows && Terminal(s.db.rows[t].status) && after <= |Log(s, t)|
    ensures var s' := Play(s, [OpenTail(r, t, after, false), Tail(r)]);
      && r in s'.readers && s'.readers[r].pc.ReadOver? && s'.readers[r].seen == []
      && s'.readers[r].synthetic.Some? && TellsRow(s'.readers[r].synthetic.value, s.db.rows[t])
  {
    hide Next, ReadStep, SyntheticTerminal;
    var s1 := Next(s, OpenTail(r, t, after, false));
    OpenStep(s, r, t, after);
    TailStep(s1, r);
    assert [OpenTail(r, t, after, false), Tail(r)][1..] == [Tail(r)] && [Tail(r)][1..] == [];
    assert Play(s1, [Tail(r)]) == Play(Next(s1, Tail(r)), []);
    FinishStep(s1, s1.readers[r]);
    SyntheticIsTerminal(s1, s1.readers[r]);
  }

  lemma OpenStep(s: State, r: nat, t: nat, after: nat)
    requires r !in s.readers && t in s.db.rows && Terminal(s.db.rows[t].status) && after <= |Log(s, t)|
    ensures var s' := Next(s, OpenTail(r, t, after, false));
      s'.db == s.db && s'.readers == s.readers[r := Reader(t, after, after, 0, Finishing, [], None)]
  {
  }

  lemma TailStep(s: State, r: nat)
    requires r in s.readers
    ensures var s' := Next(s, Tail(r)); s'.db == s.db && s'.readers == s.readers[r := ReadStep(s, s.readers[r])]
  {
    hide ReadStep;
  }

  lemma FinishStep(s: State, r: Reader)
    requires r.pc.Finishing? && r.turn in s.db.rows
    ensures ReadStep(s, r) == r.(synthetic := SyntheticTerminal(s.db.rows[r.turn]), pc := ReadOver)
  {
    hide SyntheticTerminal;
  }

  // ---------- a tail that goes on ----------

  function Tails(r: nat, n: nat): seq<Action> {
    if n == 0 then [] else [Tail(r)] + Tails(r, n - 1)
  }

  /** It has got everything there is, or the first terminal event. */
  ghost predicate CaughtUp(s: State, r: nat) {
    && r in s.readers
    && var c := s.readers[r];
       (c.pc.Reading? && c.cursor == |Log(s, c.turn)|) || (c.pc.Finishing? && HasTerminal(c.seen))
  }

  lemma TailsStep(s: State, r: nat, n: nat)
    requires n > 0
    ensures Play(s, Tails(r, n)) == Play(Next(s, Tail(r)), Tails(r, n - 1))
  {
    hide Next;
    assert Tails(r, n)[1..] == Tails(r, n - 1);
  }

  lemma TailKeepsLogs(s: State, r: nat)
    requires r in s.readers
    ensures Next(s, Tail(r)).logs == s.logs
  {
    hide ReadStep;
  }

  lemma ReadAdvances(s: State, c: Reader)
    requires c.cursor <= |Log(s, c.turn)| && (c.pc.Reading? || (c.pc.Delivering? && 0 < c.batch <= |Log(s, c.turn)| - c.cursor))
    requires !(c.pc.Reading? && c.cursor == |Log(s, c.turn)|)
    ensures var c', log := ReadStep(s, c), Log(s, c.turn);
      && c'.turn == c.turn && c.cursor <= c'.cursor <= |log|
      && (if c.pc.Reading? then c'.pc.Delivering? && c'.cursor == c.cursor && 0 < c'.batch <= |log| - c.cursor
          else c'.cursor == c.cursor + 1 && c'.seen == c.seen + [log[c.cursor]]
               && (if IsTerminal(log[c.cursor]) then c'.pc.Finishing?
                   else c'.pc.Reading? || (c'.pc.Delivering? && 0 < c'.batch <= |log| - c'.cursor)))
  {
  }

  /** A client that keeps reading gets everything that is in the log, up to the first terminal event, however large the batches. */
  lemma {:induction false} TailCatchesUp(s: State, r: nat) returns (n: nat)
    requires r in s.readers
    requires var c := s.readers[r];
      && c.cursor <= |Log(s, c.turn)|
      && (c.pc.Reading? || (c.pc.Delivering? && 0 < c.batch <= |Log(s, c.turn)| - c.cursor))
    ensures CaughtUp(Play(s, Tails(r, n)), r)
    decreases |Log(s, s.readers[r].turn)| - s.readers[r].cursor, if s.readers[r].pc.Reading? then 1 else 0
  {
    hide Next, ReadStep, IsTerminal;
    var c := s.readers[r];
    if c.pc.Reading? && c.cursor == |Log(s, c.turn)| {
      n := 0;
    } else {
      ReadAdvances(s, c);
      TailStep(s, r);
      TailKeepsLogs(s, r);
      var s1 := Next(s, Tail(r));
      assert Log(s1, c.turn) == Log(s, c.turn);
      if s1.readers[r].pc.Finishing? {
        AppendTerminal(c.seen, Log(s, c.turn)[c.cursor]);
        n := 1;
        TailsStep(s, r, 1);
      } else {
        var m := TailCatchesUp(s1, r);
        n := m + 1;
        TailsStep(s, r, n);
      }
    }
  }

  /** A tail that has got everything of a turn that is terminal comes to its end, and tells the row. */
  lemma TailEnds(s: State, r: nat)
    requires r in s.readers && s.readers[r].pc.Reading? && s.readers[r].cursor == |Log(s, s.readers[r].turn)|
    requires var t := s.readers[r].turn; t in s.db.rows && Terminal(s.db.rows[t].status)
    ensures var s' := Play(s, Tails(r, 3));
      && r in s'.readers && s'.readers[r].pc.ReadOver? && s'.readers[r].seen == s.readers[r].seen
      && s'.readers[r].synthetic.Some? && TellsRow(s'.readers[r].synthetic.value, s.db.rows[s.readers[r].turn])
  {
    hide Next, SyntheticTerminal;
    var s1, s2 := Next(s, Tail(r)), Next(Next(s, Tail(r)), Tail(r));
    TailsStep(s, r, 3);
    TailStep(s, r);
    TailsStep(s1, r, 2);
    TailStep(s1, r);
    TailsStep(s2, r, 1);
    TailStep(s2, r);
    SyntheticIsTerminal(s2, s2.readers[r]);
  }

  /** A reader stays on its turn and keeps its starting point. */
  lemma {:induction false} ReaderStays(s: State, acts: seq<Action>, r: nat)
    requires r in s.readers
    ensures var s' := Play(s, acts);
      r in s'.readers && s'.readers[r].turn == s.readers[r].turn && s'.readers[r].start == s.readers[r].start
    decreases |acts|
  {
    if acts != [] {
      NextKeepsReader(s, acts[0], r);
      hide Next;
      ReaderStays(Next(s, acts[0]), acts[1..], r);
    }
  }

  lemma NextKeepsReader(s: State, a: Action, r: nat)
    requires r in s.readers
    ensures var s' := Next(s, a);
      r in s'.readers && s'.readers[r].turn == s.readers[r].turn && s'.readers[r].start == s.readers[r].start
  {
    hide EffectOf, Commit;
  }

  /** A client that tails a turn from behind event `after` has, at any time, got exactly what follows it in the log. */
  lemma TailStartsBehind(web: set<nat>, before: seq<Action>, r: nat, t: nat, after: nat, fromStart: bool, acts: seq<Action>)
    requires var s := Play(Init(web), before);
      r !in s.readers && t in s.db.rows && after <= |Log(s, t)| && (fromStart ==> after == 0)
    ensures var s' := Play(Init(web), before + ([OpenTail(r, t, after, fromStart)] + acts));
      && r in s'.readers
      && var c := s'.readers[r];
         c.turn == t && after <= c.cursor <= |Log(s', t)| && c.seen == Log(s', t)[after..c.cursor]
  {
    var s := Play(Init(web), before);
    var open := OpenTail(r, t, after, fromStart);
    var s1 := Next(s, open);
    assert r in s1.readers && s1.readers[r].turn == t && s1.readers[r].start == after;
    hide Next;
    ReaderStays(s1, acts, r);
    PlayConcat(Init(web), before, [open] + acts);
    assert ([open] + acts)[1..] == acts;
    assert Play(s, [open] + acts) == Play(s1, acts);
    TailIsContiguous(web, before + ([open] + acts), r);
  }

  /** Stopping at any event and tailing again from it continues with no gap and no repeat. */
  lemma ResumeContinues(web: set<nat>, acts: seq<Action>, first: nat, second: nat)
    requires var s := Play(Init(web), acts);
      && first in s.readers && second in s.readers
      && s.readers[first].turn == s.readers[second].turn
      && s.readers[second].start == s.readers[first].cursor
    ensures var s := Play(Init(web), acts);
      var a, b := s.readers[first], s.readers[second];
      && a.start <= b.cursor <= |Log(s, a.turn)|
      && a.seen + b.seen == Log(s, a.turn)[a.start..b.cursor]
      && (!HasTerminal(a.seen) ==> forall i :: 0 <= i < |a.seen + b.seen| - 1 ==> !IsTerminal((a.seen + b.seen)[i]))
  {
    hide Play, Init, Log;
    TailIsContiguous(web, acts, first);
    TailIsContiguous(web, acts, second);
    var s := Play(Init(web), acts);
    var a, b := s.readers[first], s.readers[second];
    var log := Log(s, a.turn);
    assert log[a.start..a.cursor] + log[a.cursor..b.cursor] == log[a.start..b.cursor];
  }

  /** Published events stay where they are: a log only ever grows at its end. */
  lemma {:induction false} LogsOnlyGrow(s: State, acts: seq<Action>, t: nat)
    ensures Log(s, t) <= Log(Play(s, acts), t)
    decreases |acts|
  {
    if acts != [] {
      NextExtendsLogs(s, acts[0]);
      hide Next;
      LogsOnlyGrow(Next(s, acts[0]), acts[1..], t);
    }
  }
}
