/** One turn over the sidecar's notification stream (services/codex/turn.py, idle.py, diagnostics.py). */
module TurnSession {
  import opened KeyStore
  import opened ChatEvents

  // ---------- which notes belong to the turn ----------

  datatype Role = Account | Foreign | Noise | Own

  predicate IsItemNote(body: Body) {
    body.AgentMessageDelta? || body.ItemStarted? || body.ItemCompleted? || body.OtherItemNote?
  }

  /** The filters in their order: account notes, stale turns, session noise. */
  function RoleOf(note: Note, turnId: string): Role {
    if note.body.RateLimitsUpdated? || note.body.TokenUsageUpdated? then Account
    else if note.turnId.Some? && note.turnId.value != turnId then Foreign
    else if note.turnId.None? && !note.body.TurnCompleted? && !IsItemNote(note.body) then Noise
    else Own
  }

  function OwnNotes(notes: seq<Note>, turnId: string): seq<Note> {
    if notes == [] then []
    else if RoleOf(notes[0], turnId).Own? then [notes[0]] + OwnNotes(notes[1..], turnId)
    else OwnNotes(notes[1..], turnId)
  }

  function ForeignCount(notes: seq<Note>, turnId: string): nat {
    if notes == [] then 0 else (if RoleOf(notes[0], turnId).Foreign? then 1 else 0) + ForeignCount(notes[1..], turnId)
  }

  /** The notes that do not name another turn. */
  function NotForeign(notes: seq<Note>, turnId: string): seq<Note> {
    if notes == [] then []
    else if notes[0].turnId.Some? && notes[0].turnId.value != turnId then NotForeign(notes[1..], turnId)
    else [notes[0]] + NotForeign(notes[1..], turnId)
  }

  /** The filters lose nothing of the turn: every event that a note without another turn's id holds is emitted. */
  lemma {:induction false} NoiseSaysNothing(notes: seq<Note>, turnId: string, accumulated: string)
    ensures Emitted(OwnNotes(notes, turnId), accumulated) == Emitted(NotForeign(notes, turnId), accumulated)
  {
    if notes != [] {
      hide OnItemStarted, OnItemCompleted;
      var ev, rest := Translate(notes[0].body, accumulated), notes[1..];
      NoiseSaysNothing(rest, turnId, accumulated);
      if ev.Some? {
        NoiseSaysNothing(rest, turnId, accumulated + TextOf(ev.value));
      }
    }
  }

  lemma {:induction false} OwnNotesConcat(a: seq<Note>, b: seq<Note>, turnId: string)
    ensures OwnNotes(a + b, turnId) == OwnNotes(a, turnId) + OwnNotes(b, turnId)
    ensures ForeignCount(a + b, turnId) == ForeignCount(a, turnId) + ForeignCount(b, turnId)
  {
    if a == [] {
      assert a + b == b;
    } else {
      OwnNotesConcat(a[1..], b, turnId);
      assert (a + b)[1..] == a[1..] + b;
    }
  }

  /** StaleTurnStreamError is raised while `stale` foreign notes and no own note have been seen before. */
  predicate StormsFrom(notes: seq<Note>, turnId: string, threshold: int, stale: nat) {
    notes != [] &&
    match RoleOf(notes[0], turnId)
    case Own => false
    case Foreign => threshold <= stale + 1 || StormsFrom(notes[1..], turnId, threshold, stale + 1)
    case _ => StormsFrom(notes[1..], turnId, threshold, stale)
  }

  predicate Storms(notes: seq<Note>, turnId: string, threshold: int) {
    StormsFrom(notes, turnId, threshold, 0)
  }

  /** Some beginning of the notes holds no own note, but at least one foreign note and `threshold` of them. */
  predicate StormPrefix(notes: seq<Note>, turnId: string, threshold: int, stale: nat, n: nat) {
    && n <= |notes|
    && OwnNotes(notes[..n], turnId) == []
    && 1 <= ForeignCount(notes[..n], turnId)
    && threshold <= stale + ForeignCount(notes[..n], turnId)
  }

  lemma StormPrefixStep(notes: seq<Note>, turnId: string, threshold: int, stale: nat, n: nat)
    requires 0 < n <= |notes|
    ensures OwnNotes(notes[..n], turnId)
         == (if RoleOf(notes[0], turnId).Own? then [notes[0]] else []) + OwnNotes(notes[1..][..n - 1], turnId)
    ensures ForeignCount(notes[..n], turnId)
         == (if RoleOf(notes[0], turnId).Foreign? then 1 else 0) + ForeignCount(notes[1..][..n - 1], turnId)
  {
    assert notes[..n][0] == notes[0] && notes[..n][1..] == notes[1..][..n - 1];
  }

  /** Exactly when a turn is given up as stale: before its first own note, foreign notes reach the threshold. */
  lemma {:induction false} StormIff(notes: seq<Note>, turnId: string, threshold: int, stale: nat)
    ensures StormsFrom(notes, turnId, threshold, stale) <==> exists n :: StormPrefix(notes, turnId, threshold, stale, n)
  {
    if notes != [] {
      var role := RoleOf(notes[0], turnId);
      var stale' := if role.Foreign? then stale + 1 else stale;
      StormIff(notes[1..], turnId, threshold, stale');
      if StormsFrom(notes, turnId, threshold, stale) {
        if role.Foreign? && threshold <= stale + 1 {
          StormPrefixStep(notes, turnId, threshold, stale, 1);
          assert notes[1..][..0] == [];
          assert StormPrefix(notes, turnId, threshold, stale, 1);
        } else {
          var n: nat :| StormPrefix(notes[1..], turnId, threshold, stale', n);
          StormPrefixStep(notes, turnId, threshold, stale, n + 1);
          assert StormPrefix(notes, turnId, threshold, stale, n + 1);
        }
      }
      assert notes[..0] == [];
      assert !StormPrefix(notes, turnId, threshold, stale, 0);
      forall n: nat | 0 < n && StormPrefix(notes, turnId, threshold, stale, n) ensures StormsFrom(notes, turnId, threshold, stale) {
        StormPrefixStep(notes, turnId, threshold, stale, n);
        if !(role.Foreign? && threshold <= stale + 1) && 1 <= ForeignCount(notes[1..][..n - 1], turnId) {
          assert StormPrefix(notes[1..], turnId, threshold, stale', n - 1);
        }
      }
    }
  }

  /** The turn's own first turn/completed; without an id it counts as its own too. */
  function OwnCompletion(notes: seq<Note>, turnId: string): Option<Body> {
    FirstCompletion(OwnNotes(notes, turnId))
  }

  /** A turn whose own completion carries neither an error nor a failure, and no other, ends with done. */
  lemma DoneIff(notes: seq<Note>, turnId: string, threshold: int)
    requires !Storms(notes, turnId, threshold)
    ensures OwnCompletion(notes, turnId).Some? ==> OwnCompletion(notes, turnId).value.TurnCompleted?
    ensures var events, completion := TurnEvents(notes, turnId, threshold), OwnCompletion(notes, turnId);
      (events != [] && events[|events| - 1].DoneEvent?)
      <==> (completion.Some? && completion.value.error.None? && !completion.value.failed)
  {
    ClosedByCompletion(OwnNotes(notes, turnId), "");
    var events := TurnEvents(notes, turnId, threshold);
    hide Emitted, OwnNotes, StormsFrom, Text, FirstCompletion;
    assert events != [] ==> events[|events| - 1] in events;
  }

  /** What a turn yields. */
  function TurnEvents(notes: seq<Note>, turnId: string, threshold: int): seq<ChatEvent> {
    if Storms(notes, turnId, threshold) then [] else Emitted(OwnNotes(notes, turnId), "")
  }

  /** A note that is not the turn's own, put in anywhere, changes no event unless it completes a storm. */
  lemma JunkChangesNothing(a: seq<Note>, junk: Note, b: seq<Note>, turnId: string, threshold: int)
    requires !RoleOf(junk, turnId).Own? && !Storms(a + [junk] + b, turnId, threshold)
    ensures !Storms(a + b, turnId, threshold)
    ensures TurnEvents(a + [junk] + b, turnId, threshold) == TurnEvents(a + b, turnId, threshold)
  {
    hide StormsFrom, OwnNotes, ForeignCount, Emitted, StormPrefix;
    OneJunk(junk, turnId);
    OwnNotesConcat(a, b, turnId);
    OwnNotesConcat(a, [junk], turnId);
    OwnNotesConcat(a + [junk], b, turnId);
    assert OwnNotes(a, turnId) + [] == OwnNotes(a, turnId);
    StormIff(a + b, turnId, threshold, 0);
    StormIff(a + [junk] + b, turnId, threshold, 0);
    forall n | StormPrefix(a + b, turnId, threshold, 0, n)
      ensures exists m :: StormPrefix(a + [junk] + b, turnId, threshold, 0, m)
    {
      JunkKeepsStorm(a, junk, b, turnId, threshold, n);
    }
  }

  lemma OneJunk(junk: Note, turnId: string)
    requires !RoleOf(junk, turnId).Own?
    ensures OwnNotes([junk], turnId) == []
  {
    assert [junk][1..] == [];
  }

  lemma JunkKeepsStorm(a: seq<Note>, junk: Note, b: seq<Note>, turnId: string, threshold: int, n: nat)
    requires !RoleOf(junk, turnId).Own? && StormPrefix(a + b, turnId, threshold, 0, n)
    ensures exists m :: StormPrefix(a + [junk] + b, turnId, threshold, 0, m)
  {
    hide OwnNotes, ForeignCount;
    var whole := a + [junk] + b;
    if n <= |a| {
      assert whole[..n] == (a + b)[..n];
      assert StormPrefix(whole, turnId, threshold, 0, n);
    } else {
      var c := b[..n - |a|];
      OneJunk(junk, turnId);
      assert (a + b)[..n] == a + c && whole[..n + 1] == a + [junk] + c;
      OwnNotesConcat(a, c, turnId);
      OwnNotesConcat(a, [junk], turnId);
      OwnNotesConcat(a + [junk], c, turnId);
      assert StormPrefix(whole, turnId, threshold, 0, n + 1);
    }
  }

  /** Noise and account notes do not even bring a storm closer; neither does any note behind the first own one. */
  lemma {:induction false} QuietJunkIsFree(a: seq<Note>, junk: Note, b: seq<Note>, turnId: string, threshold: int, stale: nat)
    requires !RoleOf(junk, turnId).Own?
    requires !RoleOf(junk, turnId).Foreign? || OwnNotes(a, turnId) != []
    ensures StormsFrom(a + [junk] + b, turnId, threshold, stale) == StormsFrom(a + b, turnId, threshold, stale)
  {
    if a == [] {
      assert a + [junk] + b == [junk] + b && ([junk] + b)[1..] == b && a + b == b;
    } else {
      assert (a + [junk] + b)[1..] == a[1..] + [junk] + b && (a + b)[1..] == a[1..] + b;
      var role := RoleOf(a[0], turnId);
      if !role.Own? {
        QuietJunkIsFree(a[1..], junk, b, turnId, threshold, if role.Foreign? then stale + 1 else stale);
      }
    }
  }

  // ---------- the turn loop ----------

  datatype Ending = Finished | QueueClosed | StaleStorm

  class CodexTurnSession {
    var rawCount: nat
    var staleRawCount: nat
    var noiseRawCount: nat

    constructor ()
      ensures rawCount == staleRawCount == noiseRawCount == 0
    {
      rawCount, staleRawCount, noiseRawCount := 0, 0, 0;
    }

    /**
      run_turn behind turn/start, with fresh diagnostics: `notes` is all the queue delivers before it is closed.
      Unless it is given up as stale, the turn ends exactly as its own first turn/completed says.
    */
    method RunTurn(notes: seq<Note>, turnId: string, threshold: int) returns (events: seq<ChatEvent>, ending: Ending)
      modifies this
      ensures ending.StaleStorm? <==> Storms(notes, turnId, threshold)
      ensures events == TurnEvents(notes, turnId, threshold)
      ensures ending.Finished? <==> events != [] && Closes(events[|events| - 1])
      ensures OwnCompletion(notes, turnId).Some? ==> OwnCompletion(notes, turnId).value.TurnCompleted?
      ensures !ending.StaleStorm? ==> EndAsTold(events, OwnCompletion(notes, turnId), "")
      ensures !ending.StaleStorm? ==> (ending.Finished? <==> OwnCompletion(notes, turnId).Some?)
    {
      hide Emitted, OwnNotes, StormsFrom, FirstCompletion, EndAsTold;
      events, ending := Receive(notes, turnId, threshold);
      ClosedByCompletion(OwnNotes(notes, turnId), "");
      ToldMeans(events, OwnCompletion(notes, turnId));
    }

    /** The loop over current_turn_notifications. */
    method Receive(notes: seq<Note>, turnId: string, threshold: int) returns (events: seq<ChatEvent>, ending: Ending)
      modifies this
      ensures ending.StaleStorm? <==> Storms(notes, turnId, threshold)
      ensures events == TurnEvents(notes, turnId, threshold)
      ensures ending.Finished? <==> events != [] && Closes(events[|events| - 1])
    {
      hide Translate, Emitted, OwnNotes, StormsFrom;
      assert notes[0..] == notes && Storms(notes, turnId, threshold) == StormsFrom(notes, turnId, threshold, 0);
      rawCount, staleRawCount, noiseRawCount := 0, 0, 0;
      events := [];
      var accumulated := "";
      var i := 0;
      while i < |notes|
        invariant 0 <= i <= |notes|
        invariant events + Emitted(OwnNotes(notes[i..], turnId), accumulated) == Emitted(OwnNotes(notes, turnId), "")
        invariant rawCount == 0 ==> events == []
        invariant Storms(notes, turnId, threshold) <==> rawCount == 0 && StormsFrom(notes[i..], turnId, threshold, staleRawCount)
        invariant events != [] ==> !Closes(events[|events| - 1])
      {
        var note := notes[i];
        NoteStep(notes, i, turnId, threshold, staleRawCount);
        i := i + 1;
        if note.body.RateLimitsUpdated? || note.body.TokenUsageUpdated? {
          continue;
        }
        if note.turnId.Some? && note.turnId.value != turnId {
          staleRawCount := staleRawCount + 1;
          if rawCount == 0 && staleRawCount >= threshold {
            return events, StaleStorm;
          }
          continue;
        }
        if note.turnId.None? && !note.body.TurnCompleted? && !IsItemNote(note.body) {
          noiseRawCount := noiseRawCount + 1;
          continue;
        }
        rawCount := rawCount + 1;
        var event := Translate(note.body, accumulated);
        EmittedStep(note, OwnNotes(notes[i..], turnId), accumulated);
        if event.Some? {
          if event.value.TokenEvent? {
            accumulated := accumulated + event.value.delta;
          } else {
            assert accumulated + TextOf(event.value) == accumulated;
          }
          ghost var rest := Emitted(OwnNotes(notes[i..], turnId), accumulated);
          Associative(events, [event.value], rest);
          events := events + [event.value];
          if Closes(event.value) {
            return events, Finished;
          }
        }
      }
      EmittedNothing(turnId, threshold, staleRawCount, accumulated);
      assert notes[i..] == [] && events + [] == events;
      ending := QueueClosed;
    }
  }

  lemma ToldMeans(events: seq<ChatEvent>, completion: Option<Body>)
    requires completion.Some? ==> completion.value.TurnCompleted?
    ensures EndAsTold(events, completion, "") ==> (completion.Some? <==> events != [] && Closes(events[|events| - 1]))
  {
    hide Text;
  }

  lemma EmittedNothing(turnId: string, threshold: int, stale: nat, accumulated: string)
    ensures Emitted(OwnNotes([], turnId), accumulated) == [] && !StormsFrom([], turnId, threshold, stale)
  {
  }

  lemma NoteStep(notes: seq<Note>, i: nat, turnId: string, threshold: int, stale: nat)
    requires i < |notes|
    ensures var role, rest := RoleOf(notes[i], turnId), notes[i + 1..];
      && OwnNotes(notes[i..], turnId) == (if role.Own? then [notes[i]] + OwnNotes(rest, turnId) else OwnNotes(rest, turnId))
      && StormsFrom(notes[i..], turnId, threshold, stale)
         == match role
            case Own => false
            case Foreign => threshold <= stale + 1 || StormsFrom(rest, turnId, threshold, stale + 1)
            case _ => StormsFrom(rest, turnId, threshold, stale)
  {
    assert notes[i..][0] == notes[i] && notes[i..][1..] == notes[i + 1..];
  }

  lemma EmittedStep(note: Note, rest: seq<Note>, accumulated: string)
    ensures var ev := Translate(note.body, accumulated);
      Emitted([note] + rest, accumulated)
        == if ev.None? then Emitted(rest, accumulated)
           else if Closes(ev.value) then [ev.value]
           else [ev.value] + Emitted(rest, accumulated + TextOf(ev.value))
  {
    assert ([note] + rest)[1..] == rest;
  }

  // ---------- a silent turn ----------

  datatype IdleDecision = HardCapExceeded | NeedsProbe | ExtendSilently

  /** decide_idle, in clock ticks. */
  function DecideIdle(now: int, startedAt: Option<int>, hasActiveItems: bool, lastProbe: Option<int>,
                      hardCap: int, probeInterval: int): IdleDecision
  {
    if startedAt.Some? && now - startedAt.value >= hardCap then HardCapExceeded
    else if !hasActiveItems then NeedsProbe
    else if lastProbe.None? then NeedsProbe
    else if now - lastProbe.value >= probeInterval then NeedsProbe
    else ExtendSilently
  }

  /** Consecutive probes lie at least `interval` apart. */
  ghost predicate Spaced(probes: seq<int>, interval: int) {
    forall i :: 0 < i < |probes| ==> interval <= probes[i] - probes[i - 1]
  }

  class IdleWatch {
    const idle: int
    const hardCap: int
    const probeInterval: int
    const startedAt: int
    var now: int
    var deadline: int
    var lastProbe: Option<int>
    var probes: seq<int>  // times at which on_idle was asked

    constructor (idle: int, hardCap: int, probeInterval: int, startedAt: int)
      ensures this.idle == idle && this.hardCap == hardCap && this.probeInterval == probeInterval && this.startedAt == startedAt
      ensures now == startedAt && deadline == startedAt + idle && lastProbe == None && probes == []
    {
      this.idle, this.hardCap, this.probeInterval, this.startedAt := idle, hardCap, probeInterval, startedAt;
      now, deadline, lastProbe, probes := startedAt, startedAt + idle, None, [];
    }

    ghost predicate ProbesOk(active: bool)
      reads this
    {
      && (probes != [] ==> lastProbe == Some(probes[|probes| - 1]))
      && (active ==> Spaced(probes, probeInterval))
    }

    /** Below the hard cap the callback is asked, unless items are active and it was asked less than an interval ago. */
    predicate Asks(active: bool, last: Option<int>)
      reads this`now
    {
      now - startedAt < hardCap && !(active && last.Some? && now - last.value < probeInterval)
    }

    /** True if the deadline was extended; an accepting on_idle extends it itself and takes no time. */
    method HandleIdle(active: bool, answer: Option<bool>) returns (extended: bool)
      requires ProbesOk(active)
      modifies this`deadline, this`lastProbe, this`probes
      ensures ProbesOk(active)
      ensures now - startedAt >= hardCap ==> !extended
      ensures !extended ==> now - startedAt >= hardCap || answer != Some(true)
      ensures deadline == if extended then now + idle else old(deadline)
      ensures probes == if Asks(active, old(lastProbe)) && answer.Some? then old(probes) + [now] else old(probes)
      ensures extended <==> now - startedAt < hardCap && (!Asks(active, old(lastProbe)) || answer == Some(true))
      ensures lastProbe == if Asks(active, old(lastProbe)) && answer.Some? then Some(now) else old(lastProbe)
    {
      var decision := DecideIdle(now, Some(startedAt), active, lastProbe, hardCap, probeInterval);
      if decision.HardCapExceeded? {
        return false;
      }
      if decision.NeedsProbe? {
        if answer.None? {
          return false;
        }
        lastProbe := Some(now);
        probes := probes + [now];
        if answer.value {
          deadline := now + idle;
        }
        return answer.value;
      }
      deadline := now + idle;
      return true;
    }

    /**
      _next_notification while no note arrives. `answers` is what on_idle says each time it could be asked (None
      if there is no callback), and each timed wait may end up to `lag` ticks late. The wait ends in a
      TimeoutError after finitely many extensions, at most one idle window and one lag past the hard cap.
    */
    method WaitSilently(active: bool, answers: nat -> Option<bool>, late: nat -> nat, lag: nat)
      returns (extensions: nat)
      requires ProbesOk(active) && 0 < idle && 0 < hardCap
      requires startedAt <= now && deadline <= now + idle
      requires forall k :: late(k) <= lag
      modifies this
      ensures ProbesOk(active)
      ensures now <= (if old(now) <= startedAt + hardCap then startedAt + hardCap else old(now)) + idle + lag
      ensures now - startedAt >= hardCap || exists k: nat :: answers(k) != Some(true)
      ensures extensions * idle <= startedAt + hardCap + idle - old(deadline) || extensions == 0
    {
      extensions := 0;
      var k: nat := 0;
      ghost var limit := if old(now) <= startedAt + hardCap then startedAt + hardCap else old(now);
      while true
        invariant ProbesOk(active)
        invariant deadline <= limit + idle && now <= limit
        invariant old(deadline) + extensions * idle <= deadline
        invariant extensions == 0 || deadline < startedAt + hardCap + idle
        invariant extensions == k
        decreases startedAt + hardCap + idle - deadline
      {
        if now < deadline {
          now := deadline + late(k);
        }
        ghost var before := deadline;
        var extended := HandleIdle(active, answers(k));
        if !extended {
          return;
        }
        assert before <= now;
        assert (extensions + 1) * idle == extensions * idle + idle;
        extensions, k := extensions + 1, k + 1;
      }
    }
  }
}
