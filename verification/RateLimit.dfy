/**
  The per-user turn limiter (services/rate_limit/service.py): a pruned and expiring sorted set of admission
  times, and a counter of turns in progress.  Times are whole clock ticks; TICKS of them make a second.
*/
module RateLimit {
  import opened KeyStore

  const TICKS := 1_000_000
  const WINDOW := 3600 * TICKS
  const HOURLY_TTL := 2 * WINDOW
  const ACTIVE_TTL := 600 * TICKS

  datatype Verdict = Admitted | HourlyLimit | ActiveLimit

  // ---------- the sliding window ----------

  /** The hourly key: its members are their own scores; the key as a whole expires. */
  datatype Hourly = Hourly(members: set<int>, expiresAt: int)

  /** What Redis still has of the key at time `now`. */
  function Alive(h: Hourly, now: int): Hourly {
    if h.expiresAt <= now then Hourly({}, h.expiresAt) else h
  }

  /** ZREMRANGEBYSCORE key 0 (now - 3600 s) */
  function Pruned(h: Hourly, now: int): Hourly {
    h.(members := set m | m in h.members && !(0 <= m <= now - WINDOW))
  }

  /** The admissions that the hourly limit counts at `now`. */
  function Recent(log: seq<int>, now: int): set<int> {
    set i | 0 <= i < |log| && now - WINDOW < log[i] :: log[i]
  }

  ghost predicate Increasing(log: seq<int>) {
    forall i, j :: 0 <= i < j < |log| ==> log[i] < log[j]
  }

  /** The log of admissions made under an hourly limit: in order of time, up to `now`. */
  ghost predicate IsLog(log: seq<int>, now: int) {
    && (forall i :: 0 <= i < |log| ==> 0 <= log[i] <= now)
    && (forall i, j :: 0 <= i < j < |log| ==> log[i] <= log[j])
  }

  /**
    The stored set agrees with the full log on the last hour, keeps nothing that was not admitted, and lives
    until no entry can matter any more.
  */
  ghost predicate Agrees(h: Hourly, log: seq<int>, now: int) {
    && (forall i :: 0 <= i < |log| && now - WINDOW < log[i] ==> log[i] in h.members)
    && (forall m :: m in h.members ==> m in log)
    && (log != [] ==> h.expiresAt == log[|log| - 1] + HOURLY_TTL)
  }

  /** Neither expiry nor pruning ever drops an admission of the last hour, and together they leave nothing else. */
  lemma PruneIsExact(h: Hourly, log: seq<int>, since: int, now: int)
    requires IsLog(log, since) && Agrees(h, log, since) && since <= now
    ensures Pruned(Alive(h, now), now).members == Recent(log, now)
    ensures Agrees(Pruned(Alive(h, now), now), log, now) && IsLog(log, now)
  {
    var p := Pruned(Alive(h, now), now);
    forall i | 0 <= i < |log| && now - WINDOW < log[i] ensures log[i] in p.members {
      assert log[i] <= log[|log| - 1];
    }
    forall m | m in p.members ensures m in Recent(log, now) {
    }
  }

  /** Recent(log, now) in order: the tail of the log. */
  function Tail(log: seq<int>, now: int): seq<int> {
    if log == [] || log[|log| - 1] <= now - WINDOW then []
    else Tail(log[..|log| - 1], now) + [log[|log| - 1]]
  }

  /** How many admissions lie in the last hour. */
  function Count(log: seq<int>, now: int): nat {
    |Tail(log, now)|
  }

  lemma RecentSnoc(init: seq<int>, last: int, now: int)
    ensures Recent(init + [last], now) == Recent(init, now) + if now - WINDOW < last then {last} else {}
  {
    var log := init + [last];
    assert log[|init|] == last;
    forall m ensures m in Recent(log, now) <==> m in Recent(init, now) || (m == last && now - WINDOW < last) {
      if m in Recent(log, now) {
        var i :| 0 <= i < |log| && now - WINDOW < log[i] && log[i] == m;
        assert i < |init| ==> init[i] == m;
      }
      if m in Recent(init, now) {
        var i :| 0 <= i < |init| && now - WINDOW < init[i] && init[i] == m;
        assert log[i] == m;
      }
    }
  }

  /** In increasing order nothing of the last hour lies in front of an older entry, and nothing comes twice. */
  lemma NoneRecent(log: seq<int>, now: int)
    requires Increasing(log) && log != [] && log[|log| - 1] <= now - WINDOW
    ensures Recent(log, now) == {}
  {
  }

  lemma {:induction false} RecentIsTail(log: seq<int>, now: int)
    requires Increasing(log)
    ensures |Recent(log, now)| == Count(log, now)
  {
    if log == [] {
    } else if log[|log| - 1] <= now - WINDOW {
      NoneRecent(log, now);
    } else {
      var init, last := log[..|log| - 1], log[|log| - 1];
      assert Increasing(init) && last !in Recent(init, now);
      hide Recent;
      RecentIsTail(init, now);
      assert log == init + [last];
      RecentSnoc(init, last, now);
    }
  }

  lemma AliveAgrees(h: Hourly, log: seq<int>, since: int, now: int)
    requires IsLog(log, since) && Agrees(h, log, since) && since <= now
    ensures Agrees(Alive(h, now), log, now) && IsLog(log, now)
  {
    forall i | 0 <= i < |log| && now - WINDOW < log[i] ensures log[i] in Alive(h, now).members {
      assert log[i] <= log[|log| - 1];
    }
  }

  /** ZADD key now now; EXPIRE key 7200 */
  function Added(h: Hourly, now: int): Hourly {
    Hourly(h.members + {now}, now + HOURLY_TTL)
  }

  lemma AdmissionAgrees(h: Hourly, log: seq<int>, since: int, now: int)
    requires IsLog(log, since) && since <= now && 0 <= now && Agrees(h, log, now)
    ensures IsLog(log + [now], now) && Agrees(Added(h, now), log + [now], now)
    ensures Count(log + [now], now) == Count(log, now) + 1
  {
    assert (log + [now])[..|log|] == log;
  }

  // ---------- the active counter ----------

  /** The counter key: DECR and INCR create it, an INCR to 1 gives it ten minutes to live. */
  datatype Counter = Counter(value: Option<int>, expiresAt: Option<int>)

  const ABSENT := Counter(None, None)

  function Value(c: Counter): int {
    if c.value.Some? then c.value.value else 0
  }

  /** One atomic command on the counter. */
  datatype CounterOp =
    | Reserve(limit: int, now: int)
    | Decr(genuine: bool)  // a release's first command; a worker run twice may send one too many
    | Del                  // a release's second command
    | Expires

  /** The counter, and how many reservations have not ended. */
  datatype Ledger = Ledger(counter: Counter, outstanding: nat)

  predicate Refused(l: Ledger, limit: int) {
    0 < limit < Value(l.counter) + 1
  }

  function Step(l: Ledger, op: CounterOp): Ledger {
    match op
    case Reserve(limit, now) =>
      var n := Value(l.counter) + 1;
      var expiresAt := if n == 1 then Some(now + ACTIVE_TTL) else l.counter.expiresAt;
      if Refused(l, limit) then Ledger(Counter(Some(n - 1), expiresAt), l.outstanding)
      else Ledger(Counter(Some(n), expiresAt), l.outstanding + 1)
    case Decr(genuine) =>
      Ledger(l.counter.(value := Some(Value(l.counter) - 1)),
             if genuine && 0 < l.outstanding then l.outstanding - 1 else l.outstanding)
    case Del => l.(counter := ABSENT)
    case Expires => l.(counter := ABSENT)
  }

  function RunCounter(l: Ledger, ops: seq<CounterOp>): Ledger
    decreases |ops|
  {
    if ops == [] then l else RunCounter(Step(l, ops[0]), ops[1..])
  }

  /**
    In every interleaving of reservations, split releases, duplicate releases and expiries the counter never
    exceeds what is outstanding, so a refusal for `active` means that at least the limit are outstanding.
  */
  lemma {:induction false} NeverOverCounts(l: Ledger, ops: seq<CounterOp>, limit: int)
    requires Value(l.counter) <= l.outstanding
    ensures var l' := RunCounter(l, ops);
      && Value(l'.counter) <= l'.outstanding
      && (Refused(l', limit) ==> limit <= l'.outstanding)
    decreases |ops|
  {
    if ops != [] {
      NeverOverCounts(Step(l, ops[0]), ops[1..], limit);
    }
  }

  predicate Exact(l: Ledger) {
    Value(l.counter) == l.outstanding
  }

  /** After each command the counter says exactly what is outstanding. */
  ghost predicate ExactThroughout(l: Ledger, ops: seq<CounterOp>) {
    forall n :: 0 <= n <= |ops| ==> Exact(RunCounter(l, ops[..n]))
  }

  /** No expiry and no DEL while something is outstanding, and no DECR but by a reservation that ends. */
  ghost predicate Clean(l: Ledger, ops: seq<CounterOp>)
    decreases |ops|
  {
    ops == [] || (
      && (ops[0].Del? || ops[0].Expires? ==> l.outstanding == 0)
      && (ops[0].Decr? ==> ops[0].genuine && 0 < l.outstanding)
      && Clean(Step(l, ops[0]), ops[1..]))
  }

  lemma ExactStep(l: Ledger, ops: seq<CounterOp>)
    requires ops != []
    ensures ExactThroughout(l, ops) <==> Exact(l) && ExactThroughout(Step(l, ops[0]), ops[1..])
  {
    hide Step, Exact;
    assert ops[..0] == [] && RunCounter(l, []) == l;
    var l', rest := Step(l, ops[0]), ops[1..];
    forall n | 0 < n <= |ops| ensures RunCounter(l, ops[..n]) == RunCounter(l', rest[..n - 1]) {
      assert ops[..n][0] == ops[0] && ops[..n][1..] == rest[..n - 1];
    }
    if ExactThroughout(l, ops) {
      assert Exact(RunCounter(l, ops[..0]));
      forall n | 0 <= n <= |rest| ensures Exact(RunCounter(l', rest[..n])) {
        assert Exact(RunCounter(l, ops[..n + 1]));
      }
    }
    if Exact(l) && ExactThroughout(l', rest) {
      forall n | 0 <= n <= |ops| ensures Exact(RunCounter(l, ops[..n])) {
        if n > 0 {
          assert Exact(RunCounter(l', rest[..n - 1]));
        }
      }
    }
  }

  /** Exactly the clean runs keep the counter exact. */
  lemma {:induction false} ExactIffClean(l: Ledger, ops: seq<CounterOp>)
    requires Exact(l)
    ensures ExactThroughout(l, ops) <==> Clean(l, ops)
    decreases |ops|
  {
    if ops == [] {
      assert ops[..0] == [] && RunCounter(l, []) == l;
    } else {
      hide ExactThroughout;
      ExactStep(l, ops);
      var l' := Step(l, ops[0]);
      assert Exact(l') <==>
        (ops[0].Del? || ops[0].Expires? ==> l.outstanding == 0) && (ops[0].Decr? ==> ops[0].genuine && 0 < l.outstanding);
      if Exact(l') {
        ExactIffClean(l', ops[1..]);
      } else {
        NotExactAtOnce(l', ops[1..]);
      }
    }
  }

  lemma NotExactAtOnce(l: Ledger, ops: seq<CounterOp>)
    requires !Exact(l)
    ensures !ExactThroughout(l, ops)
  {
    assert ops[..0] == [] && RunCounter(l, []) == l;
    assert !Exact(RunCounter(l, ops[..0]));
  }

  lemma CountsExactly(l: Ledger, ops: seq<CounterOp>)
    requires Exact(l) && Clean(l, ops)
    ensures Exact(RunCounter(l, ops))
  {
    ExactIffClean(l, ops);
    assert ops[..|ops|] == ops;
  }

  /** The counter can say too little: a reservation between DECR and DEL is forgotten, and the limit can be exceeded. */
  lemma ReserveBetweenDecrAndDelIsForgotten(now: int)
    ensures var ops := [Reserve(1, now), Decr(true), Reserve(1, now), Del, Reserve(1, now)];
      var l := RunCounter(Ledger(ABSENT, 0), ops);
      l.outstanding == 2 && l.counter.value == Some(1) && !Clean(Ledger(ABSENT, 0), ops)
  {
    var reserve := Reserve(1, now);
    var l0 := Ledger(ABSENT, 0);
    var l1 := Step(l0, reserve);
    var l2 := Step(l1, Decr(true));
    var l3 := Step(l2, reserve);
    var l4 := Step(l3, Del);
    assert RunCounter(l4, [reserve]) == RunCounter(Step(l4, reserve), []);
    assert RunCounter(l3, [Del, reserve]) == RunCounter(l4, [reserve]);
    assert RunCounter(l2, [reserve, Del, reserve]) == RunCounter(l3, [Del, reserve]);
    assert RunCounter(l1, [Decr(true), reserve, Del, reserve]) == RunCounter(l2, [reserve, Del, reserve]);
    if Clean(l0, [reserve, Decr(true), reserve, Del, reserve]) {
      CountsExactly(l0, [reserve, Decr(true), reserve, Del, reserve]);
    }
  }

  /** What Redis still has of the counter at time `now`. */
  function Lapsed(l: Ledger, now: int): Ledger {
    if l.counter.expiresAt.Some? && l.counter.expiresAt.value <= now then Step(l, Expires) else l
  }

  /** A first reservation counts for ten minutes, and for no longer if nothing else happens to the counter. */
  lemma FirstReservationRunsOut(at: int, now: int, outstanding: nat, limit: int)
    ensures var l := Step(Ledger(ABSENT, outstanding), Reserve(limit, at));
      && l.outstanding == outstanding + 1
      && Value(Lapsed(l, now).counter) == (if now < at + 600 * TICKS then 1 else 0)
      && Lapsed(l, now).outstanding == l.outstanding
  {
  }

  // ---------- any hour ----------

  /** How the limiter fills its log under a constant limit: each admission found fewer than L in its last hour. */
  ghost predicate AdmittedUnder(log: seq<int>, limit: int) {
    forall i :: 0 <= i < |log| ==> Count(log[..i + 1], log[i]) <= limit
  }

  lemma AdmittedUnderSnoc(log: seq<int>, now: int, limit: int)
    requires Count(log + [now], now) <= limit
    ensures AdmittedUnder(log, limit) ==> AdmittedUnder(log + [now], limit)
  {
    var more := log + [now];
    assert more[..|more|] == more;
    if AdmittedUnder(log, limit) {
      forall i | 0 <= i < |more| ensures Count(more[..i + 1], more[i]) <= limit {
        if i < |log| {
          assert more[..i + 1] == log[..i + 1];
        }
      }
    }
  }

  function Between(log: seq<int>, from: int, to: int): seq<int> {
    if log == [] then []
    else
      var last := log[|log| - 1];
      Between(log[..|log| - 1], from, to) + (if from < last <= to then [last] else [])
  }

  /** Under a constant limit no half-open hour (from, from + 3600 s] ever holds more admissions than the limit. */
  lemma {:induction false} AnyHourWithinLimit(log: seq<int>, limit: int, from: int)
    requires Increasing(log)
    requires AdmittedUnder(log, limit) && 0 <= limit
    ensures |Between(log, from, from + WINDOW)| <= limit
  {
    if log != [] {
      var init, last := log[..|log| - 1], log[|log| - 1];
      if from < last <= from + WINDOW {
        BetweenWithinTail(log, from, last);
        assert log[..|log|] == log;
        assert Count(log[..|log| - 1 + 1], log[|log| - 1]) <= limit;
      } else {
        forall i | 0 <= i < |init| ensures Count(init[..i + 1], init[i]) <= limit {
          assert init[..i + 1] == log[..i + 1];
        }
        AnyHourWithinLimit(init, limit, from);
      }
    }
  }

  /** The admissions of an hour whose last admission was made at `t` all lie in the hour that ends at `t`. */
  lemma {:induction false} BetweenWithinTail(log: seq<int>, from: int, t: int)
    requires Increasing(log)
    requires log != [] ==> log[|log| - 1] <= t
    requires t <= from + WINDOW
    ensures |Between(log, from, from + WINDOW)| <= Count(log, t)
  {
    if log != [] {
      var init, last := log[..|log| - 1], log[|log| - 1];
      if last <= t - WINDOW {
        NothingBetween(log, from);
      } else {
        BetweenWithinTail(init, from, t);
      }
    }
  }

  lemma {:induction false} NothingBetween(log: seq<int>, from: int)
    requires forall i :: 0 <= i < |log| ==> log[i] <= from
    ensures Between(log, from, from + WINDOW) == []
  {
    if log != [] {
      NothingBetween(log[..|log| - 1], from);
    }
  }

  // ---------- a run of calls ----------

  /** A call of reserve_turn: when it comes, and whether the active counter leaves room for it. */
  datatype Call = Call(now: int, room: bool)

  /** The log behind a call under an hourly limit. */
  function Admit(log: seq<int>, limit: int, call: Call): seq<int> {
    if call.room && Count(log, call.now) < limit then log + [call.now] else log
  }

  function LogOf(calls: seq<Call>, limit: int): seq<int> {
    if calls == [] then [] else Admit(LogOf(calls[..|calls| - 1], limit), limit, calls[|calls| - 1])
  }

  ghost predicate InTurn(calls: seq<Call>) {
    forall i, j :: 0 <= i < j < |calls| ==> calls[i].now < calls[j].now
  }

  ghost predicate EndsBefore(log: seq<int>, now: int) {
    log == [] || log[|log| - 1] < now
  }

  lemma AdmitKeeps(log: seq<int>, limit: int, call: Call)
    requires Increasing(log) && AdmittedUnder(log, limit) && EndsBefore(log, call.now)
    ensures var more := Admit(log, limit, call);
      Increasing(more) && AdmittedUnder(more, limit) && forall later :: call.now < later ==> EndsBefore(more, later)
  {
    hide AdmittedUnder;
    assert (log + [call.now])[..|log|] == log;
    if call.room && Count(log, call.now) < limit {
      CountSnoc(log, call.now);
      AdmittedUnderSnoc(log, call.now, limit);
    }
  }

  lemma CountSnoc(log: seq<int>, now: int)
    ensures Count(log + [now], now) == Count(log, now) + 1
  {
    assert (log + [now])[..|log|] == log;
  }

  lemma {:induction false} LogOfCalls(calls: seq<Call>, limit: int)
    requires InTurn(calls) && 0 < limit
    ensures var log := LogOf(calls, limit); Increasing(log) && AdmittedUnder(log, limit)
    ensures forall later :: (calls == [] || calls[|calls| - 1].now < later) ==> EndsBefore(LogOf(calls, limit), later)
  {
    hide Increasing, AdmittedUnder, Admit, EndsBefore;
    if calls == [] {
      NothingAdmitted(limit);
    } else {
      var init, call := calls[..|calls| - 1], calls[|calls| - 1];
      LogOfCalls(init, limit);
      AdmitKeeps(LogOf(init, limit), limit, call);
    }
  }

  lemma NothingAdmitted(limit: int)
    ensures Increasing([]) && AdmittedUnder([], limit) && forall later :: EndsBefore([], later)
  {
  }

  /** Over any run of calls at increasing times, under a constant limit, no hour ever holds more admissions than the limit. */
  lemma RunWithinLimit(calls: seq<Call>, limit: int, from: int)
    requires InTurn(calls) && 0 < limit
    ensures |Between(LogOf(calls, limit), from, from + 3600 * TICKS)| <= limit
  {
    LogOfCalls(calls, limit);
    AnyHourWithinLimit(LogOf(calls, limit), limit, from);
  }

  // ---------- the limiter ----------

  class Limiter {
    var hourly: Hourly
    var active: Counter
    var outstanding: nat     // reservations that have not ended; nothing of it is stored
    ghost var log: seq<int>  // every admission under an hourly limit
    ghost var lastCall: int
    ghost var timely: bool   // no call so far came at an earlier time than the one before

    /** As long as the clock does not run back the hourly set agrees with the full log; the counter never says too much. */
    ghost predicate Valid()
      reads this
    {
      && (timely ==> IsLog(log, lastCall) && Agrees(hourly, log, lastCall))
      && Value(active) <= outstanding
    }

    function Tally(): Ledger
      reads this`active, this`outstanding
    {
      Ledger(active, outstanding)
    }

    constructor ()
      ensures Valid() && log == [] && Tally() == Ledger(ABSENT, 0) && lastCall == -1 && timely
    {
      hourly, active, outstanding := Hourly({}, 0), ABSENT, 0;
      log, lastCall, timely := [], -1, true;
    }

    method Incr(now: int) returns (n: int)
      modifies this`active
      ensures n == Value(old(active)) + 1 && active.value == Some(n)
      ensures active.expiresAt == if n == 1 then Some(now + ACTIVE_TTL) else old(active).expiresAt
    {
      n := Value(active) + 1;
      active := active.(value := Some(n));
      if n == 1 {
        active := active.(expiresAt := Some(now + ACTIVE_TTL));
      }
    }

    /** The script's INCR, and the DECR that takes it back if the limit is exceeded. */
    method ReserveActive(now: int, limit: int) returns (ok: bool)
      requires Value(active) <= outstanding
      modifies this`active, this`outstanding
      ensures Tally() == Step(Lapsed(old(Tally()), now), Reserve(limit, now)) && Value(active) <= outstanding
      ensures ok <==> !Refused(Lapsed(old(Tally()), now), limit)
      ensures !ok ==> limit <= outstanding
    {
      active := Lapsed(Tally(), now).counter;
      var n := Incr(now);
      ok := limit <= 0 || n <= limit;
      if ok {
        outstanding := outstanding + 1;
      } else {
        active := active.(value := Some(n - 1));
      }
    }

    /**
      The Lua script, with whatever limits hold at the time. A turn is refused for `hourly` exactly if the
      hourly limit L is set and the pruned set holds L times or more; while the clock has not run back these are
      exactly the admission times of the last hour. Otherwise it is refused for `active` exactly if that limit
      is set and the counter has reached it, and then indeed so many turns are outstanding.
    */
    method ReserveTurn(now: int, hourlyLimit: int, activeLimit: int) returns (v: Verdict)
      requires Valid()
      modifies this
      ensures Valid() && lastCall == now
      ensures timely <==> old(timely) && old(lastCall) <= now && 0 <= now
      ensures v.HourlyLimit? <==> 0 < hourlyLimit <= |Pruned(Alive(old(hourly), now), now).members|
      ensures timely ==> Pruned(Alive(old(hourly), now), now).members == Recent(old(log), now)
      ensures v.HourlyLimit? ==> Tally() == old(Tally())
      ensures v.ActiveLimit? <==> !v.HourlyLimit? && Refused(Lapsed(old(Tally()), now), activeLimit)
      ensures v.ActiveLimit? ==> activeLimit <= outstanding
      ensures !v.HourlyLimit? ==> Tally() == Step(Lapsed(old(Tally()), now), Reserve(activeLimit, now))
      ensures log == if v.Admitted? && 0 < hourlyLimit then old(log) + [now] else old(log)
      // Admissions at increasing times: the limit counts them, and the log grows as in a run of calls.
      ensures timely && Increasing(old(log)) ==> (v.HourlyLimit? <==> 0 < hourlyLimit <= Count(old(log), now))
      ensures timely && Increasing(old(log)) && 0 < hourlyLimit ==>
                log == Admit(old(log), hourlyLimit, Call(now, !Refused(Lapsed(old(Tally()), now), activeLimit)))
      ensures timely && Increasing(old(log)) && old(lastCall) < now && (0 < hourlyLimit ==> AdmittedUnder(old(log), hourlyLimit)) ==>
                Increasing(log) && (0 < hourlyLimit ==> AdmittedUnder(log, hourlyLimit))
    {
      hide Agrees, IsLog, Recent, Count, Pruned, Alive, Increasing, Step, Lapsed, Refused, Added, AdmittedUnder, EndsBefore;
      ghost var before := lastCall;
      timely := timely && lastCall <= now && 0 <= now;
      if timely {
        PruneIsExact(hourly, log, lastCall, now);
        AliveAgrees(hourly, log, lastCall, now);
        if Increasing(log) {
          RecentIsTail(log, now);
          if before < now && AdmittedUnder(log, hourlyLimit) {
            LogEndsBefore(log, before, now);
            AdmitKeeps(log, hourlyLimit, Call(now, true));
          }
        }
      }
      lastCall := now;
      if hourlyLimit > 0 {
        hourly := Pruned(Alive(hourly, now), now);
        if |hourly.members| >= hourlyLimit {
          return HourlyLimit;
        }
      } else {
        hourly := Alive(hourly, now);
      }
      var ok := ReserveActive(now, activeLimit);
      if !ok {
        return ActiveLimit;
      }
      if hourlyLimit > 0 {
        if timely {
          AdmissionAgrees(hourly, log, before, now);
        }
        hourly := Added(hourly, now);
        log := log + [now];
      }
      return Admitted;
    }

    /**
      release_turn: DECR and then, not atomically, DEL if the DECR found nothing left; `meanwhile` is what others
      do to the counter in between, and `genuine` tells whether this release ends a reservation. Undisturbed, a
      genuine release keeps an exact counter exact.
    */
    method ReleaseTurn(now: int, genuine: bool, meanwhile: seq<CounterOp>)
      requires Valid()
      modifies this`active, this`outstanding
      ensures Valid()
      ensures var decremented := Step(Lapsed(old(Tally()), now), Decr(genuine));
        Tally() == (if Value(decremented.counter) <= 0 then Step(RunCounter(decremented, meanwhile), Del)
                    else RunCounter(decremented, meanwhile))
      ensures genuine && meanwhile == [] && Exact(old(Tally())) && Lapsed(old(Tally()), now) == old(Tally()) && 0 < old(outstanding) ==>
                Exact(Tally()) && outstanding == old(outstanding) - 1
    {
      hide Agrees, IsLog;
      active := Lapsed(Tally(), now).counter;
      var remaining := Value(active) - 1;
      active := active.(value := Some(remaining));
      if genuine && 0 < outstanding {
        outstanding := outstanding - 1;
      }
      NeverOverCounts(Tally(), meanwhile, 1);
      var others := RunCounter(Tally(), meanwhile);
      active, outstanding := others.counter, others.outstanding;
      if remaining <= 0 {
        active := ABSENT;
      }
    }
  }

  lemma LogEndsBefore(log: seq<int>, since: int, now: int)
    requires IsLog(log, since) && since < now
    ensures EndsBefore(log, now)
  {
  }
}
