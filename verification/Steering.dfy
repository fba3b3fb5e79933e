/**
  Steering a running turn (rpc/chat/service.py, services/codex/codex_remote.py, rpc/chat/stream.py): a steer
  first stores the user's message and then bumps the turn's counter; the stream looks at the counter and cuts
  what it has into a partial row.  Steers, looks, cuts and the counter's expiry interleave in any order.
*/
module Steering {
  datatype SteerPc = Storing | Bumping(message: nat) | Done

  /** The stream between its look at the counter and the row it may then insert; a broken-off stream is over. */
  datatype StreamPc = Idle | Cutting | Over

  /** Why a partial row was written: at a steer boundary, or by _persist_visible_partial when the stream broke off. */
  datatype Reason = Boundary | BreakOff

  /** A partial row, with seen_steer_count at the time and the user messages behind all counts looked at before. */
  datatype Partial = Partial(id: nat, reason: Reason, level: nat, counted: seq<nat>)

  datatype State = State(
    nextId: nat,                   // sequence of messages.id
    steers: map<nat, SteerPc>,
    counted: seq<nat>,             // codex:steer-count, as the messages behind its bumps
    bumps: nat,                    // all bumps ever
    seen: nat,                     // seen_steer_count
    stream: StreamPc,
    looked: seq<nat>,              // the messages behind every count the stream has looked at
    rises: seq<nat>,               // the counts at which a look found a rise
    partials: seq<Partial>)

  datatype Action =
    | Arrive(steer: nat)           // the sidecar accepted a steer
    | Advance(steer: nat)          // its next step: store the message, then bump the counter
    | Expire                       // the counter's time to live ran out
    | Look                         // peek_steer_count
    | PeekFails                    // a Redis error reads as 0
    | Insert(hasText: bool)        // persist_segment; without new text no row is cut
    | Break(hasMore: bool)         // persist_visible_partial, and the stream is over
    | OtherRow                     // any other message of any chat

  const INIT := State(1, map[], [], 0, 0, Idle, [], [], [])

  function Next(s: State, a: Action): State {
    match a
    case Arrive(p) => if p in s.steers then s else s.(steers := s.steers[p := Storing])
    case Advance(p) =>
      if p !in s.steers then s
      else (
        match s.steers[p]
        case Storing => s.(steers := s.steers[p := Bumping(s.nextId)], nextId := s.nextId + 1)
        case Bumping(m) => s.(steers := s.steers[p := Done], counted := s.counted + [m], bumps := s.bumps + 1)
        case Done => s)
    case Expire => s.(counted := [])
    case Look =>
      if !s.stream.Idle? then s
      else if |s.counted| <= s.seen then s.(looked := s.looked + s.counted)
      else s.(looked := s.looked + s.counted, seen := |s.counted|, rises := s.rises + [|s.counted|], stream := Cutting)
    case PeekFails => s
    case Insert(hasText) =>
      if !s.stream.Cutting? then s
      else if hasText then Written(s, Boundary).(stream := Idle)
      else s.(stream := Idle)
    case Break(hasMore) =>
      if s.stream.Over? then s
      else if hasMore then Written(s, BreakOff).(stream := Over)
      else s.(stream := Over)
    case OtherRow => s.(nextId := s.nextId + 1)
  }

  /** A partial row goes in. */
  function Written(s: State, reason: Reason): State {
    s.(partials := s.partials + [Partial(s.nextId, reason, s.seen, s.looked)], nextId := s.nextId + 1)
  }

  function Play(s: State, acts: seq<Action>): State
    decreases |acts|
  {
    if acts == [] then s else Play(Next(s, acts[0]), acts[1..])
  }

  predicate AllBelow(ids: seq<nat>, bound: nat) {
    forall i :: 0 <= i < |ids| ==> ids[i] < bound
  }

  predicate Increasing(xs: seq<nat>) {
    forall i, j :: 0 <= i < j < |xs| ==> xs[i] < xs[j]
  }

  function Boundaries(rows: seq<Partial>): nat {
    if rows == [] then 0
    else Boundaries(rows[..|rows| - 1]) + if rows[|rows| - 1].reason.Boundary? then 1 else 0
  }

  /** Message numbers: whatever is stored, counted or looked at was numbered before. */
  ghost predicate NumbersOk(s: State) {
    && AllBelow(s.counted, s.nextId) && AllBelow(s.looked, s.nextId)
    && (forall p :: p in s.steers && s.steers[p].Bumping? ==> s.steers[p].message < s.nextId)
    && (forall i :: 0 <= i < |s.partials| ==> s.partials[i].id < s.nextId && AllBelow(s.partials[i].counted, s.partials[i].id))
    && (forall i, j :: 0 <= i < j < |s.partials| ==> s.partials[i].id < s.partials[j].id)
  }

  /** The counter: every rise goes above all rises before it, and what was seen is the last of them. */
  ghost predicate RisesOk(s: State) {
    && |s.counted| <= s.bumps && s.seen <= s.bumps
    && Increasing(s.rises)
    && s.seen == (if s.rises == [] then 0 else s.rises[|s.rises| - 1])
    && (forall i :: 0 <= i < |s.rises| ==> 0 < s.rises[i] <= s.seen)
  }

  /** The rows: each boundary row belongs to a rise of its own, and only the last row can be one of a break. */
  ghost predicate RowsOk(s: State) {
    && (forall i :: 0 <= i < |s.partials| ==> s.partials[i].level <= s.seen)
    && (forall i :: 0 <= i < |s.partials| && s.partials[i].reason.Boundary? ==> s.partials[i].level in s.rises)
    && (forall i, j :: 0 <= i < j < |s.partials| && s.partials[j].reason.Boundary? ==> s.partials[i].level < s.partials[j].level)
    && (forall i :: 0 <= i < |s.partials| && s.partials[i].reason.BreakOff? ==> i == |s.partials| - 1 && s.stream.Over?)
    && Boundaries(s.partials) + (if s.stream.Cutting? then 1 else 0) <= |s.rises|
    && (s.stream.Cutting? ==> s.rises != [] && forall i :: 0 <= i < |s.partials| ==> s.partials[i].level < s.seen)
  }

  ghost predicate Inv(s: State) {
    NumbersOk(s) && RisesOk(s) && RowsOk(s)
  }

  lemma NextKeepsInv(s: State, a: Action)
    requires Inv(s)
    ensures Inv(Next(s, a))
  {
    NextKeepsNumbers(s, a);
    NextKeepsRises(s, a);
    NextKeepsRows(s, a);
  }

  lemma NextKeepsNumbers(s: State, a: Action)
    requires NumbersOk(s)
    ensures NumbersOk(Next(s, a))
  {
  }

  lemma NextKeepsRises(s: State, a: Action)
    requires RisesOk(s)
    ensures RisesOk(Next(s, a))
  {
  }

  lemma NextKeepsRows(s: State, a: Action)
    requires RisesOk(s) && RowsOk(s)
    ensures RowsOk(Next(s, a))
  {
    hide Boundaries, Increasing;
    if a.Look? && s.stream.Idle? && |s.counted| > s.seen {
      RiseKeepsRows(s);
    } else if a.Insert? && a.hasText && s.stream.Cutting? {
      RowWritten(s, Boundary, Idle);
    } else if a.Break? && a.hasMore && !s.stream.Over? {
      RowWritten(s, BreakOff, Over);
    }
  }

  lemma RiseKeepsRows(s: State)
    requires RisesOk(s) && RowsOk(s) && s.stream.Idle? && |s.counted| > s.seen
    ensures RowsOk(Next(s, Look))
  {
    hide Boundaries, Increasing;
    assert forall r :: r in s.rises ==> r in Next(s, Look).rises;
  }

  lemma BoundariesSnoc(rows: seq<Partial>, row: Partial)
    ensures Boundaries(rows + [row]) == Boundaries(rows) + if row.reason.Boundary? then 1 else 0
  {
    assert (rows + [row])[..|rows|] == rows;
  }

  lemma RowWritten(s: State, reason: Reason, pc: StreamPc)
    requires RisesOk(s) && RowsOk(s) && !s.stream.Over?
    requires if reason.Boundary? then s.stream.Cutting? && pc.Idle? else pc.Over?
    ensures RowsOk(Written(s, reason).(stream := pc))
  {
    hide Increasing, Boundaries;
    BoundariesSnoc(s.partials, Partial(s.nextId, reason, s.seen, s.looked));
  }

  lemma {:induction false} PlayKeepsInv(s: State, acts: seq<Action>)
    requires Inv(s)
    ensures Inv(Play(s, acts))
    decreases |acts|
  {
    if acts != [] {
      NextKeepsInv(s, acts[0]);
      PlayKeepsInv(Next(s, acts[0]), acts[1..]);
    }
  }

  /**
    Chronology, for boundary rows and for the row of a break: a partial row is younger than every user message
    counted in any value the stream looked at before, and the rows are written in increasing order.
  */
  lemma PartialsFollowSteers(acts: seq<Action>, i: nat, m: nat)
    requires i < |Play(INIT, acts).partials| && m in Play(INIT, acts).partials[i].counted
    ensures m < Play(INIT, acts).partials[i].id
    ensures forall j :: 0 <= j < i ==> Play(INIT, acts).partials[j].id < Play(INIT, acts).partials[i].id
  {
    PlayKeepsInv(INIT, acts);
  }

  /**
    Each rise of the counter cuts at most one row, even if the counter expires and starts again: a boundary row
    was written for one of the rises, no other row was written for that rise, and rises never exceed the bumps.
  */
  lemma OneCutPerRise(acts: seq<Action>, i: nat)
    requires var s := Play(INIT, acts); i < |s.partials| && s.partials[i].reason.Boundary?
    ensures var s := Play(INIT, acts);
      && s.partials[i].level in s.rises && 0 < s.partials[i].level <= s.bumps
      && (forall j :: 0 <= j < |s.partials| && j != i && s.partials[j].reason.Boundary? ==> s.partials[j].level != s.partials[i].level)
  {
    PlayKeepsInv(INIT, acts);
  }

  /** Over any run there are at most as many boundary rows as rises, and as many rises as steers. */
  lemma NoMoreCutsThanSteers(acts: seq<Action>)
    ensures var s := Play(INIT, acts); Boundaries(s.partials) <= |s.rises| <= s.bumps
  {
    PlayKeepsInv(INIT, acts);
    IncreasingIsShort(Play(INIT, acts).rises);
  }

  /** Strictly increasing positive numbers: there are at most as many as the last one says. */
  lemma {:induction false} IncreasingIsShort(xs: seq<nat>)
    requires Increasing(xs) && forall i :: 0 <= i < |xs| ==> 0 < xs[i]
    ensures xs != [] ==> |xs| <= xs[|xs| - 1]
  {
    if |xs| > 1 {
      IncreasingIsShort(xs[..|xs| - 1]);
    }
  }

  // ---------- what does happen ----------

  /** A steer stores its message first and bumps then, so that the count never runs ahead of the messages. */
  lemma SteerIsCounted(s: State, p: nat)
    requires p !in s.steers
    ensures var s1 := Next(Next(s, Arrive(p)), Advance(p));
      var s2 := Next(s1, Advance(p));
      && s1.nextId == s.nextId + 1 && s1.counted == s.counted
      && s2.counted == s.counted + [s.nextId] && s2.bumps == s.bumps + 1 && s2.nextId == s1.nextId
  {
  }

  /** A look that finds the counter risen, with new text, makes exactly one row, for that count and behind all it counts. */
  lemma RiseCutsOneRow(s: State)
    requires s.stream.Idle? && |s.counted| > s.seen
    ensures var s' := Next(Next(s, Look), Insert(true));
      && s'.stream.Idle? && s'.seen == |s.counted| && |s'.partials| == |s.partials| + 1 && s'.partials[..|s.partials|] == s.partials
      && var row := s'.partials[|s.partials|];
         row.id == s.nextId && row.reason.Boundary? && row.level == |s.counted| && forall m :: m in s.counted ==> m in row.counted
  {
  }

  /** A look that finds no rise makes none. */
  lemma NoRiseNoRow(s: State, hasText: bool)
    requires s.stream.Idle? && |s.counted| <= s.seen
    ensures Next(Next(s, Look), Insert(hasText)).partials == s.partials
  {
  }

  /** If the counter has run out after a rise that was seen, the next steer is counted from one again, and cuts nothing. */
  lemma ExpiryHidesSteer(s: State, p: nat)
    requires s.stream.Idle? && p !in s.steers && 0 < s.seen
    ensures var s1 := Next(Next(Next(Next(s, Expire), Arrive(p)), Advance(p)), Advance(p));
      && s1.bumps == s.bumps + 1 && s1.counted == [s.nextId]
      && Next(Next(s1, Look), Insert(true)).partials == s.partials
  {
  }

  /** A stream that breaks off with something outstanding leaves one more row, and none after it. */
  lemma BreakSavesRest(s: State, a: Action)
    requires !s.stream.Over?
    ensures var s' := Next(s, Break(true));
      && |s'.partials| == |s.partials| + 1 && s'.partials[..|s.partials|] == s.partials
      && s'.partials[|s.partials|].reason.BreakOff? && s'.partials[|s.partials|].id == s.nextId
      && Next(s', a).partials == s'.partials
  {
  }
}
