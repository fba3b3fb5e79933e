/**
  The web stream of one turn (app/rpc/chat/stream.py): chat events become client frames, with token deltas
  coalesced; steers cut the text so far into partial message rows; a successful end replaces those by one
  final row.
*/
module StreamTurn {
  import opened KeyStore
  import opened ChatEvents
  import opened PyText

  // ---------- frames ----------

  /** What message_to_pb says of a stored row. */
  datatype Stored = Stored(id: nat, text: string)

  datatype Frame =
    | TokenFrame(delta: string)
    | EventFrame(event: ChatEvent)                         // chat_event_to_pb of any other event
    | DoneFrame(finalText: string, message: Option<Stored>)
    | FailureFrame(code: string)                           // error_event

  /** What a client sees, without the way tokens were cut: single characters and whole other frames. */
  datatype Atom = Ch(c: char) | Other(frame: Frame)

  function Chars(s: string): seq<Atom> {
    seq(|s|, i requires 0 <= i < |s| => Ch(s[i]))
  }

  function AtomsOf(f: Frame): seq<Atom> {
    if f.TokenFrame? then Chars(f.delta) else [Other(f)]
  }

  function Flatten(frames: seq<Frame>): seq<Atom> {
    if frames == [] then [] else Flatten(frames[..|frames| - 1]) + AtomsOf(frames[|frames| - 1])
  }

  lemma {:induction false} FlattenConcat(a: seq<Frame>, b: seq<Frame>)
    ensures Flatten(a + b) == Flatten(a) + Flatten(b)
  {
    hide AtomsOf;
    if b == [] {
      assert a + b == a;
    } else {
      FlattenConcat(a, b[..|b| - 1]);
      assert (a + b)[..|a + b| - 1] == a + b[..|b| - 1];
      Associative(Flatten(a), Flatten(b[..|b| - 1]), AtomsOf(b[|b| - 1]));
    }
  }

  lemma FlattenSnoc(frames: seq<Frame>, f: Frame)
    ensures Flatten(frames + [f]) == Flatten(frames) + AtomsOf(f)
  {
    assert (frames + [f])[..|frames|] == frames;
  }

  lemma CharsConcat(a: string, b: string)
    ensures Chars(a + b) == Chars(a) + Chars(b)
  {
  }

  /** One frame per event: the stream as it would be without coalescing. The done event makes no frame of its own here. */
  function Plain(ev: ChatEvent): seq<Frame> {
    match ev
    case TokenEvent(delta) => [TokenFrame(delta)]
    case DoneEvent(_) => []
    case _ => [EventFrame(ev)]
  }

  function PlainFrames(events: seq<ChatEvent>): seq<Frame> {
    if events == [] then [] else PlainFrames(events[..|events| - 1]) + Plain(events[|events| - 1])
  }

  /** The events that a frame tells a client. */
  function ToldBy(f: Frame): seq<ChatEvent> {
    match f
    case TokenFrame(delta) => [TokenEvent(delta)]
    case EventFrame(ev) => [ev]
    case _ => []
  }

  function Told(frames: seq<Frame>): seq<ChatEvent> {
    if frames == [] then [] else Told(frames[..|frames| - 1]) + ToldBy(frames[|frames| - 1])
  }

  function Undone(events: seq<ChatEvent>): seq<ChatEvent> {
    if events == [] then []
    else
      var ev := events[|events| - 1];
      Undone(events[..|events| - 1]) + (if ev.DoneEvent? then [] else [ev])
  }

  /** The plain frames tell every event but done, in order, and nothing else. */
  lemma {:induction false} PlainFramesTell(events: seq<ChatEvent>)
    ensures Told(PlainFrames(events)) == Undone(events)
  {
    if events != [] {
      var init, ev := events[..|events| - 1], events[|events| - 1];
      PlainFramesTell(init);
      if ev.DoneEvent? {
        assert PlainFrames(events) == PlainFrames(init);
      } else {
        var frames := PlainFrames(events);
        assert frames[..|frames| - 1] == PlainFrames(init);
      }
    }
  }

  /** The text a client can put together from the token frames. */
  function StreamedText(frames: seq<Frame>): string {
    if frames == [] then ""
    else
      var f := frames[|frames| - 1];
      StreamedText(frames[..|frames| - 1]) + (if f.TokenFrame? then f.delta else "")
  }

  lemma StreamedSnoc(frames: seq<Frame>, f: Frame)
    ensures StreamedText(frames + [f]) == StreamedText(frames) + (if f.TokenFrame? then f.delta else "")
  {
    assert (frames + [f])[..|frames|] == frames;
  }

  /** The text the streamed frames alone give: the done frame's final text if it has any, else what was streamed. */
  function WireText(frames: seq<Frame>): string {
    if frames != [] && frames[|frames| - 1].DoneFrame? && frames[|frames| - 1].finalText != ""
    then frames[|frames| - 1].finalText
    else StreamedText(frames)
  }

  /** The text a client shows in the end: that of the message in the done frame, if it has any, else the above. */
  function ClientText(frames: seq<Frame>): string {
    if frames != [] && frames[|frames| - 1].DoneFrame?
       && frames[|frames| - 1].message.Some? && frames[|frames| - 1].message.value.text != ""
    then frames[|frames| - 1].message.value.text
    else WireText(frames)
  }

  /** final_text_for_done_frame: not sent again if the deltas already gave the same text. */
  function FinalTextForDoneFrame(finalText: string, streamed: string): string {
    if streamed != "" && finalText == streamed then "" else finalText
  }

  // ---------- held back text ----------

  /** The text that has been received but not yet sent, with coalescing up to `limit` bytes (0: off). */
  function Pending(events: seq<ChatEvent>, limit: int): string {
    if events == [] then ""
    else
      var ev := events[|events| - 1];
      if ev.TokenEvent? && 0 < limit then
        var held := Pending(events[..|events| - 1], limit) + ev.delta;
        if limit <= Utf8Size(held) then "" else held
      else ""
  }

  /** Less than `limit` bytes are ever held back. */
  lemma PendingIsSmall(events: seq<ChatEvent>, limit: int)
    ensures Pending(events, limit) != "" ==> Utf8Size(Pending(events, limit)) < limit
  {
  }

  predicate IsSuffix(held: string, text: string) {
    |held| <= |text| && text[|text| - |held|..] == held
  }

  lemma SuffixGrows(held: string, text: string, delta: string)
    requires IsSuffix(held, text)
    ensures IsSuffix(held + delta, text + delta)
  {
  }

  /** What is held back is the end of the text received. */
  lemma {:induction false} PendingIsSuffix(events: seq<ChatEvent>, limit: int)
    ensures IsSuffix(Pending(events, limit), Text(events))
  {
    hide Utf8Size;
    if events != [] {
      var init, ev := events[..|events| - 1], events[|events| - 1];
      PendingIsSuffix(init, limit);
      SuffixGrows(Pending(init, limit), Text(init), TextOf(ev));
    }
  }

  // ---------- the collector ----------

  predicate AnyDone(events: seq<ChatEvent>) {
    exists i :: 0 <= i < |events| && events[i].DoneEvent?
  }

  lemma AbsorbOne(absorbed: seq<ChatEvent>, ev: ChatEvent)
    ensures var more := absorbed + [ev];
      && Text(more) == Text(absorbed) + TextOf(ev)
      && Calls(more) == Calls(absorbed) + (if ev.ToolCallEvent? then [ev.call] else [])
      && Attachments(more) == Attachments(absorbed) + (if ev.ToolResultEvent? then ev.attachments else [])
      && (AnyDone(more) <==> AnyDone(absorbed) || ev.DoneEvent?)
  {
    var more := absorbed + [ev];
    assert more[..|absorbed|] == absorbed && more[|absorbed|] == ev;
    assert forall i :: 0 <= i < |absorbed| ==> more[i] == absorbed[i];
  }

  class StreamCollector {
    var buffer: string
    var toolCalls: seq<ToolCall>
    var attachments: seq<string>
    var finalText: string
    var doneSeen: bool
    ghost var absorbed: seq<ChatEvent>

    /** The collector holds exactly what the absorbed events say. */
    ghost predicate Valid()
      reads this
    {
      && buffer == Text(absorbed)
      && toolCalls == Calls(absorbed)
      && attachments == Attachments(absorbed)
      && (doneSeen <==> AnyDone(absorbed))
      && (!doneSeen ==> finalText == "")
      && (absorbed != [] && absorbed[|absorbed| - 1].DoneEvent? ==> finalText == absorbed[|absorbed| - 1].finalText)
    }

    constructor ()
      ensures Valid() && absorbed == []
    {
      buffer, toolCalls, attachments, finalText, doneSeen, absorbed := "", [], [], "", false, [];
    }

    method Absorb(ev: ChatEvent)
      requires Valid()
      modifies this
      ensures Valid() && absorbed == old(absorbed) + [ev]
    {
      hide Text, Calls, Attachments, AnyDone;
      AbsorbOne(absorbed, ev);
      absorbed := absorbed + [ev];
      match ev
      case TokenEvent(delta) => buffer := buffer + delta;
      case ToolCallEvent(call) => toolCalls := toolCalls + [call];
      case ToolResultEvent(_, _, files, _) => attachments := attachments + files;
      case DoneEvent(text) =>
        finalText, doneSeen := text, true;
      case ErrorEvent(_, _) =>
    }
  }

  // ---------- message rows ----------

  datatype Message = Message(text: string, calls: seq<ToolCall>, attachments: seq<string>, partial: bool)

  /** The chat's messages and the turn's assistant_message_id. */
  class MessageStore {
    var rows: map<nat, Message>
    var nextId: nat
    var assistant: Option<nat>

    ghost predicate Valid()
      reads this
    {
      forall id :: id in rows ==> id < nextId
    }

    constructor ()
      ensures Valid()
    {
      rows, nextId, assistant := map[], 1, None;
    }

    method Append(message: Message) returns (id: nat)
      requires Valid()
      modifies this`rows, this`nextId
      ensures Valid() && id == old(nextId) && nextId == id + 1
      ensures id !in old(rows) && rows == old(rows)[id := message]
    {
      id := nextId;
      nextId := nextId + 1;
      rows := rows[id := message];
    }
  }

  /** The texts of some rows, in order. */
  function TextsOf(rows: map<nat, Message>, ids: seq<nat>): string
    requires forall id :: id in ids ==> id in rows
  {
    if ids == [] then "" else TextsOf(rows, ids[..|ids| - 1]) + rows[ids[|ids| - 1]].text
  }

  function CallsOf(rows: map<nat, Message>, ids: seq<nat>): seq<ToolCall>
    requires forall id :: id in ids ==> id in rows
  {
    if ids == [] then [] else CallsOf(rows, ids[..|ids| - 1]) + rows[ids[|ids| - 1]].calls
  }

  /** A new row behind the others adds its text and calls at the end. */
  lemma {:induction false} RowsKept(rows: map<nat, Message>, more: map<nat, Message>, ids: seq<nat>)
    requires forall id :: id in ids ==> id in rows && id in more && more[id] == rows[id]
    ensures TextsOf(more, ids) == TextsOf(rows, ids) && CallsOf(more, ids) == CallsOf(rows, ids)
  {
    if ids != [] {
      RowsKept(rows, more, ids[..|ids| - 1]);
    }
  }

  lemma RowAdded(rows: map<nat, Message>, ids: seq<nat>, id: nat, m: Message)
    requires id !in rows && forall i :: i in ids ==> i in rows
    ensures TextsOf(rows[id := m], ids + [id]) == TextsOf(rows, ids) + m.text
    ensures CallsOf(rows[id := m], ids + [id]) == CallsOf(rows, ids) + m.calls
  {
    RowsKept(rows, rows[id := m], ids);
    assert (ids + [id])[..|ids|] == ids;
  }

  function Without(rows: map<nat, Message>, ids: seq<nat>): map<nat, Message> {
    map id | id in rows && id !in ids :: rows[id]
  }

  // ---------- segments ----------

  class StreamState {
    const collector: StreamCollector
    const store: MessageStore
    var segmentBufferOffset: nat
    var segmentToolCount: nat
    var seenSteerCount: nat
    var partialMsgIds: seq<nat>
    ghost const before: map<nat, Message>  // the rows that were there when the turn began
    var checks: nat                        // how often the steer counter was looked at

    /** What holds even between the commit of a row and its bookkeeping. */
    ghost predicate Ready()
      reads this, collector, store
    {
      && collector.Valid()
      && store.Valid()
      && segmentBufferOffset <= |collector.buffer|
      && segmentToolCount <= |collector.toolCalls|
    }

    /** The turn's partial rows are the known ones, and hold exactly what lies in front of the last cut. */
    ghost predicate Valid()
      reads this, collector, store
    {
      && Ready()
      && SegmentsOk(before, store.rows, partialMsgIds,
                    collector.buffer[..segmentBufferOffset], collector.toolCalls[..segmentToolCount])
    }

    /** A row with everything outstanding is committed as `id`, but neither known nor cut off yet. */
    ghost predicate Unnoted(id: nat)
      reads this, collector, store
    {
      Ready() && SegmentsOk(before, store.rows, partialMsgIds + [id], collector.buffer, collector.toolCalls)
    }

    constructor (store: MessageStore)
      requires store.Valid()
      ensures Valid() && fresh(collector) && this.store == store && before == store.rows
      ensures partialMsgIds == [] && segmentBufferOffset == segmentToolCount == 0 && seenSteerCount == checks == 0
      ensures collector.absorbed == []
    {
      this.store := store;
      before := store.rows;
      segmentBufferOffset, segmentToolCount, seenSteerCount, partialMsgIds, checks := 0, 0, 0, [], 0;
      collector := new StreamCollector();
    }

    method CutSegment()
      modifies this`segmentBufferOffset, this`segmentToolCount
      ensures segmentBufferOffset == |collector.buffer| && segmentToolCount == |collector.toolCalls|
    {
      segmentBufferOffset, segmentToolCount := |collector.buffer|, |collector.toolCalls|;
    }

    ghost function TextDelta(): string
      requires segmentBufferOffset <= |collector.buffer|
      reads this, collector
    {
      collector.buffer[segmentBufferOffset..]
    }

    ghost function ToolsDelta(): seq<ToolCall>
      requires segmentToolCount <= |collector.toolCalls|
      reads this, collector
    {
      collector.toolCalls[segmentToolCount..]
    }

    /** _persist_assistant_turn up to its commit: everything outstanding goes into a partial row. */
    method CommitDelta() returns (id: nat)
      requires Ready()
      modifies store`rows, store`nextId
      ensures Ready() && id == old(store.nextId)
      ensures id !in old(store.rows) && (forall other :: other in old(store.rows) ==> other < id)
      ensures store.rows == old(store.rows)[id := Message(TextDelta(), ToolsDelta(), [], true)]
      ensures old(Valid()) ==> Unnoted(id)
    {
      hide Text, Calls, Attachments, SegmentsOk;
      ghost var text, calls := collector.buffer[..segmentBufferOffset], collector.toolCalls[..segmentToolCount];
      var m := Message(collector.buffer[segmentBufferOffset..], collector.toolCalls[segmentToolCount..], [], true);
      if Valid() {
        SegmentAdded(before, store.rows, partialMsgIds, text, calls, store.nextId, m);
      }
      id := store.Append(m);
      assert text + m.text == collector.buffer && calls + m.calls == collector.toolCalls;
    }

    /** What follows behind it: the row becomes known, and everything counts as cut off. */
    method NoteDelta(id: nat)
      requires Ready()
      modifies this`segmentBufferOffset, this`segmentToolCount, this`partialMsgIds
      ensures Ready() && partialMsgIds == old(partialMsgIds) + [id]
      ensures segmentBufferOffset == |collector.buffer| && segmentToolCount == |collector.toolCalls|
      ensures old(Unnoted(id)) ==> Valid()
    {
      hide Text, Calls, Attachments, SegmentsOk;
      partialMsgIds := partialMsgIds + [id];
      CutSegment();
      assert collector.buffer[..segmentBufferOffset] == collector.buffer;
      assert collector.toolCalls[..segmentToolCount] == collector.toolCalls;
    }

    /** Both steps, undisturbed: everything not yet in a row becomes one partial row; then nothing is outstanding. */
    method PersistDelta()
      requires Ready()
      modifies this`segmentBufferOffset, this`segmentToolCount, this`partialMsgIds, store`rows, store`nextId
      ensures Ready() && (old(Valid()) ==> Valid())
      ensures partialMsgIds == old(partialMsgIds) + [old(store.nextId)]
      ensures store.rows == old(store.rows)[old(store.nextId) := Message(old(TextDelta()), old(ToolsDelta()), [], true)]
      ensures segmentBufferOffset == |collector.buffer| && segmentToolCount == |collector.toolCalls|
    {
      hide Text, Calls, Attachments, SegmentsOk;
      var id := CommitDelta();
      NoteDelta(id);
    }

    /** A steer boundary: a row is cut unless there is no new text; tools alone wait for the next text. */
    method PersistSegment()
      requires Valid()
      modifies this`segmentBufferOffset, this`segmentToolCount, this`partialMsgIds, store`rows, store`nextId
      ensures Valid()
      ensures old(TextDelta()) == "" ==> store.rows == old(store.rows) && partialMsgIds == old(partialMsgIds)
      ensures old(TextDelta()) == "" ==> segmentBufferOffset == old(segmentBufferOffset) && segmentToolCount == old(segmentToolCount)
      ensures old(TextDelta()) != "" ==> partialMsgIds == old(partialMsgIds) + [old(store.nextId)]
      ensures old(TextDelta()) != "" ==> segmentBufferOffset == |collector.buffer| && segmentToolCount == |collector.toolCalls|
    {
      if collector.buffer[segmentBufferOffset..] == "" {
        return;
      }
      PersistDelta();
    }

    /**
      The error, cancel and timeout paths: everything outstanding goes into one more row. If the rows were in
      order before, they now hold all text and all tool calls; a row that is committed but not known is not
      seen, and what it holds is written again.
    */
    method PersistVisiblePartial()
      requires Ready()
      modifies this`segmentBufferOffset, this`segmentToolCount, this`partialMsgIds, store`rows, store`nextId
      ensures Ready() && TextDelta() == "" && ToolsDelta() == []
      ensures old(TextDelta()) == "" && old(ToolsDelta()) == [] ==> store.rows == old(store.rows)
      ensures old(TextDelta()) != "" || old(ToolsDelta()) != [] ==>
                && old(store.nextId) !in old(store.rows) && (forall id :: id in old(store.rows) ==> id < old(store.nextId))
                && store.rows == old(store.rows)[old(store.nextId) := Message(old(TextDelta()), old(ToolsDelta()), [], true)]
      ensures old(Valid()) ==> Valid() && AllPersisted()
    {
      hide Text, Calls, Attachments, SegmentsOk;
      if collector.buffer[segmentBufferOffset..] != "" || collector.toolCalls[segmentToolCount..] != [] {
        PersistDelta();
      }
      assert collector.buffer[..segmentBufferOffset] == collector.buffer;
      assert collector.toolCalls[..segmentToolCount] == collector.toolCalls;
    }

    /** The turn's partial rows put together give the whole buffer and all tool calls. */
    ghost predicate AllPersisted()
      reads this, collector, store
    {
      SegmentsOk(before, store.rows, partialMsgIds, collector.buffer, collector.toolCalls)
    }

    /** Each rise of the steer counter over what was seen cuts at most once. */
    method CheckSteerBoundary(count: nat)
      requires Valid()
      modifies this, store`rows, store`nextId
      ensures Valid() && checks == old(checks) + 1
      ensures seenSteerCount == if count > old(seenSteerCount) then count else old(seenSteerCount)
      ensures count <= old(seenSteerCount) ==> store.rows == old(store.rows) && partialMsgIds == old(partialMsgIds)
      ensures count > old(seenSteerCount) && old(TextDelta()) != "" ==>
                segmentBufferOffset == |collector.buffer| && segmentToolCount == |collector.toolCalls|
      ensures count <= old(seenSteerCount) || old(TextDelta()) == "" ==>
                segmentBufferOffset == old(segmentBufferOffset) && segmentToolCount == old(segmentToolCount)
      ensures count > old(seenSteerCount) ==>
                partialMsgIds == old(partialMsgIds) + if old(TextDelta()) == "" then [] else [old(store.nextId)]
    {
      checks := checks + 1;
      if count <= seenSteerCount {
        return;
      }
      seenSteerCount := count;
      PersistSegment();
    }

    /**
      The same look, with a cancellation that comes at the insert: before its commit, or behind it (`at`), where
      the row is there but not noted. Whether the cancellation strikes here; if nothing is to be cut, it does not.
    */
    method CheckInterrupted(count: nat, committed: bool) returns (hit: bool)
      requires Valid()
      modifies this, store`rows, store`nextId
      ensures hit <==> count > old(seenSteerCount) && old(TextDelta()) != ""
      ensures segmentBufferOffset == old(segmentBufferOffset) && segmentToolCount == old(segmentToolCount)
      ensures partialMsgIds == old(partialMsgIds)
      ensures !hit || !committed ==> Valid() && store.rows == old(store.rows)
      ensures hit && committed ==> Unnoted(old(store.nextId))
      ensures seenSteerCount == if count > old(seenSteerCount) then count else old(seenSteerCount)
    {
      hide Text, Calls, Attachments, SegmentsOk;
      checks := checks + 1;
      if count <= seenSteerCount {
        return false;
      }
      seenSteerCount := count;
      if collector.buffer[segmentBufferOffset..] == "" {
        return false;
      }
      if committed {
        var id := CommitDelta();
      }
      return true;
    }

    /** One transaction: the final row goes in, is attached to the turn, and every partial row goes. */
    method FinalizeTurnPersist(text: string) returns (id: nat)
      requires Valid()
      modifies this`partialMsgIds, store
      ensures store.Valid() && collector.Valid() && partialMsgIds == []
      ensures id !in before && store.assistant == Some(id)
      ensures store.rows == before[id := Message(text, collector.toolCalls, collector.attachments, false)]
    {
      hide Text, Calls, Attachments;
      id := store.Append(Message(text, collector.toolCalls, collector.attachments, false));
      store.assistant := Some(id);
      store.rows := Without(store.rows, partialMsgIds);
      assert id !in partialMsgIds;
      partialMsgIds := [];
    }
  }

  predicate Increasing(ids: seq<nat>) {
    forall i, j :: 0 <= i < j < |ids| ==> ids[i] < ids[j]
  }

  /** Rows have only one order. */
  lemma {:induction false} SameIds(a: seq<nat>, b: seq<nat>)
    requires Increasing(a) && Increasing(b) && forall id :: id in a <==> id in b
    ensures a == b
  {
    assert a == [] <==> b == [] by {
      if a != [] {
        assert a[0] in b;
      }
      if b != [] {
        assert b[0] in a;
      }
    }
    if a != [] {
      var m, n := |a| - 1, |b| - 1;
      SameLast(a, b);
      forall id ensures id in a[..m] <==> id in b[..n] {
        InitOf(a, id);
        InitOf(b, id);
      }
      assert Increasing(a[..m]) && Increasing(b[..n]);
      SameIds(a[..m], b[..n]);
      assert a == a[..m] + [a[m]] && b == b[..n] + [b[n]];
    }
  }

  lemma SameLast(a: seq<nat>, b: seq<nat>)
    requires a != [] && b != [] && Increasing(a) && Increasing(b) && forall id :: id in a <==> id in b
    ensures a[|a| - 1] == b[|b| - 1]
  {
    assert a[|a| - 1] in b && b[|b| - 1] in a;
  }

  lemma InitOf(a: seq<nat>, id: nat)
    requires a != [] && Increasing(a)
    ensures id in a[..|a| - 1] <==> id in a && id != a[|a| - 1]
  {
    var m := |a| - 1;
    assert a == a[..m] + [a[m]];
  }

  /** The same rows cannot be read in two ways. */
  lemma ReadOneWay(before: map<nat, Message>, rows: map<nat, Message>, a: seq<nat>, text: string, calls: seq<ToolCall>,
                   b: seq<nat>, text': string, calls': seq<ToolCall>)
    requires SegmentsOk(before, rows, a, text, calls) && SegmentsOk(before, rows, b, text', calls')
    ensures a == b && text == text' && calls == calls'
  {
    assert forall id :: id in a <==> id in rows && id !in before;
    assert forall id :: id in b <==> id in rows && id !in before;
    SameIds(a, b);
  }

  /**
    The rows are those from before the turn and the turn's partial rows, which put together, in order, give
    exactly `text` and `calls`.
  */
  ghost predicate SegmentsOk(before: map<nat, Message>, rows: map<nat, Message>, ids: seq<nat>, text: string, calls: seq<ToolCall>) {
    && Increasing(ids)
    && (forall id :: id in ids ==> id in rows && id !in before && rows[id].partial)
    && (forall id :: id in rows <==> id in before || id in ids)
    && (forall id :: id in before ==> rows[id] == before[id])
    && TextsOf(rows, ids) == text
    && CallsOf(rows, ids) == calls
  }

  lemma SegmentAdded(before: map<nat, Message>, rows: map<nat, Message>, ids: seq<nat>, text: string, calls: seq<ToolCall>,
                     id: nat, m: Message)
    requires SegmentsOk(before, rows, ids, text, calls) && m.partial
    requires id !in rows && forall other :: other in rows ==> other < id
    ensures SegmentsOk(before, rows[id := m], ids + [id], text + m.text, calls + m.calls)
  {
    RowAdded(rows, ids, id, m);
  }

  // ---------- coalescing ----------

  function Join(parts: seq<string>): string {
    if parts == [] then "" else Join(parts[..|parts| - 1]) + parts[|parts| - 1]
  }

  /** The frames yielded so far and the token buffer behind them. */
  class FrameStream {
    const limit: int  // CHAT_TOKEN_COALESCE_BYTES
    var frames: seq<Frame>
    var pendingText: seq<string>
    var pendingSize: nat
    ghost var seen: seq<ChatEvent>

    /** What was yielded and what is held back make up the plain stream of the events seen, in the same order. */
    ghost predicate Valid()
      reads this
    {
      && Flatten(frames) + Chars(Join(pendingText)) == Flatten(PlainFrames(seen))
      && StreamedText(frames) + Join(pendingText) == Text(seen)
      && Join(pendingText) == Pending(seen, limit)
      && pendingSize == Utf8Size(Join(pendingText))
    }

    constructor (limit: int)
      ensures Valid() && this.limit == limit && frames == [] && seen == []
    {
      this.limit := limit;
      frames, pendingText, pendingSize, seen := [], [], 0, [];
      new;
      assert Chars("") == [];
    }

    /** _flush_token_buffer, and the yield of what it returns. */
    method Flush()
      requires pendingText == [] ==> pendingSize == 0
      modifies this`frames, this`pendingText, this`pendingSize
      ensures Flatten(frames) == old(Flatten(frames) + Chars(Join(pendingText)))
      ensures StreamedText(frames) == old(StreamedText(frames) + Join(pendingText))
      ensures pendingText == [] && pendingSize == 0
    {
      if pendingText == [] {
        assert Chars("") == [] && Flatten(frames) + [] == Flatten(frames);
        assert StreamedText(frames) + "" == StreamedText(frames);
        return;
      }
      var merged := TokenFrame(Join(pendingText));
      FlattenSnoc(frames, merged);
      StreamedSnoc(frames, merged);
      pendingText, pendingSize := [], 0;
      frames := frames + [merged];
    }

    /** A token while coalescing is on: held back until the limit is reached. */
    method Token(delta: string) returns (flushed: bool)
      requires Valid() && 0 < limit
      modifies this
      ensures Valid() && seen == old(seen) + [TokenEvent(delta)]
      ensures flushed <==> limit <= Utf8Size(old(Pending(seen, limit)) + delta)
    {
      hide Flatten, StreamedText;
      ghost var held := Join(pendingText);
      TokenSeen(seen, limit, delta);
      TokenHeld(frames, held, seen, delta);
      Utf8SizeConcat(held, delta);
      seen := seen + [TokenEvent(delta)];
      pendingText := pendingText + [delta];
      assert pendingText[..|pendingText| - 1] == old(pendingText);
      pendingSize := pendingSize + Utf8Size(delta);
      flushed := pendingSize >= limit;
      if flushed {
        Flush();
        assert Chars("") == [] && Flatten(frames) + [] == Flatten(frames);
        assert StreamedText(frames) + "" == StreamedText(frames);
      }
    }

    /** Any other event, or any token while coalescing is off: behind everything held back. */
    method Event(ev: ChatEvent)
      requires Valid() && (ev.TokenEvent? ==> limit <= 0)
      modifies this
      ensures Valid() && seen == old(seen) + [ev] && pendingText == []
    {
      hide Flatten, StreamedText, PlainFrames, Chars;
      Flush();
      OtherSeen(seen, limit, ev);
      NothingHeld(frames);
      seen := seen + [ev];
      if !ev.DoneEvent? {
        var f := if ev.TokenEvent? then TokenFrame(ev.delta) else EventFrame(ev);
        FlattenSnoc(frames, f);
        StreamedSnoc(frames, f);
        frames := frames + [f];
      }
      NothingHeld(frames);
      OneFrame(ev);
    }
  }

  lemma NothingHeld(frames: seq<Frame>)
    ensures Flatten(frames) + Chars(Join([])) == Flatten(frames) && StreamedText(frames) + Join([]) == StreamedText(frames)
  {
    assert Chars("") == [];
  }

  lemma TokenSeen(seen: seq<ChatEvent>, limit: int, delta: string)
    requires 0 < limit
    ensures var more := seen + [TokenEvent(delta)];
      && PlainFrames(more) == PlainFrames(seen) + [TokenFrame(delta)]
      && Text(more) == Text(seen) + delta
      && Pending(more, limit) == (var held := Pending(seen, limit) + delta; if limit <= Utf8Size(held) then "" else held)
  {
    assert (seen + [TokenEvent(delta)])[..|seen|] == seen;
  }

  lemma TokenHeld(frames: seq<Frame>, held: string, seen: seq<ChatEvent>, delta: string)
    requires Flatten(frames) + Chars(held) == Flatten(PlainFrames(seen))
    requires StreamedText(frames) + held == Text(seen)
    ensures Flatten(frames) + Chars(held + delta) == Flatten(PlainFrames(seen) + [TokenFrame(delta)])
    ensures StreamedText(frames) + (held + delta) == Text(seen) + delta
  {
    CharsConcat(held, delta);
    FlattenSnoc(PlainFrames(seen), TokenFrame(delta));
    Associative(Flatten(frames), Chars(held), Chars(delta));
    Associative(StreamedText(frames), held, delta);
  }

  lemma OtherSeen(seen: seq<ChatEvent>, limit: int, ev: ChatEvent)
    requires ev.TokenEvent? ==> limit <= 0
    ensures Pending(seen + [ev], limit) == ""
    ensures Text(seen + [ev]) == Text(seen) + TextOf(ev)
    ensures Flatten(PlainFrames(seen + [ev])) == Flatten(PlainFrames(seen)) + Flatten(Plain(ev))
  {
    assert (seen + [ev])[..|seen|] == seen;
    FlattenConcat(PlainFrames(seen), Plain(ev));
  }

  lemma OneFrame(ev: ChatEvent)
    ensures Flatten(Plain(ev))
         == if ev.TokenEvent? then AtomsOf(TokenFrame(ev.delta)) else if ev.DoneEvent? then [] else AtomsOf(EventFrame(ev))
  {
    if !ev.DoneEvent? {
      FlattenSnoc([], Plain(ev)[0]);
      assert [] + Plain(ev) == Plain(ev);
    }
  }

  // ---------- the turn ----------

  /**
    The awaits behind an event's frames, in order, at which a cancellation may arrive: the look at the steer
    counter, the insert of a boundary row, before its commit or behind it, and the final row's transaction. If
    the event never gets to the point named, the cancellation comes with its next await behind it.
  */
  datatype Point = Looking | Cutting(committed: bool) | Storing(committed: bool)

  /** How the event stream ends when no done or error event closes it. */
  datatype Ending =
    | Exhausted
    | ProbeTerminal(completed: bool, rawStatus: string)  // CodexTurnTerminal, raised by the idle probe
    | StaleStream                                        // StaleTurnStreamError
    | IdleTimeout                                        // TimeoutError
    | Cancelled                                          // CancelledError while the next event is awaited
    | CancelledIn(ev: ChatEvent, at: Point)              // CancelledError while an event is handled
    | AbandonedIn(ev: ChatEvent, own: bool)              // GeneratorExit at the event's own frame, or at the flush
    | Crashed                                            // any other exception

  /** The events up to and including the first one that closes the turn. */
  function Consumed(events: seq<ChatEvent>): seq<ChatEvent> {
    if events == [] then [] else if Closes(events[0]) then [events[0]] else [events[0]] + Consumed(events[1..])
  }

  lemma {:induction false} ConsumedIs(events: seq<ChatEvent>, n: nat)
    requires n <= |events| && (n < |events| ==> Closes(events[n]))
    requires forall i :: 0 <= i < n ==> !Closes(events[i])
    ensures Consumed(events) == if n < |events| then events[..n + 1] else events
  {
    if events != [] {
      if n == 0 {
        assert events[..1] == [events[0]];
      } else {
        ConsumedIs(events[1..], n - 1);
        assert n < |events| ==> [events[0]] + events[1..][..n] == events[..n + 1];
      }
    }
  }

  /** How the consumed events closed, if they did. */
  function Closing(events: seq<ChatEvent>): Option<ChatEvent> {
    var c := Consumed(events);
    if c != [] && Closes(c[|c| - 1]) then Some(c[|c| - 1]) else None
  }

  /** Whether the steer counter is looked at for an event: behind a flush by size, and behind any event but an error. */
  predicate ChecksAt(events: seq<ChatEvent>, limit: int, ev: ChatEvent) {
    if ev.TokenEvent? && 0 < limit then limit <= Utf8Size(Pending(events, limit) + ev.delta) else !ev.ErrorEvent?
  }

  /** A row is never cut behind text that is still held back; and behind anything that leaves nothing held back the counter is looked at. */
  lemma LooksIffNothingHeld(events: seq<ChatEvent>, limit: int, ev: ChatEvent)
    requires ev.TokenEvent? ==> ev.delta != ""
    ensures ChecksAt(events, limit, ev) <==> !ev.ErrorEvent? && Pending(events + [ev], limit) == ""
  {
    assert (events + [ev])[..|events|] == events;
    if ev.TokenEvent? {
      Utf8SizeIs(Pending(events, limit) + ev.delta);
    }
  }

  function Checks(events: seq<ChatEvent>, limit: int): nat {
    if events == [] then 0
    else
      var init := events[..|events| - 1];
      Checks(init, limit) + if ChecksAt(init, limit, events[|events| - 1]) then 1 else 0
  }

  lemma ChecksSnoc(events: seq<ChatEvent>, limit: int, ev: ChatEvent)
    ensures Checks(events + [ev], limit) == Checks(events, limit) + if ChecksAt(events, limit, ev) then 1 else 0
  {
    assert (events + [ev])[..|events|] == events;
  }

  /** Where the last cut lies, and the steer count it was made for: in characters of the text and in tool calls. */
  datatype Cut = Cut(seen: nat, text: nat, calls: nat)

  /** `steer` says what the counter reads each time it is looked at. A rise cuts where there is new text. */
  function CutAfter(events: seq<ChatEvent>, limit: int, steer: nat -> nat): Cut {
    if events == [] then Cut(0, 0, 0)
    else NextCut(events[..|events| - 1], limit, events[|events| - 1], steer, CutAfter(events[..|events| - 1], limit, steer))
  }

  function NextCut(init: seq<ChatEvent>, limit: int, ev: ChatEvent, steer: nat -> nat, cut: Cut): Cut {
    var count := steer(Checks(init, limit));
    if !ChecksAt(init, limit, ev) || count <= cut.seen then cut
    else if |Text(init + [ev])| == cut.text then cut.(seen := count)
    else Cut(count, |Text(init + [ev])|, |Calls(init + [ev])|)
  }

  /** Without a turn id the counter is never looked at. */
  function LastCut(events: seq<ChatEvent>, limit: int, tracked: bool, steer: nat -> nat): Cut {
    if tracked then CutAfter(events, limit, steer) else Cut(0, 0, 0)
  }

  lemma LastCutSnoc(events: seq<ChatEvent>, limit: int, ev: ChatEvent, tracked: bool, steer: nat -> nat)
    ensures LastCut(events + [ev], limit, tracked, steer)
         == if tracked then NextCut(events, limit, ev, steer, LastCut(events, limit, tracked, steer))
            else LastCut(events, limit, tracked, steer)
  {
    assert (events + [ev])[..|events|] == events;
  }

  /** Everything that came lies in front of the last cut. */
  predicate CutOff(cut: Cut, events: seq<ChatEvent>) {
    cut.text == |Text(events)| && cut.calls == |Calls(events)|
  }

  /** Without steers nothing is ever cut. */
  lemma {:induction false} NoSteerNoCut(events: seq<ChatEvent>, limit: int, tracked: bool, steer: nat -> nat)
    requires forall n :: steer(n) == 0
    ensures LastCut(events, limit, tracked, steer) == Cut(0, 0, 0)
    ensures CutOff(LastCut(events, limit, tracked, steer), events) <==> Text(events) == "" && Calls(events) == []
  {
    hide Checks, ChecksAt, Text, Calls;
    if events != [] {
      NoSteerNoCut(events[..|events| - 1], limit, tracked, steer);
    }
  }

  /** A turn with one short token and an error, and no steer: nothing of the text is cut off. */
  lemma ErrorLosesText(limit: int, tracked: bool, detail: Option<string>)
    ensures var events := [TokenEvent("hi"), ErrorEvent(CODEX_ERROR, detail)];
      Consumed(events) == events && Text(events) == "hi" && !CutOff(LastCut(events, limit, tracked, _ => 0), events)
  {
    var events := [TokenEvent("hi"), ErrorEvent(CODEX_ERROR, detail)];
    NoSteerNoCut(events, limit, tracked, _ => 0);
    ConsumedIs(events, 1);
    assert events[..1] == [TokenEvent("hi")] && events[..1][..0] == [];
    TextOfOne(TokenEvent("hi"));
  }

  // ---------- breaks inside an event ----------

  predicate Inside(ending: Ending) {
    ending.CancelledIn? || ending.AbandonedIn?
  }

  /** All that came, the event that was being handled included. */
  function Seen(events: seq<ChatEvent>, ending: Ending): seq<ChatEvent> {
    if Inside(ending) then events + [ending.ev] else events
  }

  /** The event behind `events` makes a boundary row. */
  predicate CutsAt(events: seq<ChatEvent>, limit: int, ev: ChatEvent, tracked: bool, steer: nat -> nat) {
    var cut := LastCut(events, limit, tracked, steer);
    tracked && ChecksAt(events, limit, ev) && cut.seen < steer(Checks(events, limit)) && |Text(events + [ev])| != cut.text
  }

  /** The cancellation falls between the commit of a boundary row and its bookkeeping. */
  predicate BehindCommit(events: seq<ChatEvent>, ending: Ending, limit: int, tracked: bool, steer: nat -> nat) {
    ending.CancelledIn? && ending.at == Cutting(true) && CutsAt(events, limit, ending.ev, tracked, steer)
  }

  /** The cancellation strikes at the point named, inside the try block. */
  predicate Strikes(events: seq<ChatEvent>, ev: ChatEvent, at: Point, limit: int, tracked: bool, steer: nat -> nat) {
    match at
    case Looking => tracked && ChecksAt(events, limit, ev)
    case Cutting(_) => CutsAt(events, limit, ev, tracked, steer)
    case Storing(_) => false
  }

  /** A done event has left the try block behind: the cancellation falls into the final transaction, and nobody handles it. */
  predicate Unhandled(events: seq<ChatEvent>, ending: Ending, limit: int, tracked: bool, steer: nat -> nat) {
    ending.CancelledIn? && ending.ev.DoneEvent? && !Strikes(events, ending.ev, ending.at, limit, tracked, steer)
  }

  /** The turn's rows, in order, hold the text and the tool calls exactly once. */
  ghost predicate RowsHold(before: map<nat, Message>, rows: map<nat, Message>, c: seq<ChatEvent>) {
    exists ids :: SegmentsOk(before, rows, ids, Text(c), Calls(c))
  }

  function From<T>(xs: seq<T>, n: nat): seq<T> {
    if n <= |xs| then xs[n..] else []
  }

  /** They hold what lies behind the cut twice. */
  ghost predicate RowsRepeat(before: map<nat, Message>, rows: map<nat, Message>, c: seq<ChatEvent>, cut: Cut) {
    exists ids :: SegmentsOk(before, rows, ids, Text(c) + From(Text(c), cut.text), Calls(c) + From(Calls(c), cut.calls))
  }

  /** What a break inside an event makes of the rows: exactly when they hold everything once, and what else they hold. */
  ghost predicate Broken(before: map<nat, Message>, rows: map<nat, Message>, events: seq<ChatEvent>, ending: Ending,
                         limit: int, tracked: bool, steer: nat -> nat)
    requires Inside(ending)
  {
    var c := events + [ending.ev];
    if ending.AbandonedIn? then
      RowsHold(before, rows, c) <==> CutOff(LastCut(events, limit, tracked, steer), c)
    else if !Unhandled(events, ending, limit, tracked, steer) then
      && (RowsHold(before, rows, c) <==> !BehindCommit(events, ending, limit, tracked, steer))
      && (BehindCommit(events, ending, limit, tracked, steer) ==> RowsRepeat(before, rows, c, LastCut(events, limit, tracked, steer)))
    else
      ending.at != Storing(true) ==> (RowsHold(before, rows, c) <==> CutOff(LastCut(c, limit, tracked, steer), c))
  }

  /** What the consumer has got by then: all frames up to the event's, or, at the flush, all frames before its own. */
  ghost predicate SentInside(frames: seq<Frame>, events: seq<ChatEvent>, ending: Ending, limit: int)
    requires Inside(ending)
  {
    if ending.CancelledIn? || ending.own || ending.ev.TokenEvent? then Accounts(frames, events + [ending.ev], limit)
    else Flatten(frames) == Flatten(PlainFrames(events)) && StreamedText(frames) == Text(events)
  }

  /**
    With the default threshold: some text, a steer, and a tool call at which the stream is cancelled behind the
    commit. The rows say everything twice.
  */
  lemma CancelRepeatsText(call: ToolCall)
    ensures var events, ending := [TokenEvent("hi")], CancelledIn(ToolCallEvent(call), Cutting(true));
      && Closing(events).None? && BehindCommit(events, ending, 256, true, _ => 1)
      && var c := Seen(events, ending);
         Text(c) + From(Text(c), LastCut(events, 256, true, _ => 1).text) == "hihi"
  {
    var token, tool := TokenEvent("hi"), ToolCallEvent(call);
    var events := [token];
    ShortTokenIsHeld();
    TextOfOne(token);
    TextOfOne(tool);
    TextConcat(events, [tool]);
    assert "hi" + "" == "hi" && "hi"[0..] == "hi";
    NotClosed(events);
    hide Text, Checks, Pending, Utf8Size, LastCut, Consumed, Closing;
    assert ChecksAt(events, 256, tool);
  }

  lemma ShortTokenIsHeld()
    ensures Checks([TokenEvent("hi")], 256) == 0 && LastCut([TokenEvent("hi")], 256, true, _ => 1) == Cut(0, 0, 0)
  {
    var token := TokenEvent("hi");
    assert !ChecksAt([], 256, token) by {
      assert "hi"[..1] == "h" && "h"[..0] == "";
      assert Utf8Size("h") == 1 + Utf8Size("") && Utf8Size("hi") == 2;
      assert Pending([], 256) + "hi" == "hi";
    }
    hide ChecksAt, Checks, LastCut;
    NoChecks(256, true, _ => 1);
    ChecksSnoc([], 256, token);
    LastCutSnoc([], 256, token, true, _ => 1);
    assert [] + [token] == [token];
  }

  lemma NotClosed(events: seq<ChatEvent>)
    requires |events| == 1 && !Closes(events[0])
    ensures Closing(events).None?
  {
    assert Consumed(events[1..]) == [];
    assert Consumed(events) == [events[0]];
  }

  /** The text that is stored for a finished turn. */
  function StoredText(finalText: string, streamed: string): string {
    if finalText != "" then finalText else streamed
  }

  ghost function CutOf(state: StreamState): Cut
    reads state
  {
    Cut(state.seenSteerCount, state.segmentBufferOffset, state.segmentToolCount)
  }

  /** One round of the event loop. */
  method OnEvent(state: StreamState, stream: FrameStream, ev: ChatEvent, tracked: bool, steer: nat -> nat)
    requires state.Valid() && stream.Valid()
    modifies state, state.collector, state.store`rows, state.store`nextId, stream
    ensures state.Valid() && stream.Valid()
    ensures stream.seen == old(stream.seen) + [ev] && state.collector.absorbed == old(state.collector.absorbed) + [ev]
    ensures Closes(ev) ==> stream.pendingText == []
    ensures state.checks == old(state.checks) + if tracked && old(ChecksAt(stream.seen, stream.limit, ev)) then 1 else 0
    ensures !tracked ==> state.store.rows == old(state.store.rows) && CutOf(state) == old(CutOf(state))
    ensures tracked && old(state.checks == Checks(stream.seen, stream.limit)) && old(state.collector.absorbed == stream.seen) ==>
              CutOf(state) == NextCut(old(stream.seen), stream.limit, ev, steer, old(CutOf(state)))
  {
    hide Text, Calls, Attachments, SegmentsOk, Pending, Utf8Size, Flatten, PlainFrames, Join, StreamedText, Chars;
    Absorb(state, ev);
    var check := !ev.ErrorEvent?;
    if ev.TokenEvent? && 0 < stream.limit {
      check := stream.Token(ev.delta);
    } else {
      stream.Event(ev);
    }
    if check && tracked {
      state.CheckSteerBoundary(steer(state.checks));
    }
  }

  /** The event loop of stream_turn; `steer` gives what the counter reads each time it is looked at. */
  method Consume(state: StreamState, stream: FrameStream, events: seq<ChatEvent>, tracked: bool, steer: nat -> nat)
    returns (closing: Option<ChatEvent>)
    requires state.Valid() && stream.Valid() && state.collector.absorbed == [] && stream.seen == []
    requires state.checks == 0 && CutOf(state) == Cut(0, 0, 0)
    modifies state, state.collector, state.store`rows, state.store`nextId, stream
    ensures state.Valid() && stream.Valid()
    ensures stream.seen == Consumed(events) && state.collector.absorbed == Consumed(events)
    ensures closing == Closing(events)
    ensures closing.Some? ==> stream.pendingText == []
    ensures state.checks == if tracked then Checks(Consumed(events), stream.limit) else 0
    ensures CutOf(state) == LastCut(Consumed(events), stream.limit, tracked, steer)
    ensures !tracked ==> state.store.rows == old(state.store.rows)
  {
    hide StreamState.Valid, FrameStream.Valid, Checks, ChecksAt, Consumed, NextCut, CutOf, LastCut;
    var i := 0;
    NoChecks(stream.limit, tracked, steer);
    assert events[..0] == [];
    while i < |events|
      invariant 0 <= i <= |events|
      invariant state.Valid() && stream.Valid()
      invariant stream.seen == events[..i] && state.collector.absorbed == events[..i]
      invariant forall j :: 0 <= j < i ==> !Closes(events[j])
      invariant state.checks == if tracked then Checks(events[..i], stream.limit) else 0
      invariant CutOf(state) == LastCut(events[..i], stream.limit, tracked, steer)
      invariant !tracked ==> state.store.rows == old(state.store.rows)
    {
      var ev := events[i];
      ChecksSnoc(events[..i], stream.limit, ev);
      LastCutSnoc(events[..i], stream.limit, ev, tracked, steer);
      assert events[..i + 1] == events[..i] + [ev];
      OnEvent(state, stream, ev, tracked, steer);
      if Closes(ev) {
        ConsumedIs(events, i);
        return Some(ev);
      }
      i := i + 1;
    }
    ConsumedIs(events, |events|);
    assert events[..i] == events;
    closing := None;
  }

  lemma NoChecks(limit: int, tracked: bool, steer: nat -> nat)
    ensures Checks([], limit) == 0 && LastCut([], limit, tracked, steer) == Cut(0, 0, 0)
  {
  }

  /** The collector moves on; the rows cut so far still hold the same beginning of its text and calls. */
  method Absorb(state: StreamState, ev: ChatEvent)
    requires state.Valid()
    modifies state.collector
    ensures state.Valid() && state.collector.absorbed == old(state.collector.absorbed) + [ev]
  {
    var collector := state.collector;
    ghost var text, calls := collector.buffer, collector.toolCalls;
    AbsorbedGrows(collector.absorbed, ev);
    collector.Absorb(ev);
    assert collector.buffer[..state.segmentBufferOffset] == text[..state.segmentBufferOffset];
    assert collector.toolCalls[..state.segmentToolCount] == calls[..state.segmentToolCount];
  }

  lemma AbsorbedGrows(absorbed: seq<ChatEvent>, ev: ChatEvent)
    ensures Text(absorbed) <= Text(absorbed + [ev]) && Calls(absorbed) <= Calls(absorbed + [ev])
  {
    assert (absorbed + [ev])[..|absorbed|] == absorbed;
  }

  /**
    Leaving out a final text that was streamed already loses nothing exactly if nothing was held back, or the
    text differs anyway.
  */
  lemma WireTextIsStoredIff(frames: seq<Frame>, finalText: string, streamed: string, message: Option<Stored>, held: string)
    requires StreamedText(frames) + held == streamed
    ensures var f := DoneFrame(FinalTextForDoneFrame(finalText, streamed), message);
      WireText(frames + [f]) == StoredText(finalText, streamed) <==> held == "" || (finalText != "" && finalText != streamed)
  {
    var f := DoneFrame(FinalTextForDoneFrame(finalText, streamed), message);
    StreamedSnoc(frames, f);
    assert (frames + [f])[|frames + [f]| - 1] == f;
    assert StreamedText(frames + [f]) == StreamedText(frames);
    if held == "" {
      assert StreamedText(frames) + held == StreamedText(frames);
    }
    assert |StreamedText(frames)| + |held| == |streamed|;
  }

  /** A done frame gives the client the stored text if it carries the stored row, or there is no text at all. */
  lemma ClientGetsStored(frames: seq<Frame>, finalText: string, streamed: string, message: Option<Stored>, held: string)
    requires StreamedText(frames) + held == streamed
    requires if message.Some? then message.value.text == StoredText(finalText, streamed) else StoredText(finalText, streamed) == ""
    ensures var f := DoneFrame(FinalTextForDoneFrame(finalText, streamed), message);
      ClientText(frames + [f]) == StoredText(finalText, streamed)
  {
    var f := DoneFrame(FinalTextForDoneFrame(finalText, streamed), message);
    assert (frames + [f])[|frames + [f]| - 1] == f;
    StreamedSnoc(frames, f);
    if StoredText(finalText, streamed) == "" {
      assert |StreamedText(frames)| + |held| == 0;
    }
  }

  /** A done frame that carries the row attached to the turn. */
  predicate Announces(f: Frame, assistant: Option<nat>) {
    f.DoneFrame? && f.message.Some? && assistant == Some(f.message.value.id)
  }

  /** The done path: the final row replaces the partial rows, and the client shows what it says. */
  method FinishDone(state: StreamState, stream: FrameStream)
    requires state.Valid() && stream.Valid() && stream.pendingText == [] && state.collector.absorbed == stream.seen
    requires stream.seen != [] && stream.seen[|stream.seen| - 1].DoneEvent?
    modifies state`partialMsgIds, state.store, stream`frames
    ensures Finished(state, stream.seen, StoredText(stream.seen[|stream.seen| - 1].finalText, Text(stream.seen)))
    ensures ClientText(stream.frames) == StoredText(stream.seen[|stream.seen| - 1].finalText, Text(stream.seen))
    ensures WireText(stream.frames) == StoredText(stream.seen[|stream.seen| - 1].finalText, Text(stream.seen))
    ensures |stream.frames| > 0 && Announces(stream.frames[|stream.frames| - 1], state.store.assistant)
    ensures stream.frames[..|stream.frames| - 1] == old(stream.frames)
  {
    hide Text, Calls, Attachments, Flatten, StreamedText, PlainFrames, ClientText, WireText, Pending, Utf8Size, SegmentsOk;
    var collector := state.collector;
    var stored := if collector.finalText != "" then collector.finalText else collector.buffer;
    var id := state.FinalizeTurnPersist(stored);
    var message := Some(Stored(id, stored));
    var f := DoneFrame(FinalTextForDoneFrame(collector.finalText, collector.buffer), message);
    WireTextIsStoredIff(stream.frames, collector.finalText, collector.buffer, message, "");
    ClientGetsStored(stream.frames, collector.finalText, collector.buffer, message, "");
    stream.frames := stream.frames + [f];
  }

  /** After a successful end exactly one row of the turn remains: not partial, whole, and attached to the turn. */
  ghost predicate Finished(state: StreamState, seen: seq<ChatEvent>, text: string)
    reads state, state.store
  {
    exists id :: id !in state.before && state.store.assistant == Some(id)
              && state.store.rows == state.before[id := Message(text, Calls(seen), Attachments(seen), false)]
  }

  /** The partial rows put together hold everything exactly if everything lies in front of the last cut. */
  lemma SavedIff(state: StreamState)
    requires state.Valid()
    ensures state.AllPersisted() <==> CutOff(CutOf(state), state.collector.absorbed)
  {
    hide StreamCollector.Valid;
    var text, calls := state.collector.buffer, state.collector.toolCalls;
    assert text == text[..state.segmentBufferOffset] + state.TextDelta();
    assert calls == calls[..state.segmentToolCount] + state.ToolsDelta();
    assert state.collector.Valid() && text == Text(state.collector.absorbed) && calls == Calls(state.collector.absorbed) by {
      CollectorHolds(state.collector);
    }
  }

  lemma CollectorHolds(collector: StreamCollector)
    requires collector.Valid()
    ensures collector.buffer == Text(collector.absorbed) && collector.toolCalls == Calls(collector.absorbed)
  {
  }

  /** What was sent, and what is still held back, when a stream breaks off: the plain stream, or its text. */
  ghost predicate Accounts(body: seq<Frame>, c: seq<ChatEvent>, limit: int) {
    && Flatten(body) + Chars(Pending(c, limit)) == Flatten(PlainFrames(c))
    && StreamedText(body) + Pending(c, limit) == Text(c)
  }

  lemma AccountsWhole(stream: FrameStream)
    requires stream.Valid() && stream.pendingText == []
    ensures Flatten(stream.frames) == Flatten(PlainFrames(stream.seen)) && StreamedText(stream.frames) == Text(stream.seen)
  {
    NothingHeld(stream.frames);
  }

  /**
    The probe found the turn completed: like the done path, but the token buffer is not flushed first. The done
    frame's message makes up for that; what the streamed frames alone give is whole only if nothing was held back.
  */
  method FinishProbe(state: StreamState, stream: FrameStream)
    requires state.Valid() && stream.Valid() && state.collector.absorbed == stream.seen && !AnyDone(stream.seen)
    modifies state`partialMsgIds, state.store, stream`frames
    ensures var c := stream.seen;
      if Text(c) != "" || Calls(c) != [] || Attachments(c) != [] then Finished(state, c, Text(c))
      else state.store.rows == old(state.store.rows)
    ensures ClientText(stream.frames) == Text(stream.seen)
    ensures WireText(stream.frames) == Text(stream.seen) <==> Pending(stream.seen, stream.limit) == ""
    ensures |stream.frames| > 0 && stream.frames[..|stream.frames| - 1] == old(stream.frames)
    ensures var c, f := stream.seen, stream.frames[|stream.frames| - 1];
      if Text(c) != "" || Calls(c) != [] || Attachments(c) != [] then Announces(f, state.store.assistant)
      else f == DoneFrame("", None)
  {
    hide Text, Calls, Attachments, Flatten, StreamedText, PlainFrames, ClientText, WireText, Pending, Utf8Size, SegmentsOk;
    var collector := state.collector;
    var message := None;
    if collector.buffer != "" || collector.toolCalls != [] || collector.attachments != [] {
      var id := state.FinalizeTurnPersist(collector.buffer);
      message := Some(Stored(id, collector.buffer));
    }
    WireTextIsStoredIff(stream.frames, collector.buffer, collector.buffer, message, Join(stream.pendingText));
    ClientGetsStored(stream.frames, collector.buffer, collector.buffer, message, Join(stream.pendingText));
    stream.frames := stream.frames + [DoneFrame(FinalTextForDoneFrame(collector.buffer, collector.buffer), message)];
  }

  const TURN_TIMEOUT := "turn_timeout"
  const STREAM_DROPPED := "stream_dropped"

  /** The ways out that save what has come so far as partial rows. */
  predicate SavesPartial(ending: Ending) {
    ending.StaleStream? || ending.IdleTimeout? || ending.Cancelled? || (ending.ProbeTerminal? && !ending.completed)
  }

  /** The ways out that send a last frame; otherwise the cancellation goes on to the caller, or nobody listens. */
  predicate Answers(ending: Ending) {
    !ending.Cancelled? && !Inside(ending)
  }

  /** The ways out that leave the rows as the steers cut them. */
  predicate KeepsRows(ending: Ending) {
    ending.Crashed? || ending.Exhausted?
  }

  /** What the client is told in the end: done only if the probe found the turn completed, else why it failed. */
  predicate TellsWhy(ending: Ending, f: Frame) {
    match ending
    case ProbeTerminal(completed, rawStatus) => if completed then f.DoneFrame? else f == FailureFrame("codex_reported_" + rawStatus)
    case StaleStream => f == FailureFrame("turn_timeout")
    case IdleTimeout => f == FailureFrame("turn_timeout")
    case Crashed => f == FailureFrame("codex_error")
    case Exhausted => f == FailureFrame("stream_dropped")
    case _ => true
  }

  /** No done or error event closed the stream: the except branches, and the check behind them. */
  method BreakOff(state: StreamState, stream: FrameStream, ending: Ending) returns (answered: bool)
    requires !Inside(ending)
    requires state.Valid() && stream.Valid() && state.collector.absorbed == stream.seen && !AnyDone(stream.seen)
    modifies state, state.store, stream`frames
    ensures answered == Answers(ending)
    ensures if answered then |stream.frames| > 0 && stream.frames[..|stream.frames| - 1] == old(stream.frames)
            else stream.frames == old(stream.frames)
    ensures answered ==> TellsWhy(ending, stream.frames[|stream.frames| - 1])
    ensures SavesPartial(ending) ==> state.AllPersisted()
    ensures KeepsRows(ending) ==> state.Valid() && state.store.rows == old(state.store.rows) && CutOf(state) == old(CutOf(state))
    ensures ending.ProbeTerminal? && ending.completed ==>
              && (Text(stream.seen) != "" ==> Finished(state, stream.seen, Text(stream.seen)))
              && ClientText(stream.frames) == Text(stream.seen)
              && (WireText(stream.frames) == Text(stream.seen) <==> Pending(stream.seen, stream.limit) == "")
  {
    hide Text, Calls, Attachments, Flatten, StreamedText, PlainFrames, ClientText, WireText, Pending, Utf8Size, SegmentsOk, Join, Chars;
    answered := true;
    match ending
    case ProbeTerminal(completed, rawStatus) =>
      if completed {
        FinishProbe(state, stream);
      } else {
        state.PersistVisiblePartial();
        stream.frames := stream.frames + [FailureFrame("codex_reported_" + rawStatus)];
      }
    case StaleStream =>
      state.PersistVisiblePartial();
      stream.frames := stream.frames + [FailureFrame(TURN_TIMEOUT)];
    case IdleTimeout =>
      state.PersistVisiblePartial();
      stream.frames := stream.frames + [FailureFrame(TURN_TIMEOUT)];
    case Cancelled =>
      state.PersistVisiblePartial();
      answered := false;
    case Crashed => stream.frames := stream.frames + [FailureFrame(CODEX_ERROR)];
    case Exhausted => stream.frames := stream.frames + [FailureFrame(STREAM_DROPPED)];
  }

  /** The rows and the frames behind a break inside an event; a committed final transaction counts, though nobody answers. */
  ghost predicate BrokenOff(state: StreamState, frames: seq<Frame>, events: seq<ChatEvent>, ending: Ending,
                            limit: int, tracked: bool, steer: nat -> nat)
    requires Inside(ending)
    reads state, state.store
  {
    && Broken(state.before, state.store.rows, events, ending, limit, tracked, steer)
    && SentInside(frames, events, ending, limit)
    && (Unhandled(events, ending, limit, tracked, steer) && ending.at == Storing(true) ==>
          Finished(state, events + [ending.ev], StoredText(ending.ev.finalText, Text(events + [ending.ev]))))
  }

  /** The rows hold everything once exactly if everything lies in front of the last cut, as long as they are in order. */
  lemma HeldIff(state: StreamState)
    requires state.Valid()
    ensures RowsHold(state.before, state.store.rows, state.collector.absorbed) <==> CutOff(CutOf(state), state.collector.absorbed)
  {
    hide Text, Calls, SegmentsOk;
    var c, rows := state.collector.absorbed, state.store.rows;
    SavedIff(state);
    CollectorHolds(state.collector);
    if RowsHold(state.before, rows, c) {
      var ids :| SegmentsOk(state.before, rows, ids, Text(c), Calls(c));
      ReadOneWay(state.before, rows, ids, Text(c), Calls(c), state.partialMsgIds,
                 state.collector.buffer[..state.segmentBufferOffset], state.collector.toolCalls[..state.segmentToolCount]);
    } else {
      assert !state.AllPersisted();
    }
  }

  /** Everything is in rows, once; then what lies behind the cut is written again. */
  lemma WrittenAgain(state: StreamState, rows: map<nat, Message>, id: nat, again: nat, m: Message)
    requires state.Unnoted(id) && rows == state.store.rows[again := m]
    requires again !in state.store.rows && forall other :: other in state.store.rows ==> other < again
    requires m.partial && m.text == state.TextDelta() != "" && m.calls == state.ToolsDelta()
    ensures var c := state.collector.absorbed;
      !RowsHold(state.before, rows, c) && RowsRepeat(state.before, rows, c, CutOf(state))
  {
    hide SegmentsOk, Text, Calls;
    var c, text, calls := state.collector.absorbed, state.collector.buffer, state.collector.toolCalls;
    CollectorHolds(state.collector);
    var ids := state.partialMsgIds + [id];
    SegmentAdded(state.before, state.store.rows, ids, text, calls, again, m);
    assert m.text == From(Text(c), CutOf(state).text) && m.calls == From(Calls(c), CutOf(state).calls);
    assert text + m.text != text by {
      assert |text + m.text| == |text| + |m.text|;
    }
    if RowsHold(state.before, rows, c) {
      var other :| SegmentsOk(state.before, rows, other, Text(c), Calls(c));
      ReadOneWay(state.before, rows, other, text, calls, ids + [again], text + m.text, calls + m.calls);
    }
  }

  lemma AccountsFlushed(stream: FrameStream)
    requires stream.Valid()
    ensures stream.pendingText == [] ==> stream.pendingSize == 0
    ensures Flatten(stream.frames) + Chars(Join(stream.pendingText)) == Flatten(PlainFrames(stream.seen))
    ensures StreamedText(stream.frames) + Join(stream.pendingText) == Text(stream.seen)
  {
  }

  /** The consumer closes the generator at a frame of the event, before the counter is looked at. */
  method AbandonInside(state: StreamState, stream: FrameStream, ev: ChatEvent, own: bool, ghost tracked: bool, ghost steer: nat -> nat)
    requires state.Valid() && stream.Valid() && state.collector.absorbed == stream.seen
    requires CutOf(state) == LastCut(stream.seen, stream.limit, tracked, steer)
    modifies state.collector, stream
    ensures BrokenOff(state, stream.frames, old(stream.seen), AbandonedIn(ev, own), stream.limit, tracked, steer)
  {
    hide Text, Calls, Attachments, SegmentsOk, Pending, Utf8Size, Flatten, PlainFrames, Join, StreamedText, Chars,
         LastCut, CutOff, RowsHold;
    Absorb(state, ev);
    if ev.TokenEvent? && 0 < stream.limit {
      var flushed := stream.Token(ev.delta);
    } else if own || ev.TokenEvent? {
      stream.Event(ev);
    } else {
      AccountsFlushed(stream);
      stream.Flush();
    }
    HeldIff(state);
  }

  lemma AllAreHeld(state: StreamState)
    requires state.Valid() && state.AllPersisted()
    ensures RowsHold(state.before, state.store.rows, state.collector.absorbed)
  {
    CollectorHolds(state.collector);
  }

  /** The event is handled up to the point of the cancellation, if it gets there; otherwise to its end. */
  method HandleUntil(state: StreamState, stream: FrameStream, ev: ChatEvent, at: Point, tracked: bool, steer: nat -> nat)
    returns (hit: bool, ghost id: nat)
    requires state.Valid() && stream.Valid() && state.collector.absorbed == stream.seen
    requires CutOf(state) == LastCut(stream.seen, stream.limit, tracked, steer)
    requires state.checks == if tracked then Checks(stream.seen, stream.limit) else 0
    modifies state, state.collector, state.store`rows, state.store`nextId, stream
    ensures stream.Valid() && stream.seen == state.collector.absorbed == old(stream.seen) + [ev]
    ensures hit <==> Strikes(old(stream.seen), ev, at, stream.limit, tracked, steer)
    ensures if hit && at == Cutting(true) then state.Unnoted(id) && state.TextDelta() != "" else state.Valid()
    ensures hit && at == Cutting(true) ==>
              var cut := old(LastCut(stream.seen, stream.limit, tracked, steer));
              CutOf(state).text == cut.text && CutOf(state).calls == cut.calls
    ensures !hit ==> CutOf(state) == LastCut(stream.seen, stream.limit, tracked, steer)
  {
    hide Text, Calls, Attachments, SegmentsOk, Pending, Utf8Size, Flatten, PlainFrames, Join, StreamedText, Chars, LastCut, Checks;
    ghost var events := stream.seen;
    Absorb(state, ev);
    var check := !ev.ErrorEvent?;
    if ev.TokenEvent? && 0 < stream.limit {
      check := stream.Token(ev.delta);
    } else {
      stream.Event(ev);
    }
    LastCutSnoc(events, stream.limit, ev, tracked, steer);
    CollectorHolds(state.collector);
    id := state.store.nextId;
    hit := false;
    if check && tracked {
      if at.Looking? {
        hit := true;
      } else if at.Cutting? {
        hit := state.CheckInterrupted(steer(state.checks), at.committed);
      } else {
        state.CheckSteerBoundary(steer(state.checks));
      }
    }
  }

  /** The worker is cancelled while the event is handled: nothing is sent any more, and what came is saved, if that is still possible. */
  method CancelInside(state: StreamState, stream: FrameStream, ev: ChatEvent, at: Point, tracked: bool, steer: nat -> nat)
    requires state.Valid() && stream.Valid() && state.collector.absorbed == stream.seen
    requires CutOf(state) == LastCut(stream.seen, stream.limit, tracked, steer)
    requires state.checks == if tracked then Checks(stream.seen, stream.limit) else 0
    modifies state, state.collector, state.store, stream
    ensures BrokenOff(state, stream.frames, old(stream.seen), CancelledIn(ev, at), stream.limit, tracked, steer)
  {
    hide Text, Calls, Attachments, SegmentsOk, Pending, Utf8Size, Flatten, PlainFrames, Join, StreamedText, Chars,
         LastCut, Checks, ChecksAt, CutOff, CutsAt, RowsHold, RowsRepeat, From;
    var hit;
    ghost var id;
    hit, id := HandleUntil(state, stream, ev, at, tracked, steer);
    if hit && at == Cutting(true) {
      ghost var m := Message(state.TextDelta(), state.ToolsDelta(), [], true);
      ghost var again := state.store.nextId;
      WrittenAgain(state, state.store.rows[again := m], id, again, m);
      RepeatOf(state.before, state.store.rows[again := m], stream.seen, CutOf(state), old(CutOf(state)));
      state.PersistVisiblePartial();
    } else if hit || !ev.DoneEvent? {
      state.PersistVisiblePartial();
      AllAreHeld(state);
    } else if at == Storing(true) {
      var collector := state.collector;
      var id := state.FinalizeTurnPersist(if collector.finalText != "" then collector.finalText else collector.buffer);
    } else {
      HeldIff(state);
    }
  }

  lemma RepeatOf(before: map<nat, Message>, rows: map<nat, Message>, c: seq<ChatEvent>, cut: Cut, other: Cut)
    requires cut.text == other.text && cut.calls == other.calls
    ensures RowsRepeat(before, rows, c, cut) <==> RowsRepeat(before, rows, c, other)
  {
  }

  /** stream_turn. Unless `answered`, the last frame sent is one of the events'. */
  method StreamTurn(store: MessageStore, events: seq<ChatEvent>, ending: Ending, limit: int, tracked: bool, steer: nat -> nat)
    returns (frames: seq<Frame>, answered: bool, state: StreamState)
    requires store.Valid()
    modifies store
    ensures fresh(state) && state.store == store && state.before == old(store.rows)
    ensures answered <==> Closing(events).Some? || Answers(ending)
    ensures answered ==> |frames| > 0
    // A done event: coalesced frames say what plain frames would, one row remains, and the client shows its text.
    ensures Closing(events).Some? && Closing(events).value.DoneEvent? ==>
              var c := Consumed(events);
              var text := StoredText(Closing(events).value.finalText, Text(c));
              && Finished(state, c, text) && Announces(frames[|frames| - 1], store.assistant)
              && ClientText(frames) == WireText(frames) == text
              && Flatten(frames[..|frames| - 1]) == Flatten(PlainFrames(c))
    // An error event: everything was sent; the rows hold what lies in front of the last cut.
    ensures Closing(events).Some? && Closing(events).value.ErrorEvent? ==>
              var c := Consumed(events);
              && state.Valid() && state.collector.absorbed == c
              && Flatten(frames) == Flatten(PlainFrames(c))
              && (state.AllPersisted() <==> CutOff(LastCut(c, limit, tracked, steer), c))
              && (!tracked ==> store.rows == old(store.rows))
    // No closing event: the last frame says done exactly if the probe found the turn completed, and else why it failed.
    ensures Closing(events).None? && answered ==>
              && TellsWhy(ending, frames[|frames| - 1])
              && (frames[|frames| - 1].DoneFrame? <==> ending.ProbeTerminal? && ending.completed)
    // The frames before it account for everything but the text held back.
    ensures Closing(events).None? && !Inside(ending) ==> Accounts(if answered then frames[..|frames| - 1] else frames, events, limit)
    // Interrupted between two events: the partial rows put together hold the whole text and all tool calls.
    ensures Closing(events).None? && SavesPartial(ending) ==> state.AllPersisted() && state.collector.absorbed == events
    // Interrupted inside one: they do exactly if the break did not fall behind the commit of a boundary row.
    ensures Closing(events).None? && Inside(ending) ==> BrokenOff(state, frames, events, ending, limit, tracked, steer)
    // A crash or a stream that just ends: only what lies in front of the last cut.
    ensures Closing(events).None? && KeepsRows(ending) ==>
              && state.Valid() && state.collector.absorbed == events
              && (state.AllPersisted() <==> CutOff(LastCut(events, limit, tracked, steer), events))
              && (!tracked ==> store.rows == old(store.rows))
    // Completed according to the probe: the row is whole, and the client shows its text.
    ensures Closing(events).None? && ending.ProbeTerminal? && ending.completed ==>
              && (Text(events) != "" ==> Finished(state, events, Text(events)))
              && ClientText(frames) == Text(events)
              && (WireText(frames) == Text(events) <==> Pending(events, limit) == "")
  {
    hide Text, Calls, Attachments, Flatten, StreamedText, PlainFrames, ClientText, WireText, Pending, Utf8Size, SegmentsOk, Join, Chars,
         LastCut, CutOff, BrokenOff, Checks, ChecksAt;
    state := new StreamState(store);
    var stream := new FrameStream(limit);
    answered := true;
    var closing := Consume(state, stream, events, tracked, steer);
    if closing.Some? {
      AccountsWhole(stream);
      SavedIff(state);
      if closing.value.DoneEvent? {
        FinishDone(state, stream);
      }
      frames := stream.frames;
      NonEmptyFrames(events, frames);
      return;
    }
    NothingClosed(events);
    if ending.CancelledIn? {
      CancelInside(state, stream, ending.ev, ending.at, tracked, steer);
      frames, answered := stream.frames, false;
      return;
    }
    if ending.AbandonedIn? {
      AbandonInside(state, stream, ending.ev, ending.own, tracked, steer);
      frames, answered := stream.frames, false;
      return;
    }
    ghost var body := stream.frames;
    assert Accounts(body, events, limit);
    answered := BreakOff(state, stream, ending);
    if KeepsRows(ending) {
      SavedIff(state);
    }
    frames := stream.frames;
  }

  lemma {:induction false} NothingClosed(events: seq<ChatEvent>)
    requires Closing(events).None?
    ensures Consumed(events) == events && !AnyDone(events)
  {
    if events != [] {
      hide AnyDone, Closes;
      assert !Closes(events[0]);
      var rest := Consumed(events[1..]);
      assert Consumed(events) == [events[0]] + rest;
      assert rest != [] ==> Consumed(events)[|Consumed(events)| - 1] == rest[|rest| - 1];
      NothingClosed(events[1..]);
      NoneDoneCons(events);
    }
  }

  lemma NoneDoneCons(events: seq<ChatEvent>)
    requires events != [] && !Closes(events[0]) && !AnyDone(events[1..])
    ensures !AnyDone(events)
  {
    assert forall i :: 0 < i < |events| ==> events[i] == events[1..][i - 1];
  }

  lemma NonEmptyFrames(events: seq<ChatEvent>, frames: seq<Frame>)
    requires Closing(events).Some?
    requires Closing(events).value.ErrorEvent? ==> Flatten(frames) == Flatten(PlainFrames(Consumed(events)))
    requires Closing(events).value.DoneEvent? ==> |frames| > 0
    ensures |frames| > 0
  {
    var c := Consumed(events);
    var ev := c[|c| - 1];
    if ev.ErrorEvent? {
      FlattenSnoc(PlainFrames(c[..|c| - 1]), EventFrame(ev));
      assert |Flatten(PlainFrames(c))| > 0;
    }
  }
}
