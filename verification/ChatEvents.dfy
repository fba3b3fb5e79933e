/** Chat events of one turn, and their translation from sidecar notifications (services/codex/events). */
module ChatEvents {
  import opened KeyStore
  import opened PyText

  datatype ToolCall = ToolCall(name: string, args: string)

  datatype ChatEvent =
    | TokenEvent(delta: string)
    | ToolCallEvent(call: ToolCall)
    | ToolResultEvent(name: string, text: string, attachments: seq<string>, error: Option<string>)
    | DoneEvent(finalText: string)
    | ErrorEvent(code: string, detail: Option<string>)

  predicate Closes(ev: ChatEvent) {
    ev.DoneEvent? || ev.ErrorEvent?
  }

  // ---------- what a stream of events says ----------

  function TextOf(ev: ChatEvent): string {
    if ev.TokenEvent? then ev.delta else ""
  }

  /** The streamed text: all deltas, in order. */
  function Text(events: seq<ChatEvent>): string {
    if events == [] then "" else Text(events[..|events| - 1]) + TextOf(events[|events| - 1])
  }

  function Calls(events: seq<ChatEvent>): seq<ToolCall> {
    if events == [] then []
    else
      var ev := events[|events| - 1];
      Calls(events[..|events| - 1]) + (if ev.ToolCallEvent? then [ev.call] else [])
  }

  function Attachments(events: seq<ChatEvent>): seq<string> {
    if events == [] then []
    else
      var ev := events[|events| - 1];
      Attachments(events[..|events| - 1]) + (if ev.ToolResultEvent? then ev.attachments else [])
  }

  lemma {:induction false} TextConcat(a: seq<ChatEvent>, b: seq<ChatEvent>)
    ensures Text(a + b) == Text(a) + Text(b)
  {
    hide TextOf;
    if b == [] {
      assert a + b == a;
    } else {
      var init, last := b[..|b| - 1], TextOf(b[|b| - 1]);
      TextConcat(a, init);
      assert (a + b)[..|a + b| - 1] == a + init;
      assert Text(a) + (Text(init) + last) == (Text(a) + Text(init)) + last;
    }
  }

  // ---------- items and notifications ----------

  datatype Item =
    | AgentMessage(text: string)
    | HiddenItem                      // userMessage, hookPrompt, plan, reasoning, ...
    | BuiltinItem(title: string, args: string, output: string, artifacts: seq<string>, failure: Option<string>)
    | DynamicToolCall(tool: string, toolName: Option<string>, args: string,
                      texts: seq<string>, images: seq<string>, failure: Option<string>)
    | OtherItem(toolName: Option<string>, args: string, output: string, failure: Option<string>)

  datatype Body =
    | TurnStarted
    | AgentMessageDelta(delta: string)
    | ItemStarted(item: Item)
    | ItemCompleted(item: Item)
    | TurnCompleted(error: Option<Option<string>>, failed: bool, finalText: Option<string>)  // an error may lack its message
    | RateLimitsUpdated               // account/rateLimits/updated
    | TokenUsageUpdated               // thread/tokenUsage/updated
    | OtherItemNote                   // any other method that starts with "item/"
    | OtherNote

  datatype Note = Note(turnId: Option<string>, body: Body)

  predicate EndsWith(s: string, t: string) {
    |t| <= |s| && s[|s| - |t|..] == t
  }

  /** _agent_message_to_token: what of a completed message has not been streamed. */
  function AgentMessageToToken(text: string, accumulated: string): Option<ChatEvent> {
    if text == "" || EndsWith(accumulated, text) then None
    else if accumulated <= text then Some(TokenEvent(text[|accumulated|..]))
    else None
  }

  /** "\n\n".join of the parts that are not blank. */
  function Joined(parts: seq<string>): string {
    if parts == [] then ""
    else if AllSpace(parts[0]) then Joined(parts[1..])
    else
      var rest := Joined(parts[1..]);
      if rest == "" then parts[0] else parts[0] + "\n\n" + rest
  }

  function OnItemStarted(item: Item): Option<ChatEvent> {
    match item
    case AgentMessage(_) => None
    case HiddenItem => None
    case BuiltinItem(title, args, _, _, _) => Some(ToolCallEvent(ToolCall(title, args)))
    case DynamicToolCall(_, toolName, args, _, _, _) => GenericToolCall(toolName, args)
    case OtherItem(toolName, args, _, _) => GenericToolCall(toolName, args)
  }

  function GenericToolCall(toolName: Option<string>, args: string): Option<ChatEvent> {
    if toolName.Some? then Some(ToolCallEvent(ToolCall(toolName.value, args))) else None
  }

  function OnItemCompleted(item: Item, accumulated: string): Option<ChatEvent> {
    match item
    case AgentMessage(text) => AgentMessageToToken(text, accumulated)
    case HiddenItem => None
    case BuiltinItem(title, _, output, artifacts, failure) => Some(ToolResultEvent(title, output, artifacts, failure))
    case DynamicToolCall(tool, _, _, texts, images, failure) => Some(ToolResultEvent(tool, Joined(texts), images, failure))
    case OtherItem(toolName, _, output, failure) =>
      if toolName.Some? then Some(ToolResultEvent(toolName.value, output, [], failure)) else None
  }

  const CODEX_ERROR := "codex_error"

  /** translate_notification */
  function Translate(body: Body, accumulated: string): Option<ChatEvent> {
    match body
    case AgentMessageDelta(delta) => if delta == "" then None else Some(TokenEvent(delta))
    case ItemStarted(item) => OnItemStarted(item)
    case ItemCompleted(item) => OnItemCompleted(item, accumulated)
    case TurnCompleted(error, failed, finalText) =>
      if error.Some? then Some(ErrorEvent(CODEX_ERROR, error.value))
      else if failed then Some(ErrorEvent(CODEX_ERROR, Some("Codex turn failed")))
      else Some(DoneEvent(if finalText.Some? then finalText.value else accumulated))
    case _ => None
  }

  // ---------- the events of a turn ----------

  /** The events that the turn's own notes turn into; the first done or error event is the last. */
  function Emitted(notes: seq<Note>, accumulated: string): seq<ChatEvent> {
    if notes == [] then []
    else
      var ev := Translate(notes[0].body, accumulated);
      if ev.None? then Emitted(notes[1..], accumulated)
      else if Closes(ev.value) then [ev.value]
      else [ev.value] + Emitted(notes[1..], accumulated + TextOf(ev.value))
  }

  predicate OnlyLastCloses(events: seq<ChatEvent>) {
    forall i :: 0 <= i < |events| - 1 ==> !Closes(events[i])
  }

  /** A done or error event comes last, if at all. */
  lemma {:induction false} ClosingEventIsLast(notes: seq<Note>, accumulated: string)
    ensures OnlyLastCloses(Emitted(notes, accumulated))
  {
    if notes != [] {
      var ev := Translate(notes[0].body, accumulated);
      if ev.None? {
        ClosingEventIsLast(notes[1..], accumulated);
      } else if !Closes(ev.value) {
        ClosingEventIsLast(notes[1..], accumulated + TextOf(ev.value));
        CloseCons(ev.value, Emitted(notes[1..], accumulated + TextOf(ev.value)));
      }
    }
  }

  lemma CloseCons(ev: ChatEvent, more: seq<ChatEvent>)
    requires !Closes(ev) && OnlyLastCloses(more)
    ensures OnlyLastCloses([ev] + more)
  {
    assert forall i :: 0 < i < |[ev] + more| ==> ([ev] + more)[i] == more[i - 1];
  }

  ghost predicate NoEmptyToken(events: seq<ChatEvent>) {
    forall ev :: ev in events && ev.TokenEvent? ==> ev.delta != ""
  }

  /** No token is empty, neither a delta nor what is left of a completed message. */
  lemma {:induction false} TokensSaySomething(notes: seq<Note>, accumulated: string)
    ensures NoEmptyToken(Emitted(notes, accumulated))
  {
    if notes != [] {
      var ev := Translate(notes[0].body, accumulated);
      TranslatesNoEmptyToken(notes[0].body, accumulated);
      hide Translate;
      if ev.None? {
        TokensSaySomething(notes[1..], accumulated);
      } else if !Closes(ev.value) {
        TokensSaySomething(notes[1..], accumulated + TextOf(ev.value));
      }
    }
  }

  lemma TranslatesNoEmptyToken(body: Body, accumulated: string)
    ensures Translate(body, accumulated).Some? ==> NoEmptyToken([Translate(body, accumulated).value])
  {
  }

  /** The text accumulated when the notes are through, or the turn is closed. */
  function TextAfter(notes: seq<Note>, accumulated: string): string {
    if notes == [] then accumulated
    else
      var ev := Translate(notes[0].body, accumulated);
      if ev.None? then TextAfter(notes[1..], accumulated)
      else if Closes(ev.value) then accumulated
      else TextAfter(notes[1..], accumulated + TextOf(ev.value))
  }

  /** Exactly the emitted deltas accumulate. */
  lemma {:induction false} EmittedDeltasAccumulate(notes: seq<Note>, accumulated: string)
    ensures TextAfter(notes, accumulated) == accumulated + Text(Emitted(notes, accumulated))
  {
    hide Translate;
    if notes == [] {
      assert accumulated + "" == accumulated;
    } else {
      var ev := Translate(notes[0].body, accumulated);
      if ev.None? {
        EmittedDeltasAccumulate(notes[1..], accumulated);
      } else {
        TextOfOne(ev.value);
        assert Closes(ev.value) ==> accumulated + TextOf(ev.value) == accumulated;
        if !Closes(ev.value) {
          var more := Emitted(notes[1..], accumulated + TextOf(ev.value));
          EmittedDeltasAccumulate(notes[1..], accumulated + TextOf(ev.value));
          TextConcat([ev.value], more);
          Associative(accumulated, TextOf(ev.value), Text(more));
        }
      }
    }
  }

  lemma Associative<T>(a: seq<T>, b: seq<T>, c: seq<T>)
    ensures (a + b) + c == a + (b + c)
  {
  }

  lemma TextOfOne(ev: ChatEvent)
    ensures Text([ev]) == TextOf(ev)
  {
    assert [ev][..0] == [];
    assert Text([ev]) == "" + TextOf(ev);
  }

  /** If turn/completed carries no text of its own, the done event carries exactly the text streamed before it. */
  lemma {:induction false} DefaultFinalTextIsStreamed(notes: seq<Note>, accumulated: string)
    requires forall n :: n in notes && n.body.TurnCompleted? ==> n.body.finalText.None?
    ensures var events := Emitted(notes, accumulated);
      events != [] && events[|events| - 1].DoneEvent? ==> events[|events| - 1].finalText == TextAfter(notes, accumulated)
  {
    if notes != [] {
      var ev := Translate(notes[0].body, accumulated);
      assert notes[0] in notes;
      if ev.None? {
        DefaultFinalTextIsStreamed(notes[1..], accumulated);
      } else if !Closes(ev.value) {
        DefaultFinalTextIsStreamed(notes[1..], accumulated + TextOf(ev.value));
      }
    }
  }

  // ---------- how a turn is closed ----------

  /** The first turn/completed among the notes. */
  function FirstCompletion(notes: seq<Note>): Option<Body> {
    if notes == [] then None
    else if notes[0].body.TurnCompleted? then Some(notes[0].body)
    else FirstCompletion(notes[1..])
  }

  /** What a turn/completed means: an error wins over a failed status, and only without either is the turn done. */
  predicate ClosesAs(body: Body, last: ChatEvent, streamed: string)
    requires body.TurnCompleted?
  {
    match body.error
    case Some(message) => last == ErrorEvent("codex_error", message)
    case None =>
      if body.failed then last == ErrorEvent("codex_error", Some("Codex turn failed"))
      else last == DoneEvent(match body.finalText case Some(text) => text case None => streamed)
  }

  predicate NothingCloses(events: seq<ChatEvent>) {
    forall i :: 0 <= i < |events| ==> !events[i].DoneEvent? && !events[i].ErrorEvent?
  }

  /** The events end as the first completion says, and with nothing closed if there is none. */
  ghost predicate EndAsTold(events: seq<ChatEvent>, completion: Option<Body>, before: string)
    requires completion.Some? ==> completion.value.TurnCompleted?
  {
    match completion
    case None => NothingCloses(events)
    case Some(body) =>
      && events != []
      && NothingCloses(events[..|events| - 1])
      && ClosesAs(body, events[|events| - 1], before + Text(events[..|events| - 1]))
  }

  lemma FirstCompletionIs(notes: seq<Note>)
    ensures FirstCompletion(notes).Some? ==> FirstCompletion(notes).value.TurnCompleted?
  {
  }

  /** A turn ends with done or error exactly as its first turn/completed says, whatever else its notes hold. */
  lemma {:induction false} ClosedByCompletion(notes: seq<Note>, accumulated: string)
    ensures FirstCompletion(notes).Some? ==> FirstCompletion(notes).value.TurnCompleted?
    ensures EndAsTold(Emitted(notes, accumulated), FirstCompletion(notes), accumulated)
  {
    FirstCompletionIs(notes);
    if notes != [] {
      hide OnItemStarted, OnItemCompleted, Text;
      var body, rest := notes[0].body, notes[1..];
      var ev := Translate(body, accumulated);
      if body.TurnCompleted? {
        CompletionCloses(body, accumulated);
      } else {
        OthersGoOn(body, accumulated);
        if ev.None? {
          ClosedByCompletion(rest, accumulated);
        } else {
          ClosedByCompletion(rest, accumulated + TextOf(ev.value));
          ToldCons(ev.value, Emitted(rest, accumulated + TextOf(ev.value)), FirstCompletion(rest), accumulated);
        }
      }
    }
  }

  lemma CompletionCloses(body: Body, accumulated: string)
    requires body.TurnCompleted?
    ensures var ev := Translate(body, accumulated);
      ev.Some? && Closes(ev.value) && EndAsTold([ev.value], Some(body), accumulated)
  {
    assert accumulated + "" == accumulated;
  }

  lemma OthersGoOn(body: Body, accumulated: string)
    requires !body.TurnCompleted?
    ensures var ev := Translate(body, accumulated);
      ev.Some? ==> !Closes(ev.value) && !ev.value.DoneEvent? && !ev.value.ErrorEvent?
  {
  }

  lemma ToldCons(ev: ChatEvent, more: seq<ChatEvent>, completion: Option<Body>, before: string)
    requires completion.Some? ==> completion.value.TurnCompleted?
    requires !ev.DoneEvent? && !ev.ErrorEvent? && EndAsTold(more, completion, before + TextOf(ev))
    ensures EndAsTold([ev] + more, completion, before)
  {
    hide Text;
    var all := [ev] + more;
    assert forall i :: 0 < i < |all| ==> all[i] == more[i - 1];
    if completion.Some? {
      var init := more[..|more| - 1];
      assert all[..|all| - 1] == [ev] + init;
      assert forall i :: 0 < i < |[ev] + init| ==> ([ev] + init)[i] == init[i - 1];
      TextOfOne(ev);
      TextConcat([ev], init);
      Associative(before, TextOf(ev), Text(init));
    }
  }

  // ---------- tools ----------

  /**
    What a client sees of a tool: every item but a message shows as a result under the name under which it
    showed as a call, and not at all exactly if it did not; only a dynamic call always shows its result, named
    after its tool, with its images.
  */
  lemma CallsMatchResults(item: Item, accumulated: string)
    requires !item.AgentMessage?
    ensures var call, result := OnItemStarted(item), OnItemCompleted(item, accumulated);
      && (call.Some? ==> call.value.ToolCallEvent?) && (result.Some? ==> result.value.ToolResultEvent?)
      && (!item.DynamicToolCall? ==> (call.Some? <==> result.Some?))
      && (!item.DynamicToolCall? && call.Some? ==> call.value.call.name == result.value.name)
      && (item.DynamicToolCall? ==> result.Some? && result.value.name == item.tool && result.value.attachments == item.images)
      && (item.BuiltinItem? ==> call == Some(ToolCallEvent(ToolCall(item.title, item.args))) && result.value.attachments == item.artifacts)
      && (item.HiddenItem? ==> call.None?)
      && (call.Some? && !item.HiddenItem? ==> call.value.call.args == item.args)
      && (result.Some? && !item.HiddenItem? ==>
            result.value.error == item.failure
            && result.value.text == if item.DynamicToolCall? then Joined(item.texts) else item.output)
  {
  }

  /** The texts of a dynamic call: what is not blank, in order, with an empty line between. */
  lemma {:induction false} JoinedConcat(a: seq<string>, b: seq<string>)
    ensures Joined(a + b) == if Joined(a) == "" then Joined(b)
                             else if Joined(b) == "" then Joined(a)
                             else Joined(a) + "\n\n" + Joined(b)
  {
    if a == [] {
      assert a + b == b;
    } else {
      JoinedConcat(a[1..], b);
      assert (a + b)[1..] == a[1..] + b;
      assert !AllSpace(a[0]) ==> a[0] != "";
      if !AllSpace(a[0]) && Joined(a[1..]) != "" && Joined(b) != "" {
        assert a[0] + "\n\n" + (Joined(a[1..]) + "\n\n" + Joined(b)) == (a[0] + "\n\n" + Joined(a[1..])) + "\n\n" + Joined(b);
      }
    }
  }

  lemma JoinedOfOne(text: string)
    ensures Joined([text]) == if AllSpace(text) then "" else text
  {
    assert [text][1..] == [];
  }

  // ---------- lost deltas ----------

  /** A message streamed in pieces, and the notes that follow it. */
  function DeltasThen(pieces: seq<string>, rest: seq<Note>): seq<Note> {
    if pieces == [] then rest else [Note(None, AgentMessageDelta(pieces[0]))] + DeltasThen(pieces[1..], rest)
  }

  function Joint(accumulated: string, pieces: seq<string>): string
    decreases |pieces|
  {
    if pieces == [] then accumulated else Joint(accumulated + pieces[0], pieces[1..])
  }

  /** The text accumulated after a completed message. */
  function AfterMessage(message: string, accumulated: string): string {
    var ev := AgentMessageToToken(message, accumulated);
    if ev.Some? then accumulated + TextOf(ev.value) else accumulated
  }

  /**
    The turn's first message, of which some deltas are delivered, in whatever pieces, before item/completed: it
    comes out whole exactly if what was delivered is a prefix. A delta lost from the middle is not made up for.
  */
  lemma FirstMessageRestoredIff(pieces: seq<string>, message: string)
    ensures TextAfter(DeltasThen(pieces, [Note(None, ItemCompleted(AgentMessage(message)))]), "") == message
       <==> Joint("", pieces) <= message
  {
    StreamedDeltas(pieces, [Note(None, ItemCompleted(AgentMessage(message)))], "");
    CompletedMessage(message, Joint("", pieces));
    FirstRestoredIffPrefix(Joint("", pieces), message);
  }

  lemma CompletedMessage(message: string, accumulated: string)
    ensures TextAfter([Note(None, ItemCompleted(AgentMessage(message)))], accumulated) == AfterMessage(message, accumulated)
  {
    var notes := [Note(None, ItemCompleted(AgentMessage(message)))];
    assert notes[1..] == [];
  }

  lemma FirstRestoredIffPrefix(delivered: string, message: string)
    ensures AfterMessage(message, delivered) == message <==> delivered <= message
  {
    if delivered <= message {
      assert delivered + message[|delivered|..] == message;
    }
    assert |delivered| == |message| ==> delivered[0..] == delivered;
  }

  /** A run of deltas adds its pieces to what was accumulated, and the rest of the notes goes on from there. */
  lemma {:induction false} StreamedDeltas(pieces: seq<string>, rest: seq<Note>, accumulated: string)
    ensures TextAfter(DeltasThen(pieces, rest), accumulated) == TextAfter(rest, Joint(accumulated, pieces))
  {
    if pieces != [] {
      var notes := DeltasThen(pieces, rest);
      assert notes[1..] == DeltasThen(pieces[1..], rest);
      assert pieces[0] == "" ==> accumulated + pieces[0] == accumulated;
      StreamedDeltas(pieces[1..], rest, accumulated + pieces[0]);
    }
  }

  /**
    Exactly when a message comes out right behind earlier text, whatever `part` of it arrived: if nothing was
    missing, or if it is the first text of the turn and what arrived is a prefix. For a later message the
    fallback never supplies what was lost.
  */
  lemma RestoredIff(earlier: string, part: string, message: string)
    ensures AfterMessage(message, earlier + part) == earlier + message <==> part == message || (earlier == "" && part <= message)
  {
    var acc := earlier + part;
    assert acc[|earlier|..] == part;
    if earlier == "" {
      assert acc == part && earlier + message == message;
      FirstRestoredIffPrefix(part, message);
    } else if part == message {
      assert EndsWith(acc, message);
    } else {
      assert acc != earlier + message by {
        assert (earlier + message)[|earlier|..] == message;
      }
      if acc <= message {
        assert AfterMessage(message, acc) == acc || AfterMessage(message, acc) == message by {
          assert acc + message[|acc|..] == message;
        }
        assert |earlier + message| > |message|;
      }
    }
  }
}
