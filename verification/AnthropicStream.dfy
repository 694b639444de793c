/** Anthropic responses, whole and streamed: the event decoder with the agent's accumulator builds the same
    assistant message as the one-shot conversion. */
module AnthropicStream {
  import opened Messages

  const TOOL_USE := "tool_use"
  const MAX_TOOL_CALLS := 128

  /** A content block of a complete response. */
  datatype Block = TextBlock(text: string) | ToolUse(id: string, name: string, input: string) | OtherBlock(kind: string)

  datatype Delta = TextDelta(text: string) | InputJson(json: string) | ThinkingDelta(text: string) | OtherDelta

  /** A decoded server-sent event. Ignored stands for pings, block stops and undecodable block events. */
  datatype Event =
    | MessageStart(inputTokens: int)
    | BlockStart(index: int, kind: string, id: string, name: string)
    | BlockDelta(index: int, delta: Delta)
    | MessageDelta(outputTokens: int)
    | MessageStop
    | ErrorEvent
    | Ignored

  /** What the stream hands to its reader. */
  datatype Chunk =
    | TextChunk(text: string)
    | CallChunk(index: nat, id: string, kind: string, name: string, arguments: string)

  datatype Output = Silent | Emit(chunk: Chunk) | Stop | Fail

  // ---------------------------------------------------------------- one-shot conversion

  function CallOf(b: Block): seq<ToolCall> {
    if b.ToolUse? then [ToolCall(b.id, FUNCTION, b.name, if |b.input| > 0 then b.input else "{}")] else []
  }

  function CallsOf(blocks: seq<Block>): seq<ToolCall> {
    if blocks == [] then [] else CallsOf(blocks[..|blocks| - 1]) + CallOf(blocks[|blocks| - 1])
  }

  function TextOf(blocks: seq<Block>): string {
    if blocks == [] then ""
    else TextOf(blocks[..|blocks| - 1]) + if blocks[|blocks| - 1].TextBlock? then blocks[|blocks| - 1].text else ""
  }

  lemma CallsOfSnoc(blocks: seq<Block>, b: Block)
    ensures CallsOf(blocks + [b]) == CallsOf(blocks) + CallOf(b)
    ensures TextOf(blocks + [b]) == TextOf(blocks) + if b.TextBlock? then b.text else ""
  {
    assert (blocks + [b])[..|blocks|] == blocks;
  }

  lemma OneBlockMore(blocks: seq<Block>, i: nat)
    requires i < |blocks|
    ensures CallsOf(blocks[..i + 1]) == CallsOf(blocks[..i]) + CallOf(blocks[i])
    ensures TextOf(blocks[..i + 1]) == TextOf(blocks[..i]) + if blocks[i].TextBlock? then blocks[i].text else ""
  {
    assert blocks[..i + 1][..i] == blocks[..i];
  }

  method ConvertResponse(content: seq<Block>) returns (msg: Message)
    ensures msg == AssistantMessage(TextOf(content), CallsOf(content))
  {
    var text, toolCalls := "", [];
    for i := 0 to |content|
      invariant text == TextOf(content[..i]) && toolCalls == CallsOf(content[..i])
    {
      var block := content[i];
      OneBlockMore(content, i);
      match block {
        case TextBlock(t) =>
          text := text + t;
        case ToolUse(id, name, input) =>
          var args := "{}";
          if |input| > 0 {
            args := input;
          }
          toolCalls := toolCalls + [ToolCall(id, FUNCTION, name, args)];
        case OtherBlock(_) =>
          assert text + "" == text && toolCalls + [] == toolCalls;
      }
    }
    assert content[..|content|] == content;
    return AssistantMessage(text, toolCalls);
  }

  // ---------------------------------------------------------------- the stream decoder

  datatype StreamState = StreamState(blockType: map<int, string>, blockToolIdx: map<int, nat>, toolCount: nat,
                                     inputTokens: int, outputTokens: int)

  const FRESH := StreamState(map[], map[], 0, 0, 0)

  function Emits(s: StreamState, ev: Event): Output {
    match ev
    case MessageStop => Stop
    case ErrorEvent => Fail
    case BlockStart(_, kind, id, name) =>
      if kind == TOOL_USE then Emit(CallChunk(s.toolCount, id, FUNCTION, name, "")) else Silent
    case BlockDelta(_, TextDelta(text)) => if text == "" then Silent else Emit(TextChunk(text))
    case BlockDelta(index, InputJson(json)) =>
      if index in s.blockToolIdx then Emit(CallChunk(s.blockToolIdx[index], "", "", "", json)) else Silent
    case _ => Silent
  }

  function After(s: StreamState, ev: Event): StreamState {
    match ev
    case BlockStart(index, kind, _, _) =>
      var s' := s.(blockType := s.blockType[index := kind]);
      if kind == TOOL_USE then s'.(blockToolIdx := s.blockToolIdx[index := s.toolCount], toolCount := s.toolCount + 1)
      else s'
    case MessageStart(tokens) => s.(inputTokens := tokens)
    case MessageDelta(tokens) => s.(outputTokens := tokens)
    case _ => s
  }

  class Decoder {
    var blockType: map<int, string>
    var blockToolIdx: map<int, nat>
    var toolCount: nat
    var inputTokens: int
    var outputTokens: int

    constructor ()
      ensures View() == FRESH
    {
      blockType, blockToolIdx, toolCount, inputTokens, outputTokens := map[], map[], 0, 0, 0;
    }

    ghost function View(): StreamState
      reads this
    {
      StreamState(blockType, blockToolIdx, toolCount, inputTokens, outputTokens)
    }

    method ProcessEvent(ev: Event) returns (out: Output)
      modifies this
      ensures View() == After(old(View()), ev) && out == Emits(old(View()), ev)
    {
      match ev {
        case MessageStop =>
          return Stop;
        case BlockStart(index, kind, id, name) =>
          blockType := blockType[index := kind];
          if kind == TOOL_USE {
            var toolIdx := toolCount;
            blockToolIdx := blockToolIdx[index := toolIdx];
            toolCount := toolCount + 1;
            return Emit(CallChunk(toolIdx, id, FUNCTION, name, ""));
          }
          return Silent;
        case BlockDelta(index, delta) =>
          match delta {
            case TextDelta(text) =>
              if text == "" {
                return Silent;
              }
              return Emit(TextChunk(text));
            case InputJson(json) =>
              if index !in blockToolIdx {
                return Silent;
              }
              return Emit(CallChunk(blockToolIdx[index], "", "", "", json));
            case _ =>
              return Silent;
          }
        case MessageStart(tokens) =>
          inputTokens := tokens;
          return Silent;
        case MessageDelta(tokens) =>
          outputTokens := tokens;
          return Silent;
        case ErrorEvent =>
          return Fail;
        case Ignored =>
          return Silent;
      }
    }
  }

  // ---------------------------------------------------------------- the accumulator

  const EMPTY_CALL := ToolCall("", "", "", "")

  function Pad(calls: seq<ToolCall>, i: nat): (r: seq<ToolCall>)
    ensures |r| > i && calls <= r
    decreases i + 1 - |calls|
  {
    if |calls| > i then calls else Pad(calls + [EMPTY_CALL], i)
  }

  function MergeCall(call: ToolCall, c: Chunk): ToolCall
    requires c.CallChunk?
  {
    ToolCall(if c.id != "" then c.id else call.id, if c.kind != "" then c.kind else call.kind,
             if c.name != "" then c.name else call.name, call.arguments + c.arguments)
  }

  datatype Accumulated = Accumulated(content: string, calls: seq<ToolCall>)

  function Merge(acc: Accumulated, c: Chunk): Accumulated {
    match c
    case TextChunk(text) => acc.(content := acc.content + text)
    case CallChunk(i, _, _, _, _) =>
      if i >= MAX_TOOL_CALLS then acc
      else
        var padded := Pad(acc.calls, i);
        acc.(calls := padded[i := MergeCall(padded[i], c)])
  }

  /** Slots that received neither a name nor arguments are dropped; missing IDs are made up. */
  function RealCalls(calls: seq<ToolCall>, newId: nat -> string): seq<ToolCall> {
    if calls == [] then []
    else
      var init, tc := RealCalls(calls[..|calls| - 1], newId), calls[|calls| - 1];
      if tc.name == "" && tc.arguments == "" then init
      else init + [if tc.id == "" then tc.(id := newId(|calls| - 1)) else tc]
  }

  datatype Phase = Open | Ended | Broken

  /** The caller's loop: the decoder, what has been accumulated, and whether the stream is still open. */
  datatype Caller = Caller(stream: StreamState, acc: Accumulated, phase: Phase)

  function Feed(c: Caller, ev: Event): Caller {
    if !c.phase.Open? then c
    else
      var next := c.(stream := After(c.stream, ev));
      match Emits(c.stream, ev)
      case Silent => next
      case Emit(chunk) => next.(acc := Merge(c.acc, chunk))
      case Stop => next.(phase := Ended)
      case Fail => next.(phase := Broken)
  }

  function FeedAll(c: Caller, events: seq<Event>): Caller
    decreases |events|
  {
    if events == [] then c else FeedAll(Feed(c, events[0]), events[1..])
  }

  const START := Caller(FRESH, Accumulated("", []), Open)

  datatype CallResult = Failed | Reply(msg: Message)

  function Outcome(c: Caller, newId: nat -> string): CallResult {
    if c.phase.Broken? then Failed else Reply(AssistantMessage(c.acc.content, RealCalls(c.acc.calls, newId)))
  }

  lemma {:induction false} ClosedStaysClosed(c: Caller, events: seq<Event>)
    requires !c.phase.Open?
    ensures FeedAll(c, events) == c
    decreases |events|
  {
    if events != [] {
      ClosedStaysClosed(c, events[1..]);
    }
  }

  /** The inner loop of the accumulator for one chunk. */
  method Absorb(content: string, toolCalls: seq<ToolCall>, chunk: Chunk)
    returns (content': string, toolCalls': seq<ToolCall>)
    ensures Accumulated(content', toolCalls') == Merge(Accumulated(content, toolCalls), chunk)
  {
    content', toolCalls' := content, toolCalls;
    match chunk {
      case TextChunk(text) =>
        content' := content' + text;
      case CallChunk(i, id, kind, name, arguments) =>
        if i < MAX_TOOL_CALLS {
          while |toolCalls'| <= i
            invariant Pad(toolCalls', i) == Pad(toolCalls, i)
            decreases i + 1 - |toolCalls'|
          {
            toolCalls' := toolCalls' + [EMPTY_CALL];
          }
          var existing := toolCalls'[i];
          if id != "" {
            existing := existing.(id := id);
          }
          if kind != "" {
            existing := existing.(kind := kind);
          }
          if name != "" {
            existing := existing.(name := name);
          }
          existing := existing.(arguments := existing.arguments + arguments);
          toolCalls' := toolCalls'[i := existing];
        }
    }
  }

  /** Reads a stream to its end and assembles the assistant message. */
  method StreamModelCall(events: seq<Event>, newId: nat -> string) returns (r: CallResult)
    ensures r == Outcome(FeedAll(START, events), newId)
  {
    var stream := new Decoder();
    var content, toolCalls := "", [];
    var i := 0;
    while i < |events|
      invariant 0 <= i <= |events|
      invariant FeedAll(START, events)
                == FeedAll(Caller(stream.View(), Accumulated(content, toolCalls), Open), events[i..])
    {
      ghost var c := Caller(stream.View(), Accumulated(content, toolCalls), Open);
      assert events[i..][0] == events[i] && events[i..][1..] == events[i + 1..];
      var out := stream.ProcessEvent(events[i]);
      match out {
        case Silent =>
        case Emit(chunk) =>
          content, toolCalls := Absorb(content, toolCalls, chunk);
        case Stop =>
          ClosedStaysClosed(Feed(c, events[i]), events[i + 1..]);
          break;
        case Fail =>
          ClosedStaysClosed(Feed(c, events[i]), events[i + 1..]);
          return Failed;
      }
      i := i + 1;
    }
    var kept := [];
    for k := 0 to |toolCalls|
      invariant kept == RealCalls(toolCalls[..k], newId)
    {
      var tc := toolCalls[k];
      assert toolCalls[..k + 1][..k] == toolCalls[..k];
      if !(tc.name == "" && tc.arguments == "") {
        if tc.id == "" {
          tc := tc.(id := newId(k));
        }
        kept := kept + [tc];
      }
    }
    assert toolCalls[..|toolCalls|] == toolCalls;
    return Reply(AssistantMessage(content, kept));
  }

  /** A tool call has been started under the index. */
  ghost predicate CallStarted(events: seq<Event>, index: int) {
    exists i :: 0 <= i < |events| && events[i].BlockStart? && events[i].index == index && events[i].kind == TOOL_USE
  }

  lemma {:induction false} IndexIsStarted(c: Caller, events: seq<Event>, index: int)
    ensures index in FeedAll(c, events).stream.blockToolIdx ==>
              index in c.stream.blockToolIdx || CallStarted(events, index)
    decreases |events|
  {
    if events != [] {
      var rest := events[1..];
      IndexIsStarted(Feed(c, events[0]), rest, index);
      if i :| 0 <= i < |rest| && rest[i].BlockStart? && rest[i].index == index && rest[i].kind == TOOL_USE {
        assert events[i + 1] == rest[i];
      }
      assert events[0].BlockStart? && events[0].index == index && events[0].kind == TOOL_USE ==>
          CallStarted(events, index);
    }
  }

  /** Input for an index under which no tool call has been started is dropped. */
  lemma StrayInputIsDropped(events: seq<Event>, index: int, json: string)
    requires !CallStarted(events, index)
    ensures FeedAll(START, events + [BlockDelta(index, InputJson(json))]) == FeedAll(START, events)
  {
    var c, ev := FeedAll(START, events), BlockDelta(index, InputJson(json));
    FeedConcat(START, events, [ev]);
    IndexIsStarted(START, events, index);
    assert FeedAll(c, [ev]) == Feed(c, ev);
  }

  /** What an event leaves in the decoder besides the tool calls: the kind of a block and the token counts. */
  lemma DecoderRemembers(s: StreamState, index: int, kind: string, id: string, name: string, tokens: int)
    ensures After(s, BlockStart(index, kind, id, name)).blockType == s.blockType[index := kind]
    ensures After(s, MessageStart(tokens)) == s.(inputTokens := tokens)
    ensures After(s, MessageDelta(tokens)) == s.(outputTokens := tokens)
  {
  }

  /** Event i is an error, and the stream has not ended before it. */
  ghost predicate FirstError(events: seq<Event>, i: int) {
    0 <= i < |events| && events[i].ErrorEvent? && forall j :: 0 <= j < i ==> !events[j].MessageStop?
  }

  lemma {:induction false} BreaksIff(c: Caller, events: seq<Event>)
    requires c.phase.Open?
    ensures FeedAll(c, events).phase.Broken? <==> exists i :: FirstError(events, i)
    decreases |events|
  {
    if events != [] {
      var rest := events[1..];
      if Feed(c, events[0]).phase.Open? {
        BreaksIff(Feed(c, events[0]), rest);
        if i :| FirstError(events, i) {
          assert FirstError(rest, i - 1);
        }
        if i :| FirstError(rest, i) {
          assert FirstError(events, i + 1);
        }
      } else {
        ClosedStaysClosed(Feed(c, events[0]), rest);
        assert events[0].ErrorEvent? ==> FirstError(events, 0);
      }
    }
  }

  /** A streamed call fails exactly when an error arrives before the end of the message; a stream that just stops gives
      what has arrived. */
  lemma StreamFailsIff(events: seq<Event>, newId: nat -> string)
    ensures Outcome(FeedAll(START, events), newId).Failed? <==> exists i :: FirstError(events, i)
  {
    BreaksIff(START, events);
  }

  // ---------------------------------------------------------------- streaming refines the one-shot form

  /** One block on the wire: noise, its start event, and its deltas mixed with noise. */
  datatype Sent = Sent(before: seq<Event>, index: int, block: Block, body: seq<Event>)

  predicate Noise(ev: Event) {
    match ev
    case MessageStart(_) | MessageDelta(_) | Ignored => true
    case BlockDelta(_, delta) => delta.ThinkingDelta? || delta.OtherDelta? || delta == TextDelta("")
    case _ => false
  }

  /** The event carries part of the block's payload. */
  predicate Carries(s: Sent, ev: Event) {
    match s.block
    case TextBlock(_) => ev.BlockDelta? && ev.delta.TextDelta?
    case ToolUse(_, _, _) => ev.BlockDelta? && ev.index == s.index && ev.delta.InputJson?
    case OtherBlock(_) => false
  }

  function Payload(s: Sent, body: seq<Event>): string {
    if body == [] then ""
    else (if !Carries(s, body[0]) then ""
          else if body[0].delta.TextDelta? then body[0].delta.text else body[0].delta.json)
         + Payload(s, body[1..])
  }

  function KindOf(b: Block): string {
    match b
    case TextBlock(_) => "text"
    case ToolUse(_, _, _) => TOOL_USE
    case OtherBlock(kind) => kind
  }

  function StartEvent(s: Sent): Event {
    match s.block
    case ToolUse(id, name, _) => BlockStart(s.index, TOOL_USE, id, name)
    case b => BlockStart(s.index, KindOf(b), "", "")
  }

  /** The wire form is faithful: only noise and the block's own deltas, whose pieces join to its payload. */
  ghost predicate Faithful(s: Sent) {
    && (forall ev :: ev in s.before ==> Noise(ev))
    && (forall ev :: ev in s.body ==> Noise(ev) || Carries(s, ev))
    && (s.block.TextBlock? ==> Payload(s, s.body) == s.block.text)
    && (s.block.ToolUse? ==> Payload(s, s.body) == s.block.input)
    && (s.block.OtherBlock? ==> s.block.kind != TOOL_USE)
  }

  function Wire(sents: seq<Sent>): seq<Event> {
    if sents == [] then []
    else Wire(sents[..|sents| - 1]) + Single(sents[|sents| - 1])
  }

  function Single(s: Sent): seq<Event> {
    s.before + [StartEvent(s)] + s.body
  }

  function BlocksOf(sents: seq<Sent>): seq<Block> {
    seq(|sents|, i requires 0 <= i < |sents| => sents[i].block)
  }

  /** The tool calls of the blocks with their inputs as sent, none defaulted. */
  function RawCalls(blocks: seq<Block>): seq<ToolCall> {
    if blocks == [] then []
    else
      var b := blocks[|blocks| - 1];
      RawCalls(blocks[..|blocks| - 1]) + if b.ToolUse? then [ToolCall(b.id, FUNCTION, b.name, b.input)] else []
  }

  function Capped(calls: seq<ToolCall>): seq<ToolCall> {
    if |calls| <= MAX_TOOL_CALLS then calls else calls[..MAX_TOOL_CALLS]
  }

  lemma {:induction false} FeedConcat(c: Caller, a: seq<Event>, b: seq<Event>)
    ensures FeedAll(c, a + b) == FeedAll(FeedAll(c, a), b)
    decreases |a|
  {
    if a == [] {
      assert a + b == b;
    } else {
      assert (a + b)[1..] == a[1..] + b;
      FeedConcat(Feed(c, a[0]), a[1..], b);
    }
  }

  ghost predicate SameUpToTokens(c: Caller, d: Caller) {
    && c.acc == d.acc && c.phase == d.phase
    && c.stream.blockToolIdx == d.stream.blockToolIdx && c.stream.toolCount == d.stream.toolCount
  }

  lemma {:induction false} NoiseIsSilent(c: Caller, events: seq<Event>)
    requires c.phase.Open? && forall ev :: ev in events ==> Noise(ev)
    ensures SameUpToTokens(FeedAll(c, events), c)
    decreases |events|
  {
    if events != [] {
      assert Noise(events[0]);
      NoiseIsSilent(Feed(c, events[0]), events[1..]);
    }
  }

  /** Text deltas and noise: only the content grows, by the payload. */
  lemma {:induction false} TextBody(c: Caller, s: Sent, body: seq<Event>)
    requires c.phase.Open? && s.block.TextBlock? && forall ev :: ev in body ==> Noise(ev) || Carries(s, ev)
    ensures SameUpToTokens(FeedAll(c, body), c.(acc := c.acc.(content := c.acc.content + Payload(s, body))))
    decreases |body|
  {
    if body == [] {
      assert c.acc.content + "" == c.acc.content;
    } else {
      assert body[0] in body;
      TextBody(Feed(c, body[0]), s, body[1..]);
      var piece := if Carries(s, body[0]) then body[0].delta.text else "";
      assert (c.acc.content + piece) + Payload(s, body[1..]) == c.acc.content + (piece + Payload(s, body[1..]));
      assert c.acc.content + "" == c.acc.content;
    }
  }

  function GrowLast(calls: seq<ToolCall>, i: nat, more: string): seq<ToolCall>
    requires i < MAX_TOOL_CALLS ==> i < |calls|
  {
    if i < MAX_TOOL_CALLS then calls[i := calls[i].(arguments := calls[i].arguments + more)] else calls
  }

  /** Input deltas of tool call i and noise: only that call's arguments grow, by the payload. */
  lemma {:induction false} InputBody(c: Caller, s: Sent, i: nat, body: seq<Event>)
    requires c.phase.Open? && s.block.ToolUse? && forall ev :: ev in body ==> Noise(ev) || Carries(s, ev)
    requires s.index in c.stream.blockToolIdx && c.stream.blockToolIdx[s.index] == i
    requires i < MAX_TOOL_CALLS ==> i < |c.acc.calls|
    ensures SameUpToTokens(FeedAll(c, body), c.(acc := c.acc.(calls := GrowLast(c.acc.calls, i, Payload(s, body)))))
    decreases |body|
  {
    if body == [] {
      if i < MAX_TOOL_CALLS {
        assert c.acc.calls[i].arguments + "" == c.acc.calls[i].arguments;
      }
    } else {
      assert body[0] in body;
      var next, rest := Feed(c, body[0]), Payload(s, body[1..]);
      InputBody(next, s, i, body[1..]);
      if i < MAX_TOOL_CALLS {
        var args := c.acc.calls[i].arguments;
        var piece := if Carries(s, body[0]) then body[0].delta.json else "";
        assert (args + piece) + rest == args + (piece + rest);
        assert args + "" == args;
        assert next.acc.calls == GrowLast(c.acc.calls, i, piece);
      }
    }
  }

  /** One block sent: the accumulated text and calls grow by that block alone. */
  lemma SentBlock(c: Caller, s: Sent)
    requires c.phase.Open? && Faithful(s)
    requires |c.acc.calls| == if c.stream.toolCount < MAX_TOOL_CALLS then c.stream.toolCount else MAX_TOOL_CALLS
    ensures var d := FeedAll(c, Single(s));
            && d.phase.Open?
            && d.acc.content == c.acc.content + (if s.block.TextBlock? then s.block.text else "")
            && d.stream.toolCount == c.stream.toolCount + (if s.block.ToolUse? then 1 else 0)
            && d.acc.calls == c.acc.calls +
                 if s.block.ToolUse? && c.stream.toolCount < MAX_TOOL_CALLS
                 then [ToolCall(s.block.id, FUNCTION, s.block.name, s.block.input)] else []
  {
    SentParts(c, s);
    match s.block {
      case TextBlock(_) =>
        var c2 := Feed(FeedAll(c, s.before), StartEvent(s));
        TextBody(c2, s, s.body);
      case OtherBlock(_) =>
        NoiseIsSilent(Feed(FeedAll(c, s.before), StartEvent(s)), s.body);
        assert c.acc.content + "" == c.acc.content;
      case ToolUse(id, name, input) =>
        SentCall(c, s);
    }
  }

  /** Noise, the start of the block, its body. */
  lemma SentParts(c: Caller, s: Sent)
    requires c.phase.Open? && Faithful(s)
    ensures FeedAll(c, Single(s)) == FeedAll(Feed(FeedAll(c, s.before), StartEvent(s)), s.body)
    ensures SameUpToTokens(FeedAll(c, s.before), c)
  {
    FeedConcat(c, s.before + [StartEvent(s)], s.body);
    FeedConcat(c, s.before, [StartEvent(s)]);
    NoiseIsSilent(c, s.before);
    var c1 := FeedAll(c, s.before);
    assert FeedAll(c1, [StartEvent(s)]) == Feed(c1, StartEvent(s));
  }

  /** The start of a tool call opens its slot, unless there are too many. */
  lemma CallStart(c1: Caller, s: Sent)
    requires c1.phase.Open? && s.block.ToolUse? && Faithful(s)
    requires |c1.acc.calls| == if c1.stream.toolCount < MAX_TOOL_CALLS then c1.stream.toolCount else MAX_TOOL_CALLS
    ensures var i, c2 := c1.stream.toolCount, Feed(c1, StartEvent(s));
            && c2.phase.Open? && c2.stream.toolCount == i + 1 && c2.acc.content == c1.acc.content
            && s.index in c2.stream.blockToolIdx && c2.stream.blockToolIdx[s.index] == i
            && c2.acc.calls == c1.acc.calls
                 + if i < MAX_TOOL_CALLS then [ToolCall(s.block.id, FUNCTION, s.block.name, "")] else []
  {
    var i := c1.stream.toolCount;
    assert c1.acc.content + "" == c1.acc.content;
    if i < MAX_TOOL_CALLS {
      assert Pad(c1.acc.calls, i) == c1.acc.calls + [EMPTY_CALL];
      assert "" + "" == "";
    }
  }

  lemma SentCall(c: Caller, s: Sent)
    requires c.phase.Open? && Faithful(s) && s.block.ToolUse?
    requires |c.acc.calls| == if c.stream.toolCount < MAX_TOOL_CALLS then c.stream.toolCount else MAX_TOOL_CALLS
    ensures var d := FeedAll(c, Single(s));
            && d.phase.Open? && d.acc.content == c.acc.content && d.stream.toolCount == c.stream.toolCount + 1
            && d.acc.calls == c.acc.calls +
                 if c.stream.toolCount < MAX_TOOL_CALLS
                 then [ToolCall(s.block.id, FUNCTION, s.block.name, s.block.input)] else []
  {
    SentParts(c, s);
    var c1 := FeedAll(c, s.before);
    CallStart(c1, s);
    var c2 := Feed(c1, StartEvent(s));
    InputBody(c2, s, c.stream.toolCount, s.body);
    assert "" + s.block.input == s.block.input;
  }

  lemma {:induction false} SentBlocks(sents: seq<Sent>)
    requires forall s :: s in sents ==> Faithful(s)
    ensures var d := FeedAll(START, Wire(sents));
            && d.phase.Open?
            && d.acc.content == TextOf(BlocksOf(sents))
            && d.stream.toolCount == |RawCalls(BlocksOf(sents))|
            && d.acc.calls == Capped(RawCalls(BlocksOf(sents)))
  {
    if sents != [] {
      var init, last := sents[..|sents| - 1], sents[|sents| - 1];
      SentBlocks(init);
      FeedConcat(START, Wire(init), Single(last));
      SentBlock(FeedAll(START, Wire(init)), last);
      var blocks := BlocksOf(sents);
      assert blocks[..|blocks| - 1] == BlocksOf(init);
      assert blocks == BlocksOf(init) + [last.block];
      CallsOfSnoc(BlocksOf(init), last.block);
    }
  }

  /** Calls with an ID and arguments survive unchanged; nothing is ever added. */
  lemma {:induction false} RealCallsShape(calls: seq<ToolCall>, newId: nat -> string)
    ensures |RealCalls(calls, newId)| <= |calls|
    ensures |RealCalls(calls, newId)| == |calls| ==> forall i :: 0 <= i < |calls| ==>
              RealCalls(calls, newId)[i] == if calls[i].id == "" then calls[i].(id := newId(i)) else calls[i]
    ensures (forall i :: 0 <= i < |calls| ==> calls[i].arguments != "") ==> |RealCalls(calls, newId)| == |calls|
  {
    if calls != [] {
      RealCallsShape(calls[..|calls| - 1], newId);
    }
  }

  lemma {:induction false} DefaultedCalls(blocks: seq<Block>)
    ensures |CallsOf(blocks)| == |RawCalls(blocks)|
    ensures forall i :: 0 <= i < |CallsOf(blocks)| ==>
              CallsOf(blocks)[i] == if RawCalls(blocks)[i].arguments == "" then RawCalls(blocks)[i].(arguments := "{}")
                                    else RawCalls(blocks)[i]
  {
    if blocks != [] {
      var init, b := blocks[..|blocks| - 1], blocks[|blocks| - 1];
      DefaultedCalls(init);
      assert blocks == init + [b];
      CallsOfSnoc(init, b);
    }
  }

  /** The calls a stream can carry without loss. */
  ghost predicate StreamSafe(blocks: seq<Block>) {
    && |RawCalls(blocks)| <= 128
    && forall i :: 0 <= i < |RawCalls(blocks)| ==> RawCalls(blocks)[i].id != "" && RawCalls(blocks)[i].arguments != ""
  }

  /** For any cutting of text and input into deltas, with noise anywhere and anything after the end, the
      streamed message is the one-shot message exactly when there are at most 128 tool calls, each with an ID
      and a nonempty input. */
  lemma StreamingRefinesOneShot(sents: seq<Sent>, tail: seq<Event>, rest: seq<Event>, newId: nat -> string)
    requires forall s :: s in sents ==> Faithful(s)
    requires forall ev :: ev in tail ==> Noise(ev)
    requires forall k :: newId(k) != ""
    ensures var blocks := BlocksOf(sents);
            var streamed := Outcome(FeedAll(START, Wire(sents) + tail + [MessageStop] + rest), newId);
            streamed == Reply(AssistantMessage(TextOf(blocks), CallsOf(blocks))) <==> StreamSafe(blocks)
  {
    var blocks := BlocksOf(sents);
    SentBlocks(sents);
    FeedConcat(START, Wire(sents) + tail + [MessageStop], rest);
    FeedConcat(START, Wire(sents) + tail, [MessageStop]);
    FeedConcat(START, Wire(sents), tail);
    NoiseIsSilent(FeedAll(START, Wire(sents)), tail);
    var c := FeedAll(START, Wire(sents) + tail);
    var d := FeedAll(c, [MessageStop]);
    assert d == Feed(c, MessageStop);
    ClosedStaysClosed(d, rest);
    SafeCallsAgree(blocks, newId);
  }

  lemma SafeCallsAgree(blocks: seq<Block>, newId: nat -> string)
    requires forall k :: newId(k) != ""
    ensures RealCalls(Capped(RawCalls(blocks)), newId) == CallsOf(blocks) <==> StreamSafe(blocks)
  {
    var raw := RawCalls(blocks);
    var kept, calls := RealCalls(Capped(raw), newId), CallsOf(blocks);
    RealCallsShape(Capped(raw), newId);
    DefaultedCalls(blocks);
    if kept == calls {
      assert |raw| <= MAX_TOOL_CALLS;
      forall i | 0 <= i < |raw|
        ensures raw[i].id != "" && raw[i].arguments != ""
      {
        assert kept[i] == calls[i];
      }
    }
    if StreamSafe(blocks) {
      assert forall i :: 0 <= i < |raw| ==> kept[i] == raw[i] && calls[i] == raw[i];
    }
  }
}
