/** The conversion of a text history to Anthropic's request format, and its inverse. */
module AnthropicEncoder {
  import opened Messages

  datatype Block =
    | Text(text: string)
    | ToolUse(id: string, name: string, input: string)
    | ToolResult(id: string, content: string)

  datatype Wire = Wire(fromUser: bool, blocks: seq<Block>)

  // ---------------------------------------------------------------- the encoder as a fold

  datatype Encoding = Encoding(system: string, result: seq<Wire>, pending: seq<Block>)

  function Flushed(e: Encoding): Encoding {
    if e.pending == [] then e else e.(result := e.result + [Wire(true, e.pending)], pending := [])
  }

  function InputOf(args: string): string {
    if |args| == 0 then "{}" else args
  }

  function UseBlocks(calls: seq<ToolCall>): seq<Block> {
    if calls == [] then []
    else
      var tc := calls[|calls| - 1];
      UseBlocks(calls[..|calls| - 1]) + [ToolUse(tc.id, tc.name, InputOf(tc.arguments))]
  }

  function AssistantBlocks(m: Message): seq<Block> {
    if m.toolCalls == [] then [Text(m.content)]
    else (if m.content != "" then [Text(m.content)] else []) + UseBlocks(m.toolCalls)
  }

  function Add(e: Encoding, m: Message): Encoding {
    match m.role
    case System => e.(system := m.content)
    case User => var f := Flushed(e); f.(result := f.result + [Wire(true, [Text(m.content)])])
    case Assistant => var f := Flushed(e); f.(result := f.result + [Wire(false, AssistantBlocks(m))])
    case Tool => e.(pending := e.pending + [ToolResult(m.toolCallId, m.content)])
    case OtherRole(_) => e
  }

  function Encode(msgs: seq<Message>): Encoding {
    if msgs == [] then Encoding("", [], []) else Add(Encode(msgs[..|msgs| - 1]), msgs[|msgs| - 1])
  }

  /** Marshalling a message fails only on tool arguments that are not JSON; empty ones are sent as an empty object. */
  predicate Marshals(m: Message, validJson: string -> bool) {
    m.role.Assistant? ==>
      forall tc :: tc in m.toolCalls ==> validJson(if tc.arguments != "" then tc.arguments else "{}")
  }

  /** The blocks of an assistant message with tool calls. */
  method CallBlocks(m: Message, validJson: string -> bool) returns (ok: bool, blocks: seq<Block>)
    requires m.role.Assistant? && |m.toolCalls| > 0
    ensures blocks == AssistantBlocks(m) && (ok <==> Marshals(m, validJson))
  {
    ok, blocks := true, [];
    if m.content != "" {
      blocks := [Text(m.content)];
    }
    ghost var head := blocks;
    for k := 0 to |m.toolCalls|
      invariant blocks == head + UseBlocks(m.toolCalls[..k])
      invariant ok <==> forall tc :: tc in m.toolCalls[..k] ==> validJson(InputOf(tc.arguments))
    {
      var tc := m.toolCalls[k];
      assert m.toolCalls[..k + 1][..k] == m.toolCalls[..k];
      assert m.toolCalls[..k + 1] == m.toolCalls[..k] + [tc];
      var input := tc.arguments;
      if |input| == 0 {
        input := "{}";
      }
      blocks := blocks + [ToolUse(tc.id, tc.name, input)];
      ok := ok && validJson(input);
    }
    assert m.toolCalls[..|m.toolCalls|] == m.toolCalls;
  }

  method Convert(msgs: seq<Message>, validJson: string -> bool) returns (ok: bool, system: string, result: seq<Wire>)
    ensures ok <==> forall m :: m in msgs ==> Marshals(m, validJson)
    ensures validJson("{}") ==>
              (ok <==> forall m, tc :: m in msgs && m.role.Assistant? && tc in m.toolCalls && tc.arguments != "" ==>
                         validJson(tc.arguments))
    ensures ok ==> system == Encode(msgs).system && result == Flushed(Encode(msgs)).result
  {
    var pending := [];
    ok, system, result := true, "", [];
    for i := 0 to |msgs|
      invariant Encode(msgs[..i]) == Encoding(system, result, pending)
      invariant forall m :: m in msgs[..i] ==> Marshals(m, validJson)
      invariant ok
    {
      var m := msgs[i];
      assert msgs[..i + 1][..i] == msgs[..i];
      assert msgs[..i + 1] == msgs[..i] + [m];
      match m.role {
        case System =>
          system := m.content;
        case User =>
          if pending != [] {
            result, pending := result + [Wire(true, pending)], [];
          }
          result := result + [Wire(true, [Text(m.content)])];
        case Assistant =>
          if pending != [] {
            result, pending := result + [Wire(true, pending)], [];
          }
          if |m.toolCalls| > 0 {
            var blocks;
            ok, blocks := CallBlocks(m, validJson);
            if !ok {
              return;
            }
            result := result + [Wire(false, blocks)];
          } else {
            result := result + [Wire(false, [Text(m.content)])];
          }
        case Tool =>
          pending := pending + [ToolResult(m.toolCallId, m.content)];
        case OtherRole(_) =>
      }
    }
    assert msgs[..|msgs|] == msgs;
    if pending != [] {
      result := result + [Wire(true, pending)];
    }
  }

  // ---------------------------------------------------------------- the decoder

  datatype Call = Call(id: string, name: string, input: string)

  /** A non-system message as the other side can read it. */
  datatype Plain = PUser(text: string) | PAssistant(text: string, calls: seq<Call>) | PTool(id: string, content: string)

  function CallsOf(blocks: seq<Block>): seq<Call> {
    if blocks == [] then []
    else
      var b := blocks[|blocks| - 1];
      CallsOf(blocks[..|blocks| - 1]) + if b.ToolUse? then [Call(b.id, b.name, b.input)] else []
  }

  function ResultsOf(blocks: seq<Block>): seq<Plain> {
    if blocks == [] then []
    else
      var b := blocks[|blocks| - 1];
      ResultsOf(blocks[..|blocks| - 1]) + if b.ToolResult? then [PTool(b.id, b.content)] else []
  }

  function LeadText(blocks: seq<Block>): string {
    if blocks != [] && blocks[0].Text? then blocks[0].text else ""
  }

  predicate IsBatch(w: Wire) {
    w.fromUser && w.blocks != [] && w.blocks[0].ToolResult?
  }

  function DecodeOne(w: Wire): seq<Plain> {
    if !w.fromUser then [PAssistant(LeadText(w.blocks), CallsOf(w.blocks))]
    else if IsBatch(w) then ResultsOf(w.blocks)
    else [PUser(LeadText(w.blocks))]
  }

  function Decode(ws: seq<Wire>): seq<Plain> {
    if ws == [] then [] else Decode(ws[..|ws| - 1]) + DecodeOne(ws[|ws| - 1])
  }

  function CallsOfMessage(calls: seq<ToolCall>): seq<Call> {
    if calls == [] then []
    else
      var tc := calls[|calls| - 1];
      CallsOfMessage(calls[..|calls| - 1]) + [Call(tc.id, tc.name, if tc.arguments != "" then tc.arguments else "{}")]
  }

  /** The calls read back are those of the message, one by one, with their arguments as they were. */
  lemma {:induction false} CallsSurvive(calls: seq<ToolCall>)
    ensures |CallsOfMessage(calls)| == |calls|
    ensures forall i :: 0 <= i < |calls| ==>
              && CallsOfMessage(calls)[i].id == calls[i].id && CallsOfMessage(calls)[i].name == calls[i].name
              && CallsOfMessage(calls)[i].input == (if calls[i].arguments != "" then calls[i].arguments else "{}")
  {
    if calls != [] {
      CallsSurvive(calls[..|calls| - 1]);
    }
  }

  /** The non-system messages, with empty arguments read as the empty object. */
  function Readable(msgs: seq<Message>): seq<Plain> {
    if msgs == [] then []
    else
      var m := msgs[|msgs| - 1];
      Readable(msgs[..|msgs| - 1]) +
        match m.role
        case User => [PUser(m.content)]
        case Assistant => [PAssistant(m.content, CallsOfMessage(m.toolCalls))]
        case Tool => [PTool(m.toolCallId, m.content)]
        case _ => []
  }

  lemma {:induction false} UseBlocksDecode(head: seq<Block>, calls: seq<ToolCall>)
    requires head == [] || (|head| == 1 && head[0].Text?)
    ensures CallsOf(head + UseBlocks(calls)) == CallsOfMessage(calls)
    decreases |calls|
  {
    if calls == [] {
      assert head + [] == head;
      assert CallsOf(head[..0]) == [];
    } else {
      var init, tc := calls[..|calls| - 1], calls[|calls| - 1];
      UseBlocksDecode(head, init);
      var all := head + UseBlocks(calls);
      assert all[..|all| - 1] == head + UseBlocks(init);
      assert all[|all| - 1] == ToolUse(tc.id, tc.name, InputOf(tc.arguments));
    }
  }

  lemma {:induction false} UseBlocksAreUses(calls: seq<ToolCall>)
    ensures |UseBlocks(calls)| == |calls| && forall b :: b in UseBlocks(calls) ==> b.ToolUse?
  {
    if calls != [] {
      UseBlocksAreUses(calls[..|calls| - 1]);
    }
  }

  lemma AssistantDecodes(m: Message)
    ensures DecodeOne(Wire(false, AssistantBlocks(m))) == [PAssistant(m.content, CallsOfMessage(m.toolCalls))]
  {
    UseBlocksAreUses(m.toolCalls);
    var head := if m.toolCalls == [] || m.content != "" then [Text(m.content)] else [];
    UseBlocksDecode(head, m.toolCalls);
    var blocks := AssistantBlocks(m);
    assert blocks == head + UseBlocks(m.toolCalls);
    assert head == [] ==> blocks[0] == UseBlocks(m.toolCalls)[0] && blocks[0] in UseBlocks(m.toolCalls);
  }

  ghost predicate AllResults(blocks: seq<Block>) {
    forall b :: b in blocks ==> b.ToolResult?
  }

  lemma DecodeSnoc(ws: seq<Wire>, w: Wire)
    ensures Decode(ws + [w]) == Decode(ws) + DecodeOne(w)
  {
    assert (ws + [w])[..|ws|] == ws;
  }

  lemma ResultsSnoc(blocks: seq<Block>, b: Block)
    requires b.ToolResult?
    ensures ResultsOf(blocks + [b]) == ResultsOf(blocks) + [PTool(b.id, b.content)]
  {
    assert (blocks + [b])[..|blocks|] == blocks;
  }

  lemma FlushDecodes(e: Encoding)
    requires AllResults(e.pending)
    ensures Decode(Flushed(e).result) == Decode(e.result) + ResultsOf(e.pending)
  {
    if e.pending == [] {
      assert Decode(e.result) + [] == Decode(e.result);
    } else {
      DecodeSnoc(e.result, Wire(true, e.pending));
      assert e.pending[0] in e.pending;
    }
  }

  /** Nothing is lost: what is already encoded plus what is pending reads back as the history so far. */
  lemma {:induction false} EncodingReadsBack(msgs: seq<Message>)
    ensures var e := Encode(msgs);
            AllResults(e.pending) && Decode(e.result) + ResultsOf(e.pending) == Readable(msgs)
  {
    if msgs != [] {
      var init, m := msgs[..|msgs| - 1], msgs[|msgs| - 1];
      EncodingReadsBack(init);
      var e := Encode(init);
      FlushDecodes(e);
      match m.role {
        case User =>
          DecodeSnoc(Flushed(e).result, Wire(true, [Text(m.content)]));
        case Assistant =>
          AssistantDecodes(m);
          DecodeSnoc(Flushed(e).result, Wire(false, AssistantBlocks(m)));
        case Tool =>
          ResultsSnoc(e.pending, ToolResult(m.toolCallId, m.content));
        case _ =>
      }
    }
  }

  lemma {:induction false} DecodeRecoversHistory(msgs: seq<Message>)
    ensures Decode(Flushed(Encode(msgs)).result) == Readable(msgs)
  {
    EncodingReadsBack(msgs);
    FlushDecodes(Encode(msgs));
  }

  // ---------------------------------------------------------------- batches

  /** A message the encoder can write: one text, an assistant turn, or a nonempty batch of tool results. */
  ghost predicate Proper(w: Wire) {
    if w.fromUser then
      w.blocks != [] && if w.blocks[0].ToolResult? then AllResults(w.blocks) else w.blocks == [Text(LeadText(w.blocks))]
    else
      ProperAssistant(w.blocks)
  }

  ghost predicate ProperAssistant(blocks: seq<Block>) {
    && blocks != []
    && (|blocks| == 1 || blocks[0].ToolUse? || (blocks[0].Text? && blocks[0].text != ""))
    && !blocks[0].ToolResult?
    && forall i :: 1 <= i < |blocks| ==> blocks[i].ToolUse?
  }

  /** Proper messages in which no two batches are adjacent. */
  ghost predicate Canonical(ws: seq<Wire>) {
    && (forall w :: w in ws ==> Proper(w))
    && forall i, j :: 0 <= i && j == i + 1 && j < |ws| ==> !(IsBatch(ws[i]) && IsBatch(ws[j]))
  }

  lemma AssistantIsProper(m: Message)
    ensures ProperAssistant(AssistantBlocks(m))
  {
    UseBlocksAreUses(m.toolCalls);
    forall i | 1 <= i < |AssistantBlocks(m)|
      ensures AssistantBlocks(m)[i].ToolUse?
    {
      var off := if m.content != "" then 1 else 0;
      assert AssistantBlocks(m)[i] == UseBlocks(m.toolCalls)[i - off];
      assert UseBlocks(m.toolCalls)[i - off] in UseBlocks(m.toolCalls);
    }
    if m.toolCalls != [] && m.content == "" {
      assert AssistantBlocks(m) == UseBlocks(m.toolCalls);
      assert UseBlocks(m.toolCalls)[0] in UseBlocks(m.toolCalls);
    }
  }

  ghost predicate EndsWithBatch(ws: seq<Wire>) {
    ws != [] && IsBatch(ws[|ws| - 1])
  }

  lemma {:induction false} EncodingIsCanonical(msgs: seq<Message>)
    ensures var e := Encode(msgs);
            AllResults(e.pending) && Canonical(e.result) && !EndsWithBatch(e.result) && Canonical(Flushed(e).result)
  {
    if msgs != [] {
      EncodingIsCanonical(msgs[..|msgs| - 1]);
      AddKeepsCanonical(Encode(msgs[..|msgs| - 1]), msgs[|msgs| - 1]);
      FlushKeepsCanonical(Encode(msgs));
    }
  }

  lemma FlushKeepsCanonical(e: Encoding)
    requires AllResults(e.pending) && Canonical(e.result) && !EndsWithBatch(e.result)
    ensures Canonical(Flushed(e).result) && Flushed(e).pending == []
  {
    assert e.pending != [] ==> e.pending[0] in e.pending;
  }

  lemma AddKeepsCanonical(e: Encoding, m: Message)
    requires AllResults(e.pending) && Canonical(e.result) && !EndsWithBatch(e.result)
    ensures var f := Add(e, m); AllResults(f.pending) && Canonical(f.result) && !EndsWithBatch(f.result)
  {
    FlushKeepsCanonical(e);
    if m.role.Assistant? {
      AssistantIsProper(m);
    }
  }

  // ---------------------------------------------------------------- the encoding is the only one

  lemma AppendInjective<T>(x: seq<T>, u: seq<T>, y: seq<T>, v: seq<T>)
    requires x + u == y + v && |u| == |v|
    ensures x == y && u == v
  {
    assert x == (x + u)[..|x|] && y == (y + v)[..|y|];
    assert u == (x + u)[|x|..] && v == (y + v)[|y|..];
  }

  lemma {:induction false} ResultsInjective(a: seq<Block>, b: seq<Block>)
    requires AllResults(a) && AllResults(b) && ResultsOf(a) == ResultsOf(b)
    ensures a == b
    decreases |a|
  {
    ResultsLength(a);
    ResultsLength(b);
    if a != [] && b != [] {
      assert a[|a| - 1] in a && b[|b| - 1] in b;
      var x, y := a[|a| - 1], b[|b| - 1];
      AppendInjective(ResultsOf(a[..|a| - 1]), [PTool(x.id, x.content)], ResultsOf(b[..|b| - 1]),
                      [PTool(y.id, y.content)]);
      ResultsInjective(a[..|a| - 1], b[..|b| - 1]);
      assert a == a[..|a| - 1] + [a[|a| - 1]] && b == b[..|b| - 1] + [b[|b| - 1]];
    }
  }

  lemma {:induction false} ResultsLength(a: seq<Block>)
    requires AllResults(a)
    ensures |ResultsOf(a)| == |a| && forall p :: p in ResultsOf(a) ==> p.PTool?
  {
    if a != [] {
      assert a[|a| - 1] in a;
      ResultsLength(a[..|a| - 1]);
    }
  }

  lemma {:induction false} CallsInjective(a: seq<Block>, b: seq<Block>)
    requires (forall x :: x in a ==> x.ToolUse?) && (forall x :: x in b ==> x.ToolUse?) && CallsOf(a) == CallsOf(b)
    ensures a == b
    decreases |a|
  {
    CallsLength(a);
    CallsLength(b);
    if a != [] && b != [] {
      assert a[|a| - 1] in a && b[|b| - 1] in b;
      var x, y := a[|a| - 1], b[|b| - 1];
      AppendInjective(CallsOf(a[..|a| - 1]), [Call(x.id, x.name, x.input)], CallsOf(b[..|b| - 1]),
                      [Call(y.id, y.name, y.input)]);
      CallsInjective(a[..|a| - 1], b[..|b| - 1]);
      assert a == a[..|a| - 1] + [a[|a| - 1]] && b == b[..|b| - 1] + [b[|b| - 1]];
    }
  }

  lemma {:induction false} CallsLength(a: seq<Block>)
    requires forall x :: x in a ==> x.ToolUse?
    ensures |CallsOf(a)| == |a|
  {
    if a != [] {
      assert a[|a| - 1] in a;
      CallsLength(a[..|a| - 1]);
    }
  }

  lemma {:induction false} CallsSkipText(a: seq<Block>)
    requires a != [] && a[0].Text? && forall i :: 1 <= i < |a| ==> a[i].ToolUse?
    ensures CallsOf(a) == CallsOf(a[1..])
    decreases |a|
  {
    if |a| == 1 {
      assert a[..0] == [];
    } else {
      CallsSkipText(a[..|a| - 1]);
      assert a[1..][..|a| - 2] == a[..|a| - 1][1..];
    }
  }

  lemma AssistantInjective(a: seq<Block>, b: seq<Block>)
    requires ProperAssistant(a) && ProperAssistant(b)
    requires LeadText(a) == LeadText(b) && CallsOf(a) == CallsOf(b)
    ensures a == b
  {
    UsesOnly(a);
    UsesOnly(b);
    var a', b' := (if a[0].Text? then a[1..] else a), (if b[0].Text? then b[1..] else b);
    CallsInjective(a', b');
    CallsLength(a');
    assert a[0].Text? ==> a == [a[0]] + a';
    assert b[0].Text? ==> b == [b[0]] + b';
  }

  lemma UsesOnly(a: seq<Block>)
    requires ProperAssistant(a)
    ensures var u := if a[0].Text? then a[1..] else a;
            (forall x :: x in u ==> x.ToolUse?) && CallsOf(u) == CallsOf(a)
  {
    if a[0].Text? {
      CallsSkipText(a);
    }
  }

  lemma DecodeOneInjective(v: Wire, w: Wire)
    requires Proper(v) && Proper(w) && DecodeOne(v) == DecodeOne(w)
    ensures v == w
  {
    if IsBatch(v) {
      ResultsLength(v.blocks);
      assert DecodeOne(v)[0] in DecodeOne(v);
    }
    if IsBatch(w) {
      ResultsLength(w.blocks);
      assert DecodeOne(w)[0] in DecodeOne(w);
    }
    if IsBatch(v) && IsBatch(w) {
      ResultsInjective(v.blocks, w.blocks);
    } else if !v.fromUser && !w.fromUser {
      AssistantInjective(v.blocks, w.blocks);
    }
  }

  function TrailingTools(d: seq<Plain>): nat {
    if d == [] || !d[|d| - 1].PTool? then 0 else TrailingTools(d[..|d| - 1]) + 1
  }

  lemma {:induction false} TrailingConcat(x: seq<Plain>, u: seq<Plain>)
    requires x == [] || !x[|x| - 1].PTool?
    requires forall p :: p in u ==> p.PTool?
    ensures TrailingTools(x + u) == |u|
    decreases |u|
  {
    if u == [] {
      assert x + u == x;
    } else {
      assert u[|u| - 1] in u;
      TrailingConcat(x, u[..|u| - 1]);
      assert (x + u)[..|x + u| - 1] == x + u[..|u| - 1];
    }
  }

  lemma LastDecoded(w: Wire)
    requires Proper(w)
    ensures DecodeOne(w) != []
    ensures if IsBatch(w) then forall p :: p in DecodeOne(w) ==> p.PTool?
            else |DecodeOne(w)| == 1 && !DecodeOne(w)[0].PTool?
  {
    if IsBatch(w) {
      ResultsLength(w.blocks);
    }
  }

  /** The trailing tool results of a canonical sequence are exactly its last batch. */
  lemma LastBatch(ws: seq<Wire>)
    requires Canonical(ws) && ws != []
    ensures var w := ws[|ws| - 1];
            && DecodeOne(w) != [] && Decode(ws) == Decode(ws[..|ws| - 1]) + DecodeOne(w)
            && (if IsBatch(w) then TrailingTools(Decode(ws)) == |DecodeOne(w)|
                else TrailingTools(Decode(ws)) == 0 && |DecodeOne(w)| == 1)
  {
    var init, w := ws[..|ws| - 1], ws[|ws| - 1];
    assert w in ws;
    LastDecoded(w);
    if IsBatch(w) {
      if init != [] {
        var v := init[|init| - 1];
        assert v == ws[|ws| - 2] && v in ws;
        LastDecoded(v);
        assert !IsBatch(v);
      }
      TrailingConcat(Decode(init), DecodeOne(w));
    }
  }

  lemma CanonicalPrefix(ws: seq<Wire>)
    requires Canonical(ws) && ws != []
    ensures Canonical(ws[..|ws| - 1])
  {
    var init := ws[..|ws| - 1];
    assert forall i :: 0 <= i < |init| ==> init[i] == ws[i];
  }

  /** Two canonical sequences that read back as the same history are the same. */
  lemma {:induction false} DecodeInjective(a: seq<Wire>, b: seq<Wire>)
    requires Canonical(a) && Canonical(b) && Decode(a) == Decode(b)
    ensures a == b
    decreases |a|
  {
    NonemptyDecodes(a);
    NonemptyDecodes(b);
    if a != [] {
      PeelLast(a, b);
      CanonicalPrefix(a);
      CanonicalPrefix(b);
      DecodeInjective(a[..|a| - 1], b[..|b| - 1]);
      SameEnds(a, b);
    }
  }

  lemma NonemptyDecodes(ws: seq<Wire>)
    requires Canonical(ws)
    ensures Decode(ws) == [] <==> ws == []
  {
    if ws != [] {
      LastBatch(ws);
    }
  }

  lemma SameEnds(a: seq<Wire>, b: seq<Wire>)
    requires a != [] && b != [] && a[..|a| - 1] == b[..|b| - 1] && a[|a| - 1] == b[|b| - 1]
    ensures a == b
  {
    assert a == a[..|a| - 1] + [a[|a| - 1]] && b == b[..|b| - 1] + [b[|b| - 1]];
  }

  lemma PeelLast(a: seq<Wire>, b: seq<Wire>)
    requires Canonical(a) && Canonical(b) && Decode(a) == Decode(b) && a != [] && b != []
    ensures a[|a| - 1] == b[|b| - 1] && Decode(a[..|a| - 1]) == Decode(b[..|b| - 1])
  {
    LastBatch(a);
    LastBatch(b);
    var v, w := a[|a| - 1], b[|b| - 1];
    assert v in a && w in b;
    AppendInjective(Decode(a[..|a| - 1]), DecodeOne(v), Decode(b[..|b| - 1]), DecodeOne(w));
    DecodeOneInjective(v, w);
  }

  /** The encoder's output is the one canonical sequence that reads back as the history: each stretch of tool
      results between two user or assistant messages is one user message. */
  lemma EncodingIsUnique(msgs: seq<Message>, ws: seq<Wire>)
    requires Canonical(ws) && Decode(ws) == Readable(msgs)
    ensures ws == Flushed(Encode(msgs)).result
  {
    EncodingIsCanonical(msgs);
    DecodeRecoversHistory(msgs);
    DecodeInjective(ws, Flushed(Encode(msgs)).result);
  }

  /** The system prompt is the last system message. */
  lemma {:induction false} SystemIsLast(msgs: seq<Message>, k: nat)
    requires k < |msgs| && msgs[k].role.System?
    requires forall i :: k < i < |msgs| ==> !msgs[i].role.System?
    ensures Encode(msgs).system == msgs[k].content
    decreases |msgs|
  {
    if k < |msgs| - 1 {
      SystemIsLast(msgs[..|msgs| - 1], k);
    }
  }
}
