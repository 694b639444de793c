/** Splitting old messages into token-budgeted chunks, and the shape of a compacted history. */
module TokenChunks {
  import opened Messages
  import opened History
  import opened HistoryCuts

  function Cost(m: Message): nat {
    |m.content| / 4 + 4 + CallTokens(m.toolCalls)
  }

  function TotalCost(h: seq<Message>): nat {
    if h == [] then 0 else TotalCost(h[..|h| - 1]) + Cost(h[|h| - 1])
  }

  /** Chunks are measured like histories, but for the images. */
  lemma CostIsEstimate(m: Message)
    ensures Cost(m) == Tokens([m.(images := [])])
  {
    OneMessage(m.(images := []));
  }

  /** A chunk may exceed the budget only when it is a single message. */
  ghost predicate Fits(chunk: seq<Message>, budget: int) {
    chunk != [] && (|chunk| == 1 || TotalCost(chunk) <= budget)
  }

  function Flatten(chunks: seq<seq<Message>>): seq<Message> {
    if chunks == [] then [] else chunks[0] + Flatten(chunks[1..])
  }

  /** chunks is a contiguous split of h within the limits. */
  ghost predicate Split(chunks: seq<seq<Message>>, h: seq<Message>, budget: int) {
    Flatten(chunks) == h && forall c :: c in chunks ==> Fits(c, budget)
  }

  /** The chunks still to come when current is open and rest is unread. */
  function Pack(current: seq<Message>, rest: seq<Message>, budget: int): seq<seq<Message>>
    decreases |rest|
  {
    if rest == [] then if current == [] then [] else [current]
    else if TotalCost(current) + Cost(rest[0]) > budget && current != [] then
      [current] + Pack([rest[0]], rest[1..], budget)
    else Pack(current + [rest[0]], rest[1..], budget)
  }

  method ChunkByTokenBudget(msgs: seq<Message>, chunkBudget: int) returns (chunks: seq<seq<Message>>)
    ensures chunks == Pack([], msgs, chunkBudget)
  {
    chunks := [];
    var current, currentTokens := [], 0;
    for i := 0 to |msgs|
      invariant currentTokens == TotalCost(current)
      invariant chunks + Pack(current, msgs[i..], chunkBudget) == Pack([], msgs, chunkBudget)
    {
      var m := msgs[i];
      var msgTokens := |m.content| / 4 + 4;
      for k := 0 to |m.toolCalls|
        invariant msgTokens == |m.content| / 4 + 4 + CallTokens(m.toolCalls[..k])
      {
        assert m.toolCalls[..k + 1][..k] == m.toolCalls[..k];
        msgTokens := msgTokens + |m.toolCalls[k].arguments| / 4 + |m.toolCalls[k].name| / 4;
      }
      assert m.toolCalls[..|m.toolCalls|] == m.toolCalls;
      assert msgs[i..][0] == m && msgs[i..][1..] == msgs[i + 1..];
      PackStep(chunks, current, msgs[i..], chunkBudget);
      if currentTokens + msgTokens > chunkBudget && |current| > 0 {
        chunks := chunks + [current];
        current := [];
        currentTokens := 0;
      }
      CostSnoc(current, m);
      current := current + [m];
      currentTokens := currentTokens + msgTokens;
    }
    assert msgs[|msgs|..] == [];
    if |current| > 0 {
      chunks := chunks + [current];
    }
  }

  lemma CostSnoc(h: seq<Message>, m: Message)
    ensures TotalCost(h + [m]) == TotalCost(h) + Cost(m)
  {
    assert (h + [m])[..|h|] == h;
  }

  lemma PackStep(chunks: seq<seq<Message>>, current: seq<Message>, rest: seq<Message>, budget: int)
    requires rest != []
    ensures if TotalCost(current) + Cost(rest[0]) > budget && current != []
            then chunks + Pack(current, rest, budget) == (chunks + [current]) + Pack([] + [rest[0]], rest[1..], budget)
            else chunks + Pack(current, rest, budget) == chunks + Pack(current + [rest[0]], rest[1..], budget)
  {
    assert [] + [rest[0]] == [rest[0]];
    assert chunks + ([current] + Pack([rest[0]], rest[1..], budget))
            == (chunks + [current]) + Pack([rest[0]], rest[1..], budget);
  }

  // ---------------------------------------------------------------- a valid split

  /** The chunks join to the input, none is empty, and each is within budget or a single message. */
  lemma {:induction false} PackIsSplit(current: seq<Message>, rest: seq<Message>, budget: int)
    requires current == [] || Fits(current, budget)
    ensures Split(Pack(current, rest, budget), current + rest, budget)
    decreases |rest|
  {
    if rest == [] {
      assert current + rest == current;
      assert [current][1..] == [];
      assert current + [] == current;
    } else {
      var m := rest[0];
      if TotalCost(current) + Cost(m) > budget && current != [] {
        PackIsSplit([m], rest[1..], budget);
        var tail := Pack([m], rest[1..], budget);
        assert ([current] + tail)[1..] == tail;
        assert current + ([m] + rest[1..]) == current + rest;
      } else {
        CostSnoc(current, m);
        PackIsSplit(current + [m], rest[1..], budget);
        assert (current + [m]) + rest[1..] == current + rest;
      }
    }
  }

  // ---------------------------------------------------------------- the fewest chunks

  lemma {:induction false} CostConcat(a: seq<Message>, b: seq<Message>)
    ensures TotalCost(a + b) == TotalCost(a) + TotalCost(b)
    decreases |b|
  {
    if b == [] {
      assert a + b == a;
    } else {
      assert (a + b)[..|a + b| - 1] == a + b[..|b| - 1];
      CostConcat(a, b[..|b| - 1]);
    }
  }

  /** Dropping the front of the open chunk never costs a chunk, and adding to its front costs one at most. */
  lemma {:induction false} FrontMatters(a: seq<Message>, b: seq<Message>, rest: seq<Message>, budget: int)
    ensures |Pack(b, rest, budget)| <= |Pack(a + b, rest, budget)|
    ensures b != [] ==> |Pack(a + b, rest, budget)| <= 1 + |Pack(b, rest, budget)|
    decreases |rest|
  {
    CostConcat(a, b);
    if rest != [] {
      var x, tail := rest[0], rest[1..];
      assert (a + b) + [x] == a + (b + [x]);
      FrontMatters(a, b + [x], tail, budget);
      FrontMatters(b, [x], tail, budget);
      assert [] + [x] == [x];
      if b == [] {
        assert a + b == a;
        FrontMatters(a, [x], tail, budget);
      }
    }
  }

  /** A chunk that fits can be opened whole. */
  lemma {:induction false} OpenWhole(current: seq<Message>, p: seq<Message>, rest: seq<Message>, budget: int)
    requires current + p != [] ==> Fits(current + p, budget)
    ensures Pack(current, p + rest, budget) == Pack(current + p, rest, budget)
    decreases |p|
  {
    if p == [] {
      assert current + p == current && p + rest == rest;
    } else {
      var m := p[0];
      assert (p + rest)[0] == m && (p + rest)[1..] == p[1..] + rest;
      assert (current + [m]) + p[1..] == current + p;
      CostConcat(current + [m], p[1..]);
      CostSnoc(current, m);
      OpenWhole(current + [m], p[1..], rest, budget);
    }
  }

  /** One chunk put in front costs one chunk at most. */
  lemma OneChunkMore(p: seq<Message>, rest: seq<Message>, budget: int)
    requires Fits(p, budget)
    ensures |Pack([], p + rest, budget)| <= 1 + |Pack([], rest, budget)|
  {
    assert [] + p == p;
    OpenWhole([], p, rest, budget);
    if rest != [] {
      var x, tail := rest[0], rest[1..];
      assert [] + [x] == [x];
      FrontMatters(p, [x], tail, budget);
    }
  }

  /** No contiguous split within the limits has fewer chunks. */
  lemma {:induction false} PackIsFewest(chunks: seq<seq<Message>>, h: seq<Message>, budget: int)
    requires Split(chunks, h, budget)
    ensures |Pack([], h, budget)| <= |chunks|
    decreases |chunks|
  {
    if chunks != [] {
      var rest := Flatten(chunks[1..]);
      PackIsFewest(chunks[1..], rest, budget);
      assert chunks[0] in chunks;
      OneChunkMore(chunks[0], rest, budget);
    }
  }

  // ---------------------------------------------------------------- compaction

  const OVERHEAD := 4096

  /** Chunk share of the token budget: smaller for larger average messages, between 0.15 and 0.4. */
  function AdaptiveRatio(h: seq<Message>, maxTokens: nat): (r: real)
    requires maxTokens > 0
    ensures 0.15 <= r <= 0.4
  {
    if h == [] then 0.4
    else
      var avg := Tokens(h) as real / |h| as real;
      var ratio := 0.4 - avg / maxTokens as real * 0.5;
      if ratio < 0.15 then 0.15 else if ratio > 0.4 then 0.4 else ratio
  }

  datatype Compaction = Compacted(history: seq<Message>) | BudgetTooSmall

  const COMPACT_PREFIX := "[Compacted conversation summary]:\n"

  function TokenBudget(maxTokens: int): int {
    (maxTokens as real / 1.2).Floor - OVERHEAD
  }

  function Times(x: real, y: real): real {
    x * y
  }

  function Share(ratio: real, budget: int): int {
    Times(ratio, budget as real).Floor
  }

  function ChunkBudget(front: seq<Message>, maxTokens: int): int
    requires TokenBudget(maxTokens) > 0
  {
    var b := Share(AdaptiveRatio(front, maxTokens), TokenBudget(maxTokens));
    if b < 500 then 500 else b
  }

  /** The model's summaries of the chunks in order, joined when there are several. */
  function Summary(chunks: seq<seq<Message>>, summarize: seq<Message> -> string, merge: seq<string> -> string): string {
    var parts := seq(|chunks|, i requires 0 <= i < |chunks| => summarize(chunks[i]));
    if |parts| == 1 then parts[0] else merge(parts)
  }

  /** What compaction makes of a history: the part before the cut, packed into chunks and summarized chunk by chunk,
      becomes one message. */
  function CompactedForm(h: seq<Message>, maxTokens: int, n: nat,
                         summarize: seq<Message> -> string, merge: seq<string> -> string): Compaction
    requires n > 0
  {
    if Cut(h, n) == 0 then Compacted(h)
    else if TokenBudget(maxTokens) <= 0 then BudgetTooSmall
    else
      var front := h[..Cut(h, n)];
      var chunks := Pack([], front, ChunkBudget(front, maxTokens));
      Compacted([SummaryMessage(COMPACT_PREFIX + Summary(chunks, summarize, merge))] + h[Cut(h, n)..])
  }

  /** The token budget: the window with a safety factor, less the overhead. */
  lemma BudgetMeans(maxTokens: int)
    ensures 1.2 * (TokenBudget(maxTokens) + 4096) as real <= maxTokens as real
    ensures maxTokens as real < 1.2 * (TokenBudget(maxTokens) + 4097) as real
  {
  }

  /** A chunk's share of the budget falls from 0.4 by half the average message's share of the window, down to 0.15. */
  lemma RatioMeans(h: seq<Message>, maxTokens: nat)
    requires maxTokens > 0 && h != []
    ensures AdaptiveRatio([], maxTokens) == 0.4
    ensures var share := Tokens(h) as real / |h| as real / maxTokens as real;
            if share <= 0.5 then 2.0 * (0.4 - AdaptiveRatio(h, maxTokens)) == share
            else AdaptiveRatio(h, maxTokens) == 0.15
  {
    ShareNonnegative(Tokens(h), |h|, maxTokens);
  }

  lemma ShareNonnegative(x: nat, n: nat, m: nat)
    requires n > 0 && m > 0
    ensures x as real / n as real / m as real >= 0.0
  {
  }

  /** The shares of the budget that chunks are packed to: never less than 500 tokens. */
  lemma ChunkBudgetMeans(front: seq<Message>, maxTokens: int)
    requires TokenBudget(maxTokens) > 0
    ensures var share := Times(AdaptiveRatio(front, maxTokens), TokenBudget(maxTokens) as real);
            if share < 500.0 then ChunkBudget(front, maxTokens) == 500
            else ChunkBudget(front, maxTokens) as real <= share < ChunkBudget(front, maxTokens) as real + 1.0
  {
  }

  /** summary is made of one summary for each chunk, in order. */
  ghost predicate Summarizes(text: string, chunks: seq<seq<Message>>, summarize: seq<Message> -> string,
                             merge: seq<string> -> string) {
    exists parts: seq<string> ::
      && |parts| == |chunks| && (forall i :: 0 <= i < |chunks| ==> parts[i] == summarize(chunks[i]))
      && text == if |parts| == 1 then parts[0] else merge(parts)
  }

  lemma SummarySummarizes(chunks: seq<seq<Message>>, summarize: seq<Message> -> string, merge: seq<string> -> string)
    ensures Summarizes(Summary(chunks, summarize, merge), chunks, summarize, merge)
  {
    var parts := seq(|chunks|, i requires 0 <= i < |chunks| => summarize(chunks[i]));
    assert |parts| == |chunks| && forall i :: 0 <= i < |chunks| ==> parts[i] == summarize(chunks[i]);
  }

  /** Nothing is lost by compaction: the part in front of the cut goes whole, split into chunks within the budget, into
      one summary message, and the rest, with n or n + 1 assistant messages, stays as it is behind it. */
  lemma CompactionMeans(h: seq<Message>, maxTokens: int, n: nat, summarize: seq<Message> -> string,
                        merge: seq<string> -> string)
    returns (cut: nat, chunks: seq<seq<Message>>, text: string)
    requires n > 0 && CompactedForm(h, maxTokens, n, summarize, merge).Compacted?
    ensures cut <= |h| && (|AssistantIndices(h)| <= n ==> cut == 0)
    ensures |AssistantIndices(h)| > n ==> n <= |AssistantIndices(h[cut..])| <= n + 1
    ensures cut > 0 ==>
              && TokenBudget(maxTokens) > 0 && Split(chunks, h[..cut], ChunkBudget(h[..cut], maxTokens))
              && Summarizes(text, chunks, summarize, merge)
    ensures CompactedForm(h, maxTokens, n, summarize, merge).history
            == if cut == 0 then h
               else [Message(Assistant, "[Compacted conversation summary]:\n" + text, [], [], "", "")] + h[cut..]
  {
    cut, chunks, text := Cut(h, n), [], "";
    if |AssistantIndices(h)| > n {
      CutKeepsAssistants(h, n);
    }
    if cut > 0 {
      var front := h[..cut];
      chunks := Pack([], front, ChunkBudget(front, maxTokens));
      text := Summary(chunks, summarize, merge);
      PackIsSplit([], front, ChunkBudget(front, maxTokens));
      assert [] + front == front;
      SummarySummarizes(chunks, summarize, merge);
    }
  }

  lemma CompactionKeepsWellFormed(h: seq<Message>, maxTokens: int, n: nat,
                                  summarize: seq<Message> -> string, merge: seq<string> -> string)
    requires n > 0 && WellFormed(h)
    ensures var r := CompactedForm(h, maxTokens, n, summarize, merge); r.Compacted? ==> WellFormed(r.history)
  {
    if Cut(h, n) > 0 && TokenBudget(maxTokens) > 0 {
      var front := h[..Cut(h, n)];
      var chunks := Pack([], front, ChunkBudget(front, maxTokens));
      CutKeepsWellFormed(h, n);
      SummaryKeepsWellFormed(COMPACT_PREFIX + Summary(chunks, summarize, merge), h[Cut(h, n)..]);
    }
  }

  /** summarize stands for the model's summary of one chunk with its retries and fallbacks, merge for joining
      several. */
  method CompactHistory(msgs: seq<Message>, maxTokens: int, keep: int,
                        summarize: seq<Message> -> string, merge: seq<string> -> string) returns (r: Compaction)
    ensures r == CompactedForm(msgs, maxTokens, Positive(keep), summarize, merge)
    ensures r.BudgetTooSmall? <==> Cut(msgs, Positive(keep)) > 0 && (maxTokens as real / 1.2).Floor <= OVERHEAD
    ensures r.Compacted? && WellFormed(msgs) ==> WellFormed(r.history)
  {
    var keepN := keep;
    if keepN <= 0 {
      keepN := 2;
    }
    if WellFormed(msgs) {
      CompactionKeepsWellFormed(msgs, maxTokens, keepN, summarize, merge);
    }
    var splitAt := FindCompactionSplitPoint(msgs, keepN);
    if splitAt <= 0 {
      return Compacted(msgs);
    }
    var oldMsgs, recentMsgs := msgs[..splitAt], msgs[splitAt..];
    var budgetTokens := (maxTokens as real / 1.2).Floor - OVERHEAD;
    if budgetTokens <= 0 {
      return BudgetTooSmall;
    }
    var finalSummary := SummarizeOld(oldMsgs, maxTokens, budgetTokens, summarize, merge);
    r := Compacted([SummaryMessage(COMPACT_PREFIX + finalSummary)] + recentMsgs);
  }

  /** Packing the old messages and summarizing them. */
  method SummarizeOld(msgs: seq<Message>, maxTokens: int, budgetTokens: int,
                      summarize: seq<Message> -> string, merge: seq<string> -> string) returns (text: string)
    requires budgetTokens == TokenBudget(maxTokens) > 0
    ensures text == Summary(Pack([], msgs, ChunkBudget(msgs, maxTokens)), summarize, merge)
  {
    var ratio := AdaptiveRatio(msgs, maxTokens);
    var chunkBudget := Share(ratio, budgetTokens);
    if chunkBudget < 500 {
      chunkBudget := 500;
    }
    var chunks := ChunkByTokenBudget(msgs, chunkBudget);
    text := SummarizeChunks(chunks, summarize, merge);
  }

  /** The loop over the chunks. */
  method SummarizeChunks(chunks: seq<seq<Message>>, summarize: seq<Message> -> string, merge: seq<string> -> string)
    returns (text: string)
    ensures text == Summary(chunks, summarize, merge)
  {
    var summaries := [];
    for i := 0 to |chunks|
      invariant summaries == seq(i, k requires 0 <= k < i => summarize(chunks[k]))
    {
      summaries := summaries + [summarize(chunks[i])];
    }
    text := if |summaries| == 1 then summaries[0] else merge(summaries);
  }
}
