/** Where a long history is cut, and what pruning leaves. */
module HistoryCuts {
  import opened Options
  import opened Messages
  import opened History

  function AssistantIndices(h: seq<Message>): (r: seq<nat>)
    ensures forall k :: 0 <= k < |r| ==> r[k] < |h| && h[r[k]].role.Assistant?
  {
    if h == [] then []
    else AssistantIndices(h[..|h| - 1]) + if h[|h| - 1].role.Assistant? then [|h| - 1] else []
  }

  method CollectAssistants(msgs: seq<Message>) returns (r: seq<nat>)
    ensures r == AssistantIndices(msgs)
  {
    r := [];
    for i := 0 to |msgs|
      invariant r == AssistantIndices(msgs[..i])
    {
      assert msgs[..i + 1][..i] == msgs[..i];
      if msgs[i].role.Assistant? {
        r := r + [i];
      }
    }
    assert msgs[..|msgs|] == msgs;
  }

  function BackOverUser(h: seq<Message>, c: nat): (r: nat)
    requires c <= |h|
    ensures r <= c
  {
    if c > 0 && h[c - 1].role.User? then c - 1 else c
  }

  function BackOverTools(h: seq<Message>, c: nat): (r: nat)
    requires c <= |h|
    ensures r <= c
  {
    if c > 0 && h[c - 1].role.Tool? then BackOverTools(h, c - 1) else c
  }

  function BackOverCalls(h: seq<Message>, c: nat): (r: nat)
    requires c <= |h|
    ensures r <= c
  {
    if c > 0 && h[c - 1].role.Assistant? && |h[c - 1].toolCalls| > 0 then c - 1 else c
  }

  /** Back from an assistant message over the user message, the tool results and the calls in front of it. */
  function Settle(h: seq<Message>, c: nat): (r: nat)
    requires c <= |h|
    ensures r <= c
  {
    BackOverCalls(h, BackOverTools(h, BackOverUser(h, c)))
  }

  /** The n-th assistant message from the end. */
  function NthLast(h: seq<Message>, n: nat): (r: nat)
    requires 0 < n <= |AssistantIndices(h)|
    ensures r < |h|
  {
    AssistantIndices(h)[|AssistantIndices(h)| - n]
  }

  /** The cut that keeps the last n assistant messages with what belongs to them. */
  function Cut(h: seq<Message>, n: nat): (r: nat)
    requires n > 0
    ensures r <= |h|
  {
    if |AssistantIndices(h)| <= n then 0 else Settle(h, NthLast(h, n))
  }

  function Positive(n: int): nat {
    if n <= 0 then 2 else n
  }

  method PruneKeepLast(msgs: seq<Message>, keep: int) returns (r: seq<Message>)
    ensures r == msgs[Cut(msgs, Positive(keep))..]
  {
    var keepAssistants := keep;
    if keepAssistants <= 0 {
      keepAssistants := 2;
    }
    var indices := CollectAssistants(msgs);
    if |indices| <= keepAssistants {
      assert msgs[0..] == msgs;
      return msgs;
    }
    var cutFrom := indices[|indices| - keepAssistants];
    if cutFrom > 0 && msgs[cutFrom - 1].role.User? {
      cutFrom := cutFrom - 1;
    }
    ghost var start := cutFrom;
    while cutFrom > 0 && msgs[cutFrom - 1].role.Tool?
      invariant 0 <= cutFrom <= |msgs| && BackOverTools(msgs, cutFrom) == BackOverTools(msgs, start)
    {
      cutFrom := cutFrom - 1;
    }
    if cutFrom > 0 && msgs[cutFrom - 1].role.Assistant? && |msgs[cutFrom - 1].toolCalls| > 0 {
      cutFrom := cutFrom - 1;
    }
    assert cutFrom == Settle(msgs, NthLast(msgs, keepAssistants));
    return msgs[cutFrom..];
  }

  /** keepN is positive: CompactHistory replaces other values before calling. */
  method FindCompactionSplitPoint(msgs: seq<Message>, keepN: nat) returns (splitAt: nat)
    requires keepN > 0
    ensures splitAt == Cut(msgs, keepN)
  {
    var indices := CollectAssistants(msgs);
    if |indices| <= keepN {
      return 0;
    }
    splitAt := indices[|indices| - keepN];
    if splitAt > 0 && msgs[splitAt - 1].role.User? {
      splitAt := splitAt - 1;
    }
    ghost var start := splitAt;
    while splitAt > 0 && msgs[splitAt - 1].role.Tool?
      invariant splitAt <= |msgs| && BackOverTools(msgs, splitAt) == BackOverTools(msgs, start)
    {
      splitAt := splitAt - 1;
    }
    if splitAt > 0 && msgs[splitAt - 1].role.Assistant? && |msgs[splitAt - 1].toolCalls| > 0 {
      splitAt := splitAt - 1;
    }
  }

  /** The message an old part of the history is replaced with. */
  function SummaryMessage(text: string): Message {
    AssistantMessage(text, [])
  }

  const SOFT_PREFIX := "[Conversation summary]: "

  /** What the summary model answers about the old part; None when the call fails. */
  type Summarizer = seq<Message> -> Option<string>

  function SoftTrimmed(h: seq<Message>, n: nat, summarize: Summarizer): seq<Message>
    requires n > 0
  {
    if |AssistantIndices(h)| <= n then h
    else
      match summarize(h[..Cut(h, n)])
      case None => h
      case Some(text) => [SummaryMessage(SOFT_PREFIX + text)] + h[Cut(h, n)..]
  }

  /** The first half of forceSoftTrim: where to split, with more than keepN assistant messages. */
  method SoftTrimSplit(history: seq<Message>, indices: seq<nat>, keepN: nat) returns (splitAt: nat)
    requires indices == AssistantIndices(history) && 0 < keepN < |indices|
    ensures splitAt == Cut(history, keepN)
  {
    splitAt := indices[|indices| - keepN];
    if splitAt > 0 && history[splitAt - 1].role.User? {
      splitAt := splitAt - 1;
    }
    ghost var start := splitAt;
    while splitAt > 0 && history[splitAt - 1].role.Tool?
      invariant splitAt <= |history| && BackOverTools(history, splitAt) == BackOverTools(history, start)
    {
      splitAt := splitAt - 1;
    }
    if splitAt > 0 && history[splitAt - 1].role.Assistant? && |history[splitAt - 1].toolCalls| > 0 {
      splitAt := splitAt - 1;
    }
  }

  method ForceSoftTrim(history: seq<Message>, keep: int, summarize: Summarizer) returns (r: seq<Message>)
    ensures r == SoftTrimmed(history, Positive(keep), summarize)
  {
    var keepN := keep;
    if keepN <= 0 {
      keepN := 2;
    }
    var indices := CollectAssistants(history);
    if |indices| <= keepN {
      return history;
    }
    var splitAt := SoftTrimSplit(history, indices, keepN);
    match summarize(history[..splitAt]) {
      case None => return history;
      case Some(summary) => return [SummaryMessage(SOFT_PREFIX + summary)] + history[splitAt..];
    }
  }

  // ---------------------------------------------------------------- what the cut keeps

  /** The indices are those of all assistant messages, in order. */
  lemma {:induction false} IndicesAreExact(h: seq<Message>)
    ensures forall i :: i in AssistantIndices(h) <==> 0 <= i < |h| && h[i].role.Assistant?
    ensures forall j, k :: 0 <= j < k < |AssistantIndices(h)| ==> AssistantIndices(h)[j] < AssistantIndices(h)[k]
  {
    if h != [] {
      IndicesAreExact(h[..|h| - 1]);
    }
  }

  lemma {:induction false} IndicesConcat(a: seq<Message>, b: seq<Message>)
    ensures |AssistantIndices(a + b)| == |AssistantIndices(a)| + |AssistantIndices(b)|
    decreases |b|
  {
    if b == [] {
      assert a + b == a;
    } else {
      assert (a + b)[..|a + b| - 1] == a + b[..|b| - 1];
      IndicesConcat(a, b[..|b| - 1]);
    }
  }

  /** From the n-th assistant message from the end on there are n of them. */
  lemma {:induction false} NthFromEnd(h: seq<Message>, n: nat)
    requires 0 < n <= |AssistantIndices(h)|
    ensures |AssistantIndices(h[NthLast(h, n)..])| == n
    decreases |h|
  {
    var init, m := h[..|h| - 1], h[|h| - 1];
    var c := NthLast(h, n);
    if m.role.Assistant? && n == 1 {
      assert h[c..] == [m];
      assert [m][..0] == [];
    } else {
      var n' := if m.role.Assistant? then n - 1 else n;
      NthFromEnd(init, n');
      assert NthLast(init, n') == c;
      assert h[c..][..|h| - c - 1] == init[c..];
    }
  }

  lemma StepBack(h: seq<Message>, c: nat)
    requires 0 < c <= |h|
    ensures |AssistantIndices(h[c - 1..])| == |AssistantIndices(h[c..])| + if h[c - 1].role.Assistant? then 1 else 0
  {
    assert h[c - 1..] == [h[c - 1]] + h[c..];
    IndicesConcat([h[c - 1]], h[c..]);
    assert [h[c - 1]][..0] == [];
  }

  lemma {:induction false} BackOverToolsKeeps(h: seq<Message>, c: nat)
    requires c <= |h|
    ensures |AssistantIndices(h[BackOverTools(h, c)..])| == |AssistantIndices(h[c..])|
    ensures var r := BackOverTools(h, c); r == 0 || !h[r - 1].role.Tool?
  {
    if c > 0 && h[c - 1].role.Tool? {
      StepBack(h, c);
      BackOverToolsKeeps(h, c - 1);
    }
  }

  lemma BackOverUserKeeps(h: seq<Message>, c: nat)
    requires c <= |h|
    ensures |AssistantIndices(h[BackOverUser(h, c)..])| == |AssistantIndices(h[c..])|
  {
    if c > 0 {
      StepBack(h, c);
    }
  }

  lemma BackOverCallsKeeps(h: seq<Message>, c: nat)
    requires c <= |h|
    ensures var r := BackOverCalls(h, c);
            var kept := |AssistantIndices(h[r..])|;
            if r == c then kept == |AssistantIndices(h[c..])|
            else kept == |AssistantIndices(h[c..])| + 1 && h[r].role.Assistant? && |h[r].toolCalls| > 0
  {
    if c > 0 {
      StepBack(h, c);
    }
  }

  /** Past the tool results lies the message in front of them. */
  lemma {:induction false} BackOverToolsFindsHead(h: seq<Message>, c: nat)
    requires c <= |h|
    ensures RunHead(h[..c]) == if BackOverTools(h, c) == 0 then None else Some(h[BackOverTools(h, c) - 1])
  {
    if c > 0 {
      assert h[..c][..c - 1] == h[..c - 1];
      if h[c - 1].role.Tool? {
        BackOverToolsFindsHead(h, c - 1);
      }
    }
  }

  /** In front of position c, behind one user message at most and any tool results, stands a message that issued
      calls. */
  predicate CallsStandBefore(h: seq<Message>, c: nat)
    requires c <= |h|
  {
    var head := RunHead(h[..BackOverUser(h, c)]);
    head.Some? && head.value.role.Assistant? && |head.value.toolCalls| > 0
  }

  lemma SettleKeeps(h: seq<Message>, c: nat)
    requires c <= |h|
    ensures |AssistantIndices(h[Settle(h, c)..])|
            == |AssistantIndices(h[c..])| + if CallsStandBefore(h, c) then 1 else 0
    ensures CallsStandBefore(h, c) ==> Settle(h, c) < |h| && RunHead(h[..BackOverUser(h, c)]) == Some(h[Settle(h, c)])
  {
    BackOverUserKeeps(h, c);
    BackOverToolsKeeps(h, BackOverUser(h, c));
    BackOverToolsFindsHead(h, BackOverUser(h, c));
    BackOverCallsKeeps(h, BackOverTools(h, BackOverUser(h, c)));
  }

  /** With more than n assistant messages the cut keeps the last n, and exactly when calls stand before the n-th last
      one, the message that issued them as well, as its first message. */
  lemma CutKeepsAssistants(h: seq<Message>, n: nat)
    requires 0 < n < |AssistantIndices(h)|
    ensures var c := NthLast(h, n);
            && |AssistantIndices(h[Cut(h, n)..])| == (if CallsStandBefore(h, c) then n + 1 else n)
            && (CallsStandBefore(h, c) ==> Cut(h, n) < |h| && RunHead(h[..BackOverUser(h, c)]) == Some(h[Cut(h, n)]))
  {
    NthFromEnd(h, n);
    SettleKeeps(h, NthLast(h, n));
  }

  ghost predicate Calls(m: Message) {
    m.role.Assistant? && m.toolCalls != []
  }

  /** What the cut keeps in front of the n-th last assistant message: the user message directly before it, the tool
      results before that, and the message that called for them, as far as they are there, and nothing else. */
  lemma CutTakesAlong(h: seq<Message>, n: nat) returns (c: nat, b: nat, a: nat)
    requires 0 < n < |AssistantIndices(h)|
    ensures Cut(h, n) <= a <= b <= c < |h| && h[c].role.Assistant? && |AssistantIndices(h[c..])| == n
    ensures b == (if c > 0 && h[c - 1].role.User? then c - 1 else c)
    ensures (forall i :: a <= i < b ==> h[i].role.Tool?) && (a > 0 ==> !h[a - 1].role.Tool?)
    ensures Cut(h, n) == (if a > 0 && Calls(h[a - 1]) then a - 1 else a)
  {
    c := NthLast(h, n);
    b := BackOverUser(h, c);
    a := BackOverTools(h, b);
    NthFromEnd(h, n);
    ToolsBetween(h, b);
  }

  lemma {:induction false} ToolsBetween(h: seq<Message>, c: nat)
    requires c <= |h|
    ensures forall i :: BackOverTools(h, c) <= i < c ==> h[i].role.Tool?
    ensures BackOverTools(h, c) > 0 ==> !h[BackOverTools(h, c) - 1].role.Tool?
  {
    if c > 0 && h[c - 1].role.Tool? {
      ToolsBetween(h, c - 1);
    }
  }

  lemma CutIsClean(h: seq<Message>, n: nat)
    requires n > 0
    ensures CleanCut(h[..Cut(h, n)], h[Cut(h, n)..])
  {
    if |AssistantIndices(h)| > n {
      BackOverToolsKeeps(h, BackOverUser(h, NthLast(h, n)));
    }
  }

  /** Keeping the last n assistant messages keeps a history well-formed. */
  lemma CutKeepsWellFormed(h: seq<Message>, n: nat)
    requires n > 0 && WellFormed(h)
    ensures WellFormed(h[Cut(h, n)..])
  {
    var c := Cut(h, n);
    assert h[..c] + h[c..] == h;
    CutIsClean(h, n);
    AnsweredIsWellFormed(h);
    CleanSuffix(h[..c], h[c..]);
    AnsweredIsWellFormed(h[c..]);
  }

  lemma PlainIsAnswered(m: Message)
    requires !m.role.Tool?
    ensures Answered([m], false)
  {
    assert [m][..0] == [];
  }

  lemma SummaryKeepsWellFormed(text: string, h: seq<Message>)
    requires WellFormed(h)
    ensures WellFormed([SummaryMessage(text)] + h)
  {
    AnsweredIsWellFormed(h);
    PlainIsAnswered(SummaryMessage(text));
    AppendKeeps([SummaryMessage(text)], h, false);
    AnsweredIsWellFormed([SummaryMessage(text)] + h);
  }

  lemma SoftTrimKeepsWellFormed(h: seq<Message>, n: nat, summarize: Summarizer)
    requires n > 0 && WellFormed(h)
    ensures WellFormed(SoftTrimmed(h, n, summarize))
  {
    var summary := summarize(h[..Cut(h, n)]);
    if |AssistantIndices(h)| > n && summary.Some? {
      CutKeepsWellFormed(h, n);
      SummaryKeepsWellFormed(SOFT_PREFIX + summary.value, h[Cut(h, n)..]);
    }
  }

  /** With more than n assistant messages and a summary of what is cut off, soft trimming leaves one assistant message
      with that summary and behind it the end of the history, which holds n or n + 1 of them; otherwise everything. */
  lemma SoftTrimMeans(h: seq<Message>, n: nat, summarize: Summarizer) returns (cut: nat)
    requires n > 0
    ensures cut <= |h|
    ensures var r, kept := SoftTrimmed(h, n, summarize), |AssistantIndices(h[cut..])|;
            if |AssistantIndices(h)| <= n || summarize(h[..cut]).None? then r == h
            else
              && r == [Message(Assistant, "[Conversation summary]: " + summarize(h[..cut]).value, [], [], "", "")]
                      + h[cut..]
              && (kept == n || (kept == n + 1 && h[cut].toolCalls != []))
  {
    cut := Cut(h, n);
    if |AssistantIndices(h)| > n {
      CutKeepsAssistants(h, n);
    }
  }

  // ---------------------------------------------------------------- compressing tool results

  /** The marker between head and tail, as UTF-8 bytes. */
  const MARK := "\n\U{e2}\U{80}\U{a6}[trimmed]\U{e2}\U{80}\U{a6}\n"

  function Compressed(m: Message): Message {
    var head := if |m.content| > 100 then m.content[..100] else m.content;
    var tail := if |m.content| > 80 then m.content[|m.content| - 80..] else m.content;
    Message(m.role, head + MARK + tail, [], [], m.toolCallId, m.name)
  }

  /** From this index on tool results are left alone. */
  function KeepBoundary(h: seq<Message>, n: nat): (r: nat)
    requires n > 0
    ensures r <= |h|
  {
    if |AssistantIndices(h)| <= n then 0 else BackOverCalls(h, BackOverTools(h, NthLast(h, n)))
  }

  predicate Compressible(m: Message) {
    m.role.Tool? && |m.content| > 200
  }

  function Pruned(h: seq<Message>, n: nat): (r: seq<Message>)
    requires n > 0
    ensures |r| == |h|
  {
    seq(|h|, i requires 0 <= i < |h| => if i < KeepBoundary(h, n) && Compressible(h[i]) then Compressed(h[i]) else h[i])
  }

  /** The boundary before which tool results may be compressed. */
  method FindKeepBoundary(msgs: seq<Message>, keepRecent: nat) returns (boundary: nat)
    requires keepRecent > 0
    ensures boundary == KeepBoundary(msgs, keepRecent)
  {
    var indices := CollectAssistants(msgs);
    boundary := 0;
    if |indices| > keepRecent {
      boundary := indices[|indices| - keepRecent];
      ghost var start := boundary;
      while boundary > 0 && msgs[boundary - 1].role.Tool?
        invariant boundary <= |msgs| && BackOverTools(msgs, boundary) == BackOverTools(msgs, start)
      {
        boundary := boundary - 1;
      }
      if boundary > 0 && msgs[boundary - 1].role.Assistant? && |msgs[boundary - 1].toolCalls| > 0 {
        boundary := boundary - 1;
      }
    }
  }

  method PruneToolResults(msgs: seq<Message>, keep: int) returns (out: seq<Message>)
    ensures out == Pruned(msgs, Positive(keep))
  {
    var keepRecent := keep;
    if keepRecent <= 0 {
      keepRecent := 2;
    }
    var boundary := FindKeepBoundary(msgs, keepRecent);
    out := [];
    for i := 0 to |msgs|
      invariant |out| == i
      invariant forall k :: 0 <= k < i ==> out[k] == Pruned(msgs, keepRecent)[k]
    {
      var m := msgs[i];
      if m.role.Tool? && i < boundary && |m.content| > 200 {
        var head := m.content;
        if |head| > 100 {
          head := head[..100];
        }
        var tail := m.content;
        if |tail| > 80 {
          tail := tail[|tail| - 80..];
        }
        out := out + [Message(m.role, head + MARK + tail, [], [], m.toolCallId, m.name)];
      } else {
        out := out + [m];
      }
    }
  }

  /** Between position i and position c stands a message that is no tool result. */
  ghost predicate OtherBetween(h: seq<Message>, i: nat, c: nat) {
    exists j :: i < j < c && j < |h| && !h[j].role.Tool?
  }

  lemma {:induction false} BackOverToolsStops(h: seq<Message>, c: nat, i: nat)
    requires i < c <= |h| && h[i].role.Tool?
    ensures i < BackOverTools(h, c) <==> OtherBetween(h, i, c)
    decreases c
  {
    if h[c - 1].role.Tool? {
      if i < c - 1 {
        BackOverToolsStops(h, c - 1, i);
        assert OtherBetween(h, i, c) <==> OtherBetween(h, i, c - 1);
      }
    }
  }

  lemma BackOverCallsStaysBehind(h: seq<Message>, b: nat, i: nat)
    requires i < |h| && b <= |h| && h[i].role.Tool?
    ensures i < BackOverCalls(h, b) <==> i < b
  {
  }

  /** Pruning replaces a tool result of more than 200 bytes in front of the last n assistant messages by its first 100
      and last 80 bytes, unless only tool results stand between it and them; it changes nothing else. */
  lemma PruneMeans(h: seq<Message>, n: nat, i: nat)
    requires n > 0 && i < |h|
    ensures var m := h[i];
            Pruned(h, n)[i]
            == if |AssistantIndices(h)| > n && i < NthLast(h, n) && m.role.Tool? && |m.content| > 200
                  && OtherBetween(h, i, NthLast(h, n))
               then Message(Tool, m.content[..100] + MARK + m.content[|m.content| - 80..], [], [], m.toolCallId, m.name)
               else m
  {
    if |AssistantIndices(h)| > n && h[i].role.Tool? {
      var c := NthLast(h, n);
      if i < c {
        BackOverToolsStops(h, c, i);
      }
      BackOverCallsStaysBehind(h, BackOverTools(h, c), i);
    }
  }

  /** Same roles, same result IDs, same calls: all that ownership depends on. */
  ghost predicate SameSkeleton(a: Message, b: Message) {
    a.role == b.role && a.toolCallId == b.toolCallId && (!a.role.Tool? ==> a.toolCalls == b.toolCalls)
  }

  lemma PrunedSkeleton(h: seq<Message>, n: nat)
    requires n > 0
    ensures forall i :: 0 <= i < |h| ==> SameSkeleton(h[i], Pruned(h, n)[i])
  {
  }

  /** Compressing old results keeps a history well-formed. */
  lemma PruneKeepsWellFormed(h: seq<Message>, n: nat)
    requires n > 0 && WellFormed(h)
    ensures WellFormed(Pruned(h, n))
  {
    var p := Pruned(h, n);
    PrunedSkeleton(h, n);
    forall i | 0 <= i < |p| && NeedsOwner(p[i])
      ensures Owned(p, i)
    {
      assert SameSkeleton(h[i], p[i]);
      assert NeedsOwner(h[i]) && Owned(h, i);
      var j :| Owner(h, j, i);
      assert SameSkeleton(h[j], p[j]);
      assert forall k :: j < k < i ==> SameSkeleton(h[k], p[k]);
      assert Owner(p, j, i);
    }
  }

  lemma {:induction false} IndicesOfSkeleton(a: seq<Message>, b: seq<Message>)
    requires |a| == |b| && forall i :: 0 <= i < |a| ==> a[i].role == b[i].role
    ensures AssistantIndices(a) == AssistantIndices(b)
    decreases |a|
  {
    if a != [] {
      IndicesOfSkeleton(a[..|a| - 1], b[..|b| - 1]);
    }
  }

  lemma {:induction false} BackOverToolsOfSkeleton(a: seq<Message>, b: seq<Message>, c: nat)
    requires |a| == |b| && c <= |a| && forall i :: 0 <= i < |a| ==> SameSkeleton(a[i], b[i])
    ensures BackOverTools(a, c) == BackOverTools(b, c)
  {
    if c > 0 {
      assert SameSkeleton(a[c - 1], b[c - 1]);
      BackOverToolsOfSkeleton(a, b, c - 1);
    }
  }

  lemma BackOverCallsOfSkeleton(a: seq<Message>, b: seq<Message>, c: nat)
    requires |a| == |b| && c <= |a| && forall i :: 0 <= i < |a| ==> SameSkeleton(a[i], b[i])
    ensures BackOverCalls(a, c) == BackOverCalls(b, c)
  {
    assert c > 0 ==> SameSkeleton(a[c - 1], b[c - 1]);
  }

  lemma BoundaryOfSkeleton(a: seq<Message>, b: seq<Message>, n: nat)
    requires n > 0 && |a| == |b| && forall i :: 0 <= i < |a| ==> SameSkeleton(a[i], b[i])
    ensures KeepBoundary(a, n) == KeepBoundary(b, n)
  {
    IndicesOfSkeleton(a, b);
    if |AssistantIndices(a)| > n {
      BackOverToolsOfSkeleton(a, b, NthLast(a, n));
      BackOverCallsOfSkeleton(a, b, BackOverTools(a, NthLast(a, n)));
    }
  }

  lemma BoundaryOfPruned(h: seq<Message>, n: nat)
    requires n > 0
    ensures KeepBoundary(Pruned(h, n), n) == KeepBoundary(h, n)
  {
    PrunedSkeleton(h, n);
    BoundaryOfSkeleton(h, Pruned(h, n), n);
  }

  /** A compressed result is short enough never to be compressed again: pruning twice is pruning once. */
  lemma PruneIsIdempotent(h: seq<Message>, n: nat)
    requires n > 0
    ensures Pruned(Pruned(h, n), n) == Pruned(h, n)
  {
    var p := Pruned(h, n);
    BoundaryOfPruned(h, n);
    forall i | 0 <= i < |h|
      ensures Pruned(p, n)[i] == p[i]
    {
      if i < KeepBoundary(h, n) && Compressible(h[i]) {
        assert |Compressed(h[i]).content| == 197;
      }
    }
  }

  /** The results behind the last n assistant messages are untouched. */
  lemma PruneKeepsRecent(h: seq<Message>, n: nat)
    requires 0 < n < |AssistantIndices(h)|
    ensures Pruned(h, n)[NthLast(h, n)..] == h[NthLast(h, n)..]
  {
  }

  // ---------------------------------------------------------------- token estimates

  function CallTokens(calls: seq<ToolCall>): nat {
    if calls == [] then 0
    else CallTokens(calls[..|calls| - 1]) + |calls[|calls| - 1].arguments| / 4 + |calls[|calls| - 1].name| / 4
  }

  function ImageTokens(urls: seq<string>): nat {
    if urls == [] then 0 else ImageTokens(urls[..|urls| - 1]) + |urls[|urls| - 1]| / 4
  }

  function MessageTokens(m: Message): nat {
    |m.content| / 4 + 4 + CallTokens(m.toolCalls) + ImageTokens(m.images)
  }

  function Tokens(h: seq<Message>): nat {
    if h == [] then 0 else Tokens(h[..|h| - 1]) + MessageTokens(h[|h| - 1])
  }

  method EstimateTokens(msgs: seq<Message>) returns (total: nat)
    ensures total == Tokens(msgs)
  {
    total := 0;
    for i := 0 to |msgs|
      invariant total == Tokens(msgs[..i])
    {
      var m := msgs[i];
      assert msgs[..i + 1][..i] == msgs[..i];
      ghost var before := total;
      total := total + |m.content| / 4 + 4;
      for k := 0 to |m.toolCalls|
        invariant total == before + |m.content| / 4 + 4 + CallTokens(m.toolCalls[..k])
      {
        assert m.toolCalls[..k + 1][..k] == m.toolCalls[..k];
        total := total + |m.toolCalls[k].arguments| / 4 + |m.toolCalls[k].name| / 4;
      }
      assert m.toolCalls[..|m.toolCalls|] == m.toolCalls;
      for k := 0 to |m.images|
        invariant total == before + |m.content| / 4 + 4 + CallTokens(m.toolCalls) + ImageTokens(m.images[..k])
      {
        assert m.images[..k + 1][..k] == m.images[..k];
        total := total + |m.images[k]| / 4;
      }
      assert m.images[..|m.images|] == m.images;
    }
    assert msgs[..|msgs|] == msgs;
  }

  lemma {:induction false} TokensConcat(a: seq<Message>, b: seq<Message>)
    ensures Tokens(a + b) == Tokens(a) + Tokens(b)
    decreases |b|
  {
    if b == [] {
      assert a + b == a;
    } else {
      assert (a + b)[..|a + b| - 1] == a + b[..|b| - 1];
      TokensConcat(a, b[..|b| - 1]);
    }
  }

  /** The estimate of a message: four, a quarter of its text, and a quarter of each image URL, and of the arguments and
      the name of each call. */
  lemma TokensOfOne(m: Message, url: string, tc: ToolCall)
    ensures m.images == [] && m.toolCalls == [] ==> Tokens([m]) == 4 + |m.content| / 4
    ensures Tokens([m.(images := m.images + [url])]) == Tokens([m]) + |url| / 4
    ensures Tokens([m.(toolCalls := m.toolCalls + [tc])]) == Tokens([m]) + |tc.arguments| / 4 + |tc.name| / 4
  {
    assert (m.images + [url])[..|m.images|] == m.images;
    assert (m.toolCalls + [tc])[..|m.toolCalls|] == m.toolCalls;
    OneMessage(m);
    OneMessage(m.(images := m.images + [url]));
    OneMessage(m.(toolCalls := m.toolCalls + [tc]));
  }

  lemma OneMessage(m: Message)
    ensures Tokens([m]) == MessageTokens(m)
  {
    assert [m][..0] == [];
  }

  lemma {:induction false} PointwiseTokens(a: seq<Message>, b: seq<Message>)
    requires |a| == |b| && forall i :: 0 <= i < |a| ==> MessageTokens(b[i]) <= MessageTokens(a[i])
    ensures Tokens(b) <= Tokens(a)
    decreases |a|
  {
    if a != [] {
      PointwiseTokens(a[..|a| - 1], b[..|b| - 1]);
    }
  }

  /** Pruning never raises the estimate. */
  lemma PruneSavesTokens(h: seq<Message>, n: nat)
    requires n > 0
    ensures Tokens(Pruned(h, n)) <= Tokens(h)
  {
    var p := Pruned(h, n);
    forall i | 0 <= i < |h|
      ensures MessageTokens(p[i]) <= MessageTokens(h[i])
    {
      if i < KeepBoundary(h, n) && Compressible(h[i]) {
        assert |Compressed(h[i]).content| == 197;
      }
    }
    PointwiseTokens(h, p);
  }
}
