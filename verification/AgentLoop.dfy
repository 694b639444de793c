/** One chat turn: the tool-calling loop, mid-loop compaction, and what is stored afterwards. */
module AgentLoop {
  import opened Options
  import opened Messages
  import opened History
  import opened HistoryCuts
  import opened TokenChunks
  import opened SessionStore

  const MAX_OVERFLOW_COMPACTIONS := 3

  /** What one iteration meets: a request that cannot be built, a failed model call, or an answer. The answer
      comes with the texts its tools will return, the order they finish in, and the loop detector's verdict. */
  datatype Iteration =
    | RequestFails
    | CallFails(overflow: bool)
    | Answer(content: string, calls: seq<ToolCall>, results: nat -> string, finishing: seq<nat>, stuck: bool)

  datatype LoopResult = Replied | Stopped | LoopFailed(overflow: bool)

  function ToolMessage(tc: ToolCall, result: string): Message {
    Message(Tool, result, [], [], tc.id, "")
  }

  function SystemMessage(text: string): Message {
    Message(System, text, [], [], "", "")
  }

  function UserMessage(text: string): Message {
    Message(User, text, [], [], "", "")
  }

  /** One result per call, in the order of the calls and under their IDs. */
  function ToolMessages(calls: seq<ToolCall>, results: nat -> string): (r: seq<Message>)
    ensures |r| == |calls|
    ensures forall i: nat :: i < |calls| ==> r[i] == ToolMessage(calls[i], results(i))
  {
    if calls == [] then []
    else
      var last := |calls| - 1;
      ToolMessages(calls[..last], results) + [ToolMessage(calls[last], results(last))]
  }

  /** Every tool goroutine finishes (a panic is turned into a result), and no other does. */
  ghost predicate AllFinish(calls: seq<ToolCall>, finishing: seq<nat>) {
    forall i: nat :: i < |calls| <==> i in finishing
  }

  ghost predicate ToolsFinish(script: nat -> Iteration) {
    forall k :: script(k).Answer? ==> AllFinish(script(k).calls, script(k).finishing)
  }

  /** Each goroutine writes only its own slot, so the order in which tools finish does not matter. */
  method ExecuteTools(calls: seq<ToolCall>, results: nat -> string, finishing: seq<nat>) returns (msgs: array<Message>)
    requires AllFinish(calls, finishing)
    ensures fresh(msgs) && msgs[..] == ToolMessages(calls, results)
  {
    msgs := new Message[|calls|](_ => Message(OtherRole(""), "", [], [], "", ""));
    for k := 0 to |finishing|
      invariant forall i: nat :: i < |calls| && i in finishing[..k] ==> msgs[i] == ToolMessage(calls[i], results(i))
    {
      var i := finishing[k];
      assert i in finishing;
      assert finishing[..k + 1] == finishing[..k] + [i];
      msgs[i] := ToolMessage(calls[i], results(i));
    }
    assert finishing[..|finishing|] == finishing;
  }

  /** An assistant message followed by the results of its calls. */
  lemma {:induction false} RoundIsAnswered(content: string, calls: seq<ToolCall>, results: nat -> string, k: nat)
    requires k <= |calls|
    ensures var round := [AssistantMessage(content, calls)] + ToolMessages(calls, results)[..k];
            Answered(round, false) && RunHead(round) == Some(AssistantMessage(content, calls))
    decreases k
  {
    var a, tools := AssistantMessage(content, calls), ToolMessages(calls, results);
    if k == 0 {
      assert [a] + tools[..0] == [a];
      PlainIsAnswered(a);
      assert [a][..0] == [];
    } else {
      RoundIsAnswered(content, calls, results, k - 1);
      ResultIsIssued(content, calls, results, k - 1);
      NextResult(a, tools, k - 1);
    }
  }

  lemma NextResult(a: Message, tools: seq<Message>, k: nat)
    requires k < |tools| && tools[k].role.Tool? && Issues(a, tools[k].toolCallId)
    requires Answered([a] + tools[..k], false) && RunHead([a] + tools[..k]) == Some(a)
    ensures Answered([a] + tools[..k + 1], false) && RunHead([a] + tools[..k + 1]) == Some(a)
  {
    assert [a] + tools[..k + 1] == ([a] + tools[..k]) + [tools[k]];
    ResultFollows([a] + tools[..k], a, tools[k]);
  }

  lemma ResultIsIssued(content: string, calls: seq<ToolCall>, results: nat -> string, i: nat)
    requires i < |calls|
    ensures var m := ToolMessages(calls, results)[i];
            m.role.Tool? && Issues(AssistantMessage(content, calls), m.toolCallId)
  {
    assert ToolMessages(calls, results)[i] == ToolMessage(calls[i], results(i));
    assert AssistantMessage(content, calls).toolCalls[i].id == calls[i].id;
  }

  lemma ResultFollows(h: seq<Message>, a: Message, m: Message)
    requires Answered(h, false) && RunHead(h) == Some(a) && m.role.Tool? && Issues(a, m.toolCallId)
    ensures Answered(h + [m], false) && RunHead(h + [m]) == Some(a)
  {
    assert (h + [m])[..|h|] == h;
  }

  /** Appending a message that is no tool result. */
  lemma AppendPlain(h: seq<Message>, m: Message, slack: bool)
    requires Answered(h, slack) && !m.role.Tool?
    ensures Answered(h + [m], slack)
  {
    PlainIsAnswered(m);
    AppendKeeps(h, [m], slack);
  }

  lemma Compacting(h: seq<Message>, n: nat, summarize: Summarizer)
    requires n > 0 && Answered(h, false)
    ensures Answered(SoftTrimmed(h, n, summarize), false) && Trimmed(SoftTrimmed(h, n, summarize))
    ensures Sanitized(SoftTrimmed(h, n, summarize)) == SoftTrimmed(h, n, summarize)
  {
    var r := SoftTrimmed(h, n, summarize);
    AnsweredIsWellFormed(h);
    SoftTrimKeepsWellFormed(h, n, summarize);
    AnsweredIsWellFormed(r);
    StrictIsSlack(r);
    WellFormedIsSanitized(r);
  }

  // ---------------------------------------------------------------- the loop as a function of what it meets

  /** Everything the loop depends on: session is the live session's ID, saved says which rewrites reach the disk. */
  datatype LoopEnv = LoopEnv(maxIt: nat, keepLast: int, session: Option<string>, script: nat -> Iteration,
                             nudge: nat -> string, summarize: Summarizer, saved: nat -> bool)

  /** messages is what the model sees, added what the turn will store, written the last history that overflow
      recovery has put on disk. */
  datatype LoopState = LoopState(messages: seq<Message>, added: seq<Message>, compactions: nat, warned: bool,
                                 written: Option<seq<Message>>)

  function Grown(st: LoopState, ms: seq<Message>): LoopState {
    st.(messages := st.messages + ms, added := st.added + ms)
  }

  function Warned(e: LoopEnv, st: LoopState, iter: nat): LoopState {
    if !st.warned && iter >= e.maxIt * 4 / 5 then Grown(st, [SystemMessage(e.nudge(iter))]).(warned := true) else st
  }

  /** ms is the message with the answer's text and calls and, unless the loop ends there, one tool message per call
      behind it: the i-th with the ID of the i-th call and the text its tool returned. */
  ghost predicate IsRound(it: Iteration, ms: seq<Message>)
    requires it.Answer?
  {
    && ms != [] && ms[0] == Message(Assistant, it.content, [], it.calls, "", "")
    && |ms| == 1 + (if it.calls != [] && !it.stuck then |it.calls| else 0)
    && forall i: nat :: i < |ms| - 1 ==> ms[1 + i] == Message(Tool, it.results(i), [], [], it.calls[i].id, "")
  }

  /** What an answer adds: the message and, unless the loop ends there, the results of its calls. */
  function RoundOf(it: Iteration): seq<Message>
    requires it.Answer?
  {
    [AssistantMessage(it.content, it.calls)]
    + if it.calls != [] && !it.stuck then ToolMessages(it.calls, it.results) else []
  }

  lemma RoundOfIsRound(it: Iteration)
    requires it.Answer?
    ensures IsRound(it, RoundOf(it))
  {
  }

  function Shortened(e: LoopEnv, st: LoopState, iter: nat): LoopState {
    var h := SoftTrimmed(st.messages, Positive(e.keepLast), e.summarize);
    st.(messages := h, compactions := st.compactions + 1,
        written := if e.session.Some? && e.saved(iter) then Some(h) else st.written)
  }

  predicate Recovers(it: Iteration, st: LoopState) {
    it.CallFails? && it.overflow && st.compactions < MAX_OVERFLOW_COMPACTIONS
  }

  function AfterIteration(e: LoopEnv, st: LoopState, iter: nat): LoopState {
    var it := e.script(iter);
    if it.Answer? then Grown(st, RoundOf(it)) else if Recovers(it, st) then Shortened(e, st, iter) else st
  }

  /** How the loop ends with this iteration, if it does. */
  function Ending(it: Iteration, st: LoopState): Option<LoopResult> {
    match it
    case RequestFails => Some(LoopFailed(false))
    case CallFails(overflow) => if Recovers(it, st) then None else Some(LoopFailed(overflow))
    case Answer(_, calls, _, _, stuck) => if calls == [] then Some(Replied) else if stuck then Some(Stopped) else None
  }

  datatype LoopEnd = LoopEnd(st: LoopState, r: LoopResult)

  function LoopFrom(e: LoopEnv, st: LoopState, iter: nat): LoopEnd
    decreases e.maxIt - iter
  {
    if iter >= e.maxIt then LoopEnd(st, Stopped)
    else
      var w := Warned(e, st, iter);
      match Ending(e.script(iter), w)
      case Some(r) => LoopEnd(AfterIteration(e, w, iter), r)
      case None => LoopFrom(e, AfterIteration(e, w, iter), iter + 1)
  }

  /** The files once the last recovery rewrite has reached them. */
  function WithWritten(files: map<string, seq<Message>>, session: Option<string>, written: Option<seq<Message>>)
    : map<string, seq<Message>>
  {
    if session.Some? && written.Some? then files[session.value := written.value] else files
  }

  ghost predicate StateOk(st: LoopState) {
    Answered(st.messages, false) && Answered(st.added, false)
  }

  lemma WarnedIsOk(e: LoopEnv, st: LoopState, iter: nat)
    requires StateOk(st)
    ensures StateOk(Warned(e, st, iter))
  {
    AppendPlain(st.messages, SystemMessage(e.nudge(iter)), false);
    AppendPlain(st.added, SystemMessage(e.nudge(iter)), false);
  }

  lemma RoundIsOk(st: LoopState, it: Iteration)
    requires StateOk(st) && it.Answer?
    ensures StateOk(Grown(st, RoundOf(it)))
  {
    var k := if it.calls != [] && !it.stuck then |it.calls| else 0;
    RoundIsAnswered(it.content, it.calls, it.results, k);
    assert ToolMessages(it.calls, it.results)[..k]
           == if it.calls != [] && !it.stuck then ToolMessages(it.calls, it.results) else [];
    AppendKeeps(st.messages, RoundOf(it), false);
    AppendKeeps(st.added, RoundOf(it), false);
  }

  // ---------------------------------------------------------------- the loop

  ghost predicate SameElsewhere(a: map<string, int>, b: map<string, int>, key: string) {
    forall k :: k != key ==> (k in a <==> k in b) && (k in a ==> a[k] == b[k])
  }

  ghost function SessionOf(sessions: map<string, Entry>, key: string): Option<string> {
    if key in sessions then Some(sessions[key].sessionId) else None
  }

  /** The stored form and the form sent on, which drops orphans: there are none. */
  method Compact(e: LoopEnv, messages: seq<Message>) returns (stored: seq<Message>, sent: seq<Message>)
    requires Answered(messages, false)
    ensures stored == sent == SoftTrimmed(messages, Positive(e.keepLast), e.summarize)
    ensures Answered(sent, false) && Trimmed(stored)
  {
    stored := ForceSoftTrim(messages, e.keepLast, e.summarize);
    Compacting(messages, Positive(e.keepLast), e.summarize);
    var dropped;
    sent, dropped := SanitizeOrphans(stored);
  }

  /** Overflow recovery inside the loop: compact what the model sees and store it. The files become those from before
      the loop with this rewrite in them. */
  method CompactMidLoop(store: Manager, key: string, e: LoopEnv, st: LoopState, iter: nat) returns (st': LoopState)
    requires store.Sound() && StateOk(st) && e.session == SessionOf(store.sessions, key)
    modifies store
    ensures store.Sound() && StateOk(st') && st' == Shortened(e, st, iter)
    ensures store.sessions == old(store.sessions) && store.lastAPICall == old(store.lastAPICall)
    ensures forall before :: old(store.files) == WithWritten(before, e.session, st.written) ==>
                               store.files == WithWritten(before, e.session, st'.written)
    ensures store.files == if key in store.sessions && e.saved(iter)
                           then old(store.files)[store.sessions[key].sessionId := st'.messages] else old(store.files)
  {
    var compacted, messages := Compact(e, st.messages);
    var ok := store.ReplaceHistory(key, compacted, e.saved(iter));
    var written := if key in store.sessions && e.saved(iter) then Some(compacted) else st.written;
    st' := st.(messages := messages, compactions := st.compactions + 1, written := written);
  }

  /** An answer of the model: the message, and the results of its tools unless the loop ends here. */
  method TakeAnswer(st: LoopState, it: Iteration) returns (st': LoopState, round: seq<Message>)
    requires StateOk(st) && it.Answer? && AllFinish(it.calls, it.finishing)
    ensures IsRound(it, round)
    ensures st' == st.(messages := st.messages + round, added := st.added + round)
    ensures StateOk(st') && st' == Grown(st, RoundOf(it))
  {
    RoundIsOk(st, it);
    RoundOfIsRound(it);
    round := [AssistantMessage(it.content, it.calls)];
    if |it.calls| > 0 && !it.stuck {
      var toolMsgs := ExecuteTools(it.calls, it.results, it.finishing);
      round := round + toolMsgs[..];
    }
    assert round == RoundOf(it);
    st' := st.(messages := st.messages + round, added := st.added + round);
  }

  /** One iteration, after the nudge; None means the loop goes on. before is what the files were when the loop
      began. */
  method Iterate(store: Manager, key: string, e: LoopEnv, st: LoopState, iter: nat, now: int,
                 ghost before: map<string, seq<Message>>)
    returns (st': LoopState, r: Option<LoopResult>)
    requires store.Sound() && StateOk(st) && e.session == SessionOf(store.sessions, key)
    requires e.script(iter).Answer? ==> AllFinish(e.script(iter).calls, e.script(iter).finishing)
    requires store.files == WithWritten(before, e.session, st.written)
    modifies store
    ensures store.Sound() && StateOk(st') && st' == AfterIteration(e, st, iter) && r == Ending(e.script(iter), st)
    ensures store.sessions == old(store.sessions) && SameElsewhere(store.lastAPICall, old(store.lastAPICall), key)
    ensures store.files == WithWritten(before, e.session, st'.written)
  {
    var it := e.script(iter);
    st', r := st, None;
    match it {
      case RequestFails =>
        r := Some(LoopFailed(false));
      case CallFails(overflow) =>
        if overflow && st.compactions < MAX_OVERFLOW_COMPACTIONS {
          st' := CompactMidLoop(store, key, e, st, iter);
        } else {
          r := Some(LoopFailed(overflow));
        }
      case Answer(content, calls, results, finishing, stuck) =>
        store.TouchAPICall(key, now);
        var round;
        st', round := TakeAnswer(st, it);
        if |calls| == 0 {
          r := Some(Replied);
        } else if stuck {
          r := Some(Stopped);
        }
    }
  }

  /** The soft warning near the iteration limit. */
  method Nudge(e: LoopEnv, st: LoopState, iter: nat) returns (w: LoopState)
    requires StateOk(st)
    ensures StateOk(w) && w == Warned(e, st, iter)
  {
    WarnedIsOk(e, st, iter);
    w := st;
    if !st.warned && iter >= e.maxIt * 4 / 5 {
      var warning := SystemMessage(e.nudge(iter));
      w := st.(messages := st.messages + [warning], added := st.added + [warning], warned := true);
    }
  }

  /** The loop. The clock only feeds the cache timestamp. */
  method Loop(store: Manager, key: string, e: LoopEnv, start: LoopState, clock: nat -> int,
              ghost before: map<string, seq<Message>>)
    returns (end: LoopEnd)
    requires store.Sound() && StateOk(start) && e.session == SessionOf(store.sessions, key) && ToolsFinish(e.script)
    requires store.files == WithWritten(before, e.session, start.written)
    modifies store
    ensures store.Sound() && StateOk(end.st) && end == LoopFrom(e, start, 0)
    ensures store.sessions == old(store.sessions) && SameElsewhere(store.lastAPICall, old(store.lastAPICall), key)
    ensures store.files == WithWritten(before, e.session, end.st.written)
  {
    var st := start;
    for iter := 0 to e.maxIt
      invariant store.Sound() && StateOk(st) && LoopFrom(e, st, iter) == LoopFrom(e, start, 0)
      invariant store.sessions == old(store.sessions) && SameElsewhere(store.lastAPICall, old(store.lastAPICall), key)
      invariant store.files == WithWritten(before, e.session, st.written)
    {
      var w := Nudge(e, st, iter);
      var ended;
      st, ended := Iterate(store, key, e, w, iter, clock(iter), before);
      if ended.Some? {
        return LoopEnd(st, ended.value);
      }
    }
    return LoopEnd(st, Stopped);
  }

  // ---------------------------------------------------------------- a turn

  /** Which disk operations of a turn succeed. */
  datatype Disk = Disk(loads: bool, cleaned: bool, pruned: bool, trimmed: bool, rewritten: nat -> bool, cleared: bool,
                       rewrittenAgain: nat -> bool, appended: bool, reached: nat)

  datatype Turn = Turn(text: string, now: int, newId: string, ratio: real, maxTokens: int, keepLast: int, maxIt: nat,
                       script: nat -> Iteration, scriptAgain: nat -> Iteration, nudge: nat -> string,
                       chunkSummary: seq<Message> -> string, merge: seq<string> -> string, summarize: Summarizer,
                       clock: nat -> int, disk: Disk)

  predicate TrimDue(t: Turn, seen: seq<Message>) {
    t.ratio > 0.0 && Tokens(seen) > Threshold(t.ratio, t.maxTokens)
  }

  /** The history the turn works on: compacted when due, or summarized plainly when there is no room to. */
  function Working(t: Turn, seen: seq<Message>): seq<Message> {
    if !TrimDue(t, seen) then seen
    else
      match CompactedForm(seen, t.maxTokens, Positive(t.keepLast), t.chunkSummary, t.merge)
      case Compacted(h) => h
      case BudgetTooSmall => SoftTrimmed(seen, Positive(t.keepLast), t.summarize)
  }

  /** The files when the first model call is made. */
  function FilesBefore(t: Turn, files: map<string, seq<Message>>, session: Option<string>, seen: seq<Message>)
    : map<string, seq<Message>>
  {
    if TrimDue(t, seen) && t.disk.trimmed && session.Some? then files[session.value := Working(t, seen)] else files
  }

  function FirstEnv(t: Turn, session: Option<string>): LoopEnv {
    LoopEnv(t.maxIt, t.keepLast, session, t.script, t.nudge, t.summarize, t.disk.rewritten)
  }

  function SecondEnv(t: Turn, session: Option<string>): LoopEnv {
    LoopEnv(t.maxIt, t.keepLast, session, t.scriptAgain, t.nudge, t.summarize, t.disk.rewrittenAgain)
  }

  function FirstLoop(t: Turn, session: Option<string>, seen: seq<Message>): LoopEnd {
    LoopFrom(FirstEnv(t, session), LoopState(Working(t, seen) + [UserMessage(t.text)], [], 0, false, None), 0)
  }

  predicate Overflowed(end: LoopEnd) {
    end.r.LoopFailed? && end.r.overflow
  }

  /** The second attempt starts from the user's message alone; clearing the stored history is a rewrite too. */
  function SecondStart(t: Turn, session: Option<string>, written: Option<seq<Message>>): LoopState {
    var user := UserMessage(t.text);
    LoopState([user], [], 0, false, if session.Some? && t.disk.cleared then Some([user]) else written)
  }

  /** The loop on a history that ends with the user's message, run again on that message alone when the context
      overflows for good. */
  function Loops(t: Turn, session: Option<string>, seen: seq<Message>): LoopEnd {
    var first := FirstLoop(t, session, seen);
    if Overflowed(first) then LoopFrom(SecondEnv(t, session), SecondStart(t, session, first.st.written), 0) else first
  }

  /** What the turn stores when it succeeds. */
  function TurnMessages(t: Turn, end: LoopEnd): seq<Message> {
    [UserMessage(t.text)] + end.st.added
  }

  function SessionId(t: Turn, session: Option<string>): string {
    if session.Some? then session.value else t.newId
  }

  /** The files after the turn. */
  function FilesAfter(t: Turn, files: map<string, seq<Message>>, session: Option<string>, seen: seq<Message>)
    : map<string, seq<Message>>
  {
    var end := Loops(t, session, seen);
    var base := WithWritten(FilesBefore(t, files, session, seen), session, end.st.written);
    if end.r.LoopFailed? then base
    else AfterAppend(base, SessionId(t, session), TurnMessages(t, end), t.disk.appended, t.disk.reached)
  }

  /** Compaction before a turn, when the estimate exceeds the soft threshold. */
  method SoftTrim(store: Manager, key: string, t: Turn, history: seq<Message>) returns (r: seq<Message>)
    requires store.Sound() && WellFormed(history)
    modifies store
    ensures store.Sound() && WellFormed(r) && r == Working(t, history)
    ensures store.sessions == old(store.sessions) && store.lastAPICall == old(store.lastAPICall)
    ensures store.files == FilesBefore(t, old(store.files), SessionOf(store.sessions, key), history)
  {
    if t.ratio <= 0.0 {
      return history;
    }
    var threshold := Threshold(t.ratio, t.maxTokens);
    var tokens := EstimateTokens(history);
    if tokens <= threshold {
      return history;
    }
    var c := CompactHistory(history, t.maxTokens, Positive(t.keepLast), t.chunkSummary, t.merge);
    match c {
      case Compacted(h) =>
        r := h;
      case BudgetTooSmall =>
        r := ForceSoftTrim(history, t.keepLast, t.summarize);
        SoftTrimKeepsWellFormed(history, Positive(t.keepLast), t.summarize);
    }
    WellFormedIsTrimmed(r);
    var ok := store.ReplaceHistory(key, r, t.disk.trimmed);
  }

  method FirstAttempt(store: Manager, key: string, t: Turn, session: Option<string>, ghost seen: seq<Message>,
                      history: seq<Message>)
    returns (end: LoopEnd)
    requires store.Sound() && WellFormed(history) && history == Working(t, seen)
    requires session == SessionOf(store.sessions, key) && ToolsFinish(t.script)
    modifies store
    ensures store.Sound() && StateOk(end.st) && end == FirstLoop(t, session, seen)
    ensures store.sessions == old(store.sessions) && SameElsewhere(store.lastAPICall, old(store.lastAPICall), key)
    ensures store.files == WithWritten(old(store.files), session, end.st.written)
  {
    var user := UserMessage(t.text);
    AnsweredIsWellFormed(history);
    AppendPlain(history, user, false);
    WellFormedIsSanitized(history + [user]);
    var wire, orphans := SanitizeOrphans(history + [user]);
    end := Loop(store, key, FirstEnv(t, session), LoopState(wire, [], 0, false, None), t.clock, store.files);
  }

  /** Clear the stored history and try again with the user's message alone. */
  method SecondAttempt(store: Manager, key: string, t: Turn, session: Option<string>, written: Option<seq<Message>>,
                       ghost before: map<string, seq<Message>>)
    returns (end: LoopEnd)
    requires store.Sound() && session == SessionOf(store.sessions, key) && ToolsFinish(t.scriptAgain)
    requires store.files == WithWritten(before, session, written)
    modifies store
    ensures store.Sound() && StateOk(end.st)
    ensures end == LoopFrom(SecondEnv(t, session), SecondStart(t, session, written), 0)
    ensures store.sessions == old(store.sessions) && SameElsewhere(store.lastAPICall, old(store.lastAPICall), key)
    ensures store.files == WithWritten(before, session, end.st.written)
  {
    var user := UserMessage(t.text);
    PlainIsAnswered(user);
    StrictIsSlack([user]);
    var ok := store.ReplaceHistory(key, [user], t.disk.cleared);
    WellFormedIsSanitized([user]);
    var wire, orphans := SanitizeOrphans([user]);
    var start := LoopState(wire, [], 0, false, if session.Some? && t.disk.cleared then Some([user]) else written);
    end := Loop(store, key, SecondEnv(t, session), start, t.clock, before);
  }

  /** Both attempts. */
  method LoopWithRecovery(store: Manager, key: string, t: Turn, session: Option<string>, ghost seen: seq<Message>,
                          history: seq<Message>)
    returns (end: LoopEnd)
    requires store.Sound() && WellFormed(history) && history == Working(t, seen)
    requires session == SessionOf(store.sessions, key) && ToolsFinish(t.script) && ToolsFinish(t.scriptAgain)
    modifies store
    ensures store.Sound() && StateOk(end.st) && end == Loops(t, session, seen)
    ensures store.sessions == old(store.sessions) && SameElsewhere(store.lastAPICall, old(store.lastAPICall), key)
    ensures store.files == WithWritten(old(store.files), session, end.st.written)
  {
    ghost var before := store.files;
    end := FirstAttempt(store, key, t, session, seen, history);
    if end.r.LoopFailed? && end.r.overflow {
      end := SecondAttempt(store, key, t, session, end.st.written, before);
    }
  }

  datatype TurnResult = TurnDone(added: seq<Message>) | TurnFailed

  /** The session a turn finds: an expired one is as good as none. */
  ghost function LiveSession(store: Manager, key: string, now: int): Option<string>
    reads store
  {
    if key in store.sessions && !store.Expired(key, now) then Some(store.sessions[key].sessionId) else None
  }

  /** The files after the turn has read its history. */
  ghost function FilesRead(store: Manager, key: string, t: Turn): map<string, seq<Message>>
    reads store
  {
    match LiveSession(store, key, t.now)
    case Some(id) =>
      AfterReading(store.files, id, store.pruning, store.MayPrune(key, t.now), t.disk.cleaned, t.disk.pruned)
    case None => if key in store.sessions then store.files - {store.sessions[key].sessionId} else store.files
  }

  /** The history the turn reads. */
  ghost function HistoryRead(store: Manager, key: string, t: Turn): seq<Message>
    reads store
  {
    match LiveSession(store, key, t.now)
    case Some(id) => Seen(store.Stored(id), store.pruning, store.MayPrune(key, t.now))
    case None => []
  }

  /** A whole turn: read, trim, loop, store. Its result and every file afterwards are those of the functions above;
      a failure to store is logged and no more. */
  method ChatTurn(store: Manager, key: string, t: Turn) returns (r: TurnResult)
    requires store.Sound() && ToolsFinish(t.script) && ToolsFinish(t.scriptAgain)
    modifies store
    ensures store.Sound()
    ensures var session := old(LiveSession(store, key, t.now));
            if session.Some? && !t.disk.loads then
              r == TurnFailed && store.files == old(store.files) && store.sessions == old(store.sessions)
            else
              var seen := old(HistoryRead(store, key, t));
              var end := Loops(t, session, seen);
              && r == (if end.r.LoopFailed? then TurnFailed else TurnDone(end.st.added))
              && store.files == FilesAfter(t, old(FilesRead(store, key, t)), session, seen)
              && store.sessions - {key} == old(store.sessions) - {key}
              && (r.TurnDone? ==> key in store.sessions && store.sessions[key].sessionId == SessionId(t, session)
                                  && Answered(r.added, false))
    ensures SameElsewhere(store.lastAPICall, old(store.lastAPICall), key)
  {
    var read, seen := ReadTurn(store, key, t);
    if !read {
      return TurnFailed;
    }
    r := AnswerTurn(store, key, t, seen);
  }

  /** The history a turn starts from; no session, or an expired one, is an empty one. */
  method ReadTurn(store: Manager, key: string, t: Turn) returns (read: bool, seen: seq<Message>)
    requires store.Sound()
    modifies store
    ensures store.Sound() && (read <==> old(LiveSession(store, key, t.now)).Some? ==> t.disk.loads)
    ensures !read ==> store.files == old(store.files) && store.sessions == old(store.sessions)
    ensures read ==> WellFormed(seen) && seen == old(HistoryRead(store, key, t))
    ensures read ==> store.files == old(FilesRead(store, key, t))
    ensures read ==> SessionOf(store.sessions, key) == old(LiveSession(store, key, t.now))
    ensures store.sessions - {key} == old(store.sessions) - {key}
    ensures SameElsewhere(store.lastAPICall, old(store.lastAPICall), key)
  {
    var reading := store.GetHistory(key, t.now, t.disk.loads, t.disk.cleaned, t.disk.pruned);
    read, seen := !reading.ReadFailed?, if reading.Read? then reading.history else [];
  }

  /** The turn once its history has been read. */
  method AnswerTurn(store: Manager, key: string, t: Turn, seen: seq<Message>) returns (r: TurnResult)
    requires store.Sound() && WellFormed(seen) && ToolsFinish(t.script) && ToolsFinish(t.scriptAgain)
    modifies store
    ensures store.Sound()
    ensures var session := SessionOf(old(store.sessions), key);
            var end := Loops(t, session, seen);
            && r == (if end.r.LoopFailed? then TurnFailed else TurnDone(end.st.added))
            && store.files == FilesAfter(t, old(store.files), session, seen)
            && store.sessions == (if r.TurnDone? then old(store.sessions)[key := Entry(SessionId(t, session), t.now)]
                                  else old(store.sessions))
            && (r.TurnDone? ==> Answered(r.added, false))
    ensures SameElsewhere(store.lastAPICall, old(store.lastAPICall), key)
  {
    var session := if key in store.sessions then Some(store.sessions[key].sessionId) else None;
    var history := SoftTrim(store, key, t, seen);
    var end := LoopWithRecovery(store, key, t, session, seen, history);
    if end.r.LoopFailed? {
      return TurnFailed;
    }
    var user := UserMessage(t.text);
    PlainIsAnswered(user);
    AppendKeeps([user], end.st.added, false);
    var ok := store.AppendMessages(key, [user] + end.st.added, t.newId, t.now, t.disk.appended, t.disk.reached);
    return TurnDone(end.st.added);
  }
}
