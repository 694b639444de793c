/** What the tool-calling loop does with each iteration of its script, and how it ends. */
module LoopRounds {
  import opened Options
  import opened Messages
  import opened HistoryCuts
  import opened TokenChunks
  import opened SessionStore
  import opened AgentLoop
  import opened StoredTurns

  /** The loop goes on behind iteration i: an answer whose tools are run, or an overflow within the limit. */
  predicate Passes(e: LoopEnv, i: nat) {
    GoesOn(e.script(i)) && (Overflow(e.script(i)) ==> OverflowsBefore(e.script, i) < MAX_OVERFLOW_COMPACTIONS)
  }

  ghost predicate Reaches(e: LoopEnv, k: nat) {
    k <= e.maxIt && forall i: nat :: i < k ==> Passes(e, i)
  }

  predicate Starts(st: LoopState) {
    st.compactions == 0 && !st.warned
  }

  /** The loop's state when iteration k begins. */
  function StateBefore(e: LoopEnv, start: LoopState, k: nat): LoopState {
    if k == 0 then start else Next(e, StateBefore(e, start, k - 1), k - 1)
  }

  // ---------------------------------------------------------------- what the attempts of a turn start from

  /** A turn works on the history it has read unless that is above the soft threshold; then on its compacted form, or on
      its soft-trimmed one when there is no room for summaries. */
  lemma WorkingMeans(t: Turn, seen: seq<Message>, n: nat)
    requires n == if t.keepLast <= 0 then 2 else t.keepLast
    ensures Working(t, seen)
            == if t.ratio <= 0.0 || Tokens(seen) <= Threshold(t.ratio, t.maxTokens) then seen
               else
                 match CompactedForm(seen, t.maxTokens, n, t.chunkSummary, t.merge)
                 case Compacted(h) => h
                 case BudgetTooSmall => SoftTrimmed(seen, n, t.summarize)
  {
  }

  /** The shortened history is on disk before the first call when there is a session and the rewrite succeeds; otherwise
      the files are as they were. */
  lemma BeforeTheLoop(t: Turn, files: map<string, seq<Message>>, session: Option<string>, seen: seq<Message>)
    ensures var trims := t.ratio > 0.0 && Tokens(seen) > Threshold(t.ratio, t.maxTokens);
            FilesBefore(t, files, session, seen)
            == if trims && t.disk.trimmed && session.Some? then files[session.value := Working(t, seen)] else files
  {
  }

  /** The first attempt adds the user's message to that history. The second is made exactly when the first ends with the
      context overflowing; it starts from the user's message alone, which is all that is stored then if the rewrite
      succeeds. Each has its own script, and starts with its counts at zero. */
  lemma AttemptsMean(t: Turn, session: Option<string>, seen: seq<Message>)
    ensures var user := Message(User, t.text, [], [], "", "");
            var e1 := LoopEnv(t.maxIt, t.keepLast, session, t.script, t.nudge, t.summarize, t.disk.rewritten);
            var e2 := LoopEnv(t.maxIt, t.keepLast, session, t.scriptAgain, t.nudge, t.summarize, t.disk.rewrittenAgain);
            var first := LoopFrom(e1, LoopState(Working(t, seen) + [user], [], 0, false, None), 0);
            var left := if session.Some? && t.disk.cleared then Some([user]) else first.st.written;
            Loops(t, session, seen)
            == if first.r == LoopFailed(true) then LoopFrom(e2, LoopState([user], [], 0, false, left), 0) else first
  {
  }

  // ---------------------------------------------------------------- the states the loop goes through

  lemma {:induction false} CountsFit(e: LoopEnv, start: LoopState, k: nat)
    requires Starts(start) && Reaches(e, k)
    ensures StateBefore(e, start, k).compactions == OverflowsBefore(e.script, k)
    ensures StateBefore(e, start, k).warned <==> k > 0 && k - 1 >= e.maxIt * 4 / 5
    decreases k
  {
    if k > 0 {
      CountsFit(e, start, k - 1);
      CountStep(e, StateBefore(e, start, k - 1), k - 1);
      assert Passes(e, k - 1);
    }
  }

  lemma PassesOn(e: LoopEnv, st: LoopState, k: nat)
    requires st.compactions == OverflowsBefore(e.script, k)
    ensures Passes(e, k) <==> Ending(e.script(k), Warned(e, st, k)).None?
  {
  }

  /** The loop from its start is the loop from any iteration it reaches. */
  lemma {:induction false} RunsThrough(e: LoopEnv, start: LoopState, k: nat)
    requires Starts(start) && Reaches(e, k)
    ensures LoopFrom(e, start, 0) == LoopFrom(e, StateBefore(e, start, k), k)
    decreases k
  {
    if k > 0 {
      var st := StateBefore(e, start, k - 1);
      RunsThrough(e, start, k - 1);
      CountsFit(e, start, k - 1);
      PassesOn(e, st, k - 1);
      assert Passes(e, k - 1);
      LoopUnfolds(e, st, k - 1);
    }
  }

  // ---------------------------------------------------------------- one iteration

  /** The nudge comes once, in the first iteration past four fifths of the limit. */
  function NudgeAt(e: LoopEnv, k: nat): seq<Message> {
    if k == e.maxIt * 4 / 5 then [Message(System, e.nudge(k), [], [], "", "")] else []
  }

  lemma WarnedIsNudged(e: LoopEnv, start: LoopState, k: nat)
    requires Starts(start) && Reaches(e, k) && k < e.maxIt
    ensures var st, w := StateBefore(e, start, k), Warned(e, StateBefore(e, start, k), k);
            && w.messages == st.messages + NudgeAt(e, k) && w.added == st.added + NudgeAt(e, k)
            && w.written == st.written
  {
    CountsFit(e, start, k);
  }

  /** Both lists of the loop have grown by the same messages. */
  ghost predicate GrewBy(before: LoopState, after: LoopState, ms: seq<Message>) {
    after.messages == before.messages + ms && after.added == before.added + ms
  }

  /** The loop's state behind iteration k, whether it goes on or ends there. */
  function StateBehind(e: LoopEnv, start: LoopState, k: nat): LoopState {
    if Passes(e, k) then StateBefore(e, start, k + 1) else LoopFrom(e, start, 0).st
  }

  lemma BehindIsNext(e: LoopEnv, start: LoopState, k: nat)
    requires Starts(start) && Reaches(e, k) && k < e.maxIt
    ensures StateBehind(e, start, k) == Next(e, StateBefore(e, start, k), k)
  {
    var st := StateBefore(e, start, k);
    CountsFit(e, start, k);
    PassesOn(e, st, k);
    if !Passes(e, k) {
      RunsThrough(e, start, k);
      LoopUnfolds(e, st, k);
    }
  }

  /** An answer in an iteration the loop reaches: what the model sees and what is stored both gain the message with its
      text and calls, and directly behind it one tool message per call in the order of the calls, unless the answer has
      no calls or the loop detector stops it there. */
  lemma AnswerIsKept(e: LoopEnv, start: LoopState, k: nat) returns (round: seq<Message>)
    requires Starts(start) && Reaches(e, k) && k < e.maxIt && e.script(k).Answer?
    ensures IsRound(e.script(k), round)
    ensures GrewBy(StateBefore(e, start, k), StateBehind(e, start, k), NudgeAt(e, k) + round)
  {
    var st := StateBefore(e, start, k);
    round := RoundOf(e.script(k));
    RoundOfIsRound(e.script(k));
    BehindIsNext(e, start, k);
    WarnedIsNudged(e, start, k);
    GrowsTwice(st, Warned(e, st, k), Next(e, st, k), NudgeAt(e, k), round);
  }

  lemma GrowsTwice(a: LoopState, b: LoopState, c: LoopState, x: seq<Message>, y: seq<Message>)
    requires GrewBy(a, b, x) && GrewBy(b, c, y)
    ensures GrewBy(a, c, x + y)
  {
    assert (a.messages + x) + y == a.messages + (x + y);
    assert (a.added + x) + y == a.added + (x + y);
  }

  /** An overflow within the limit: what the model sees is soft-trimmed and nothing but the nudge is stored; the trimmed
      form is on disk if there is a session and the rewrite succeeds. */
  lemma OverflowIsTrimmed(e: LoopEnv, start: LoopState, k: nat)
    requires Starts(start) && Reaches(e, k) && k < e.maxIt && Overflow(e.script(k)) && Passes(e, k)
    ensures var st, st' := StateBefore(e, start, k), StateBefore(e, start, k + 1);
            && st'.messages
               == SoftTrimmed(st.messages + NudgeAt(e, k), if e.keepLast <= 0 then 2 else e.keepLast, e.summarize)
            && st'.added == st.added + NudgeAt(e, k)
            && st'.written == if e.session.Some? && e.saved(k) then Some(st'.messages) else st.written
  {
    CountsFit(e, start, k);
    WarnedIsNudged(e, start, k);
  }

  // ---------------------------------------------------------------- how the loop ends

  lemma {:induction false} StoredGrows(e: LoopEnv, st: LoopState, iter: nat)
    ensures st.added <= LoopFrom(e, st, iter).st.added
  {
    LoopKeeps(e, st, iter, (s: LoopState) => st.added <= s.added);
  }

  /** What an iteration has added stays to the end, where it was put. */
  lemma AnswerIsStored(e: LoopEnv, start: LoopState, k: nat) returns (round: seq<Message>)
    requires Starts(start) && Reaches(e, k) && k < e.maxIt && e.script(k).Answer?
    ensures IsRound(e.script(k), round)
    ensures StateBefore(e, start, k).added + NudgeAt(e, k) + round <= LoopFrom(e, start, 0).st.added
  {
    round := AnswerIsKept(e, start, k);
    var added := StateBefore(e, start, k).added;
    assert added + NudgeAt(e, k) + round == added + (NudgeAt(e, k) + round);
    BehindStays(e, start, k);
  }

  lemma BehindStays(e: LoopEnv, start: LoopState, k: nat)
    requires Starts(start) && Reaches(e, k) && k < e.maxIt
    ensures StateBehind(e, start, k).added <= LoopFrom(e, start, 0).st.added
  {
    if Passes(e, k) {
      RunsThrough(e, start, k + 1);
      StoredGrows(e, StateBefore(e, start, k + 1), k + 1);
    }
  }

  /** The outcome that an iteration behind which the loop does not go on calls for. */
  predicate EndsAs(it: Iteration, r: LoopResult) {
    match it
    case RequestFails => r == LoopFailed(false)
    case CallFails(overflow) => r == LoopFailed(overflow)
    case Answer(_, calls, _, _, stuck) => if calls == [] then r == Replied else r == Stopped
  }

  /** The loop ends with the first iteration it cannot go on behind, in the way that one calls for: a reply for an
      answer without calls, a stop for one that is stuck, a failure for anything else. With no such iteration it stops
      at the limit. */
  lemma LoopOutcome(e: LoopEnv, start: LoopState, k: nat)
    requires Starts(start) && Reaches(e, k) && (k < e.maxIt ==> !Passes(e, k))
    ensures k < e.maxIt ==> EndsAs(e.script(k), LoopFrom(e, start, 0).r)
    ensures k == e.maxIt ==> LoopFrom(e, start, 0) == LoopEnd(StateBefore(e, start, k), Stopped)
  {
    var st := StateBefore(e, start, k);
    RunsThrough(e, start, k);
    if k < e.maxIt {
      CountsFit(e, start, k);
      PassesOn(e, st, k);
      LoopUnfolds(e, st, k);
    }
  }

  /** There is always exactly one such iteration, or none. */
  lemma {:induction false} SomewhereItEnds(e: LoopEnv, n: nat) returns (k: nat)
    requires n <= e.maxIt
    ensures k <= n && Reaches(e, k) && (k < n ==> !Passes(e, k))
    decreases n
  {
    if n == 0 {
      k := 0;
    } else {
      k := SomewhereItEnds(e, n - 1);
      if k == n - 1 && Passes(e, k) {
        k := n;
      }
    }
  }
}
