/** What a chat turn leaves on disk: the stored history in every case, and exactly when the turn is stored once. */
module StoredTurns {
  import opened Options
  import opened Messages
  import opened History
  import opened HistoryCuts
  import opened TokenChunks
  import opened SessionStore
  import opened AgentLoop

  function FileOf(files: map<string, seq<Message>>, id: string): seq<Message> {
    if id in files then files[id] else []
  }

  /** The user's message and everything both attempts of the turn have added. */
  function Attempted(t: Turn, session: Option<string>, seen: seq<Message>): seq<Message> {
    var first := FirstLoop(t, session, seen);
    [UserMessage(t.text)] + (if Overflowed(first) then first.st.added else []) + Loops(t, session, seen).st.added
  }

  // ---------------------------------------------------------------- what the loop keeps

  /** The last message the model sees is the last one of the turn so far. */
  ghost predicate EndsOwn(user: Message, st: LoopState) {
    st.messages != [] && st.messages[|st.messages| - 1] == ([user] + st.added)[|st.added|]
  }

  /** A history written by overflow recovery ends with a message of the turn. */
  ghost predicate WrittenOwn(user: Message, earlier: seq<Message>, st: LoopState) {
    st.written.Some? ==>
      st.written.value != [] && st.written.value[|st.written.value| - 1] in [user] + earlier + st.added
  }

  lemma SoftTrimKeepsLast(h: seq<Message>, n: nat, summarize: Summarizer)
    requires n > 0 && h != []
    ensures var r := SoftTrimmed(h, n, summarize); r != [] && r[|r| - 1] == h[|h| - 1]
  {
    if |AssistantIndices(h)| > n {
      CutBeforeEnd(h, n);
    }
  }

  lemma CutBeforeEnd(h: seq<Message>, n: nat)
    requires 0 < n < |AssistantIndices(h)|
    ensures Cut(h, n) < |h|
  {
    assert Settle(h, NthLast(h, n)) <= NthLast(h, n);
  }

  lemma GrowKeepsOwn(user: Message, earlier: seq<Message>, st: LoopState, ms: seq<Message>)
    requires EndsOwn(user, st) && WrittenOwn(user, earlier, st)
    ensures EndsOwn(user, Grown(st, ms)) && WrittenOwn(user, earlier, Grown(st, ms))
  {
    if ms == [] {
      assert st.messages + ms == st.messages && st.added + ms == st.added;
    }
    assert forall m :: m in [user] + earlier + st.added ==> m in [user] + earlier + (st.added + ms);
  }

  lemma ShortenKeepsOwn(user: Message, earlier: seq<Message>, e: LoopEnv, st: LoopState, iter: nat)
    requires EndsOwn(user, st) && WrittenOwn(user, earlier, st)
    ensures EndsOwn(user, Shortened(e, st, iter)) && WrittenOwn(user, earlier, Shortened(e, st, iter))
  {
    SoftTrimKeepsLast(st.messages, Positive(e.keepLast), e.summarize);
    var own := [user] + st.added;
    assert own[|st.added|] in own;
  }

  lemma WarnKeepsOwn(user: Message, earlier: seq<Message>, e: LoopEnv, st: LoopState, iter: nat)
    requires EndsOwn(user, st) && WrittenOwn(user, earlier, st)
    ensures EndsOwn(user, Warned(e, st, iter)) && WrittenOwn(user, earlier, Warned(e, st, iter))
  {
    GrowKeepsOwn(user, earlier, st, [SystemMessage(e.nudge(iter))]);
  }

  lemma LoopUnfolds(e: LoopEnv, st: LoopState, iter: nat)
    requires iter < e.maxIt
    ensures var w := Warned(e, st, iter);
            LoopFrom(e, st, iter) ==
            match Ending(e.script(iter), w)
            case Some(r) => LoopEnd(AfterIteration(e, w, iter), r)
            case None => LoopFrom(e, AfterIteration(e, w, iter), iter + 1)
  {
  }

  lemma IterationKeepsOwn(user: Message, earlier: seq<Message>, e: LoopEnv, st: LoopState, iter: nat)
    requires EndsOwn(user, st) && WrittenOwn(user, earlier, st)
    ensures EndsOwn(user, AfterIteration(e, st, iter)) && WrittenOwn(user, earlier, AfterIteration(e, st, iter))
  {
    var it := e.script(iter);
    if it.Answer? {
      GrowKeepsOwn(user, earlier, st, RoundOf(it));
    } else if Recovers(it, st) {
      ShortenKeepsOwn(user, earlier, e, st, iter);
    }
  }

  /** Both facts in one. */
  ghost predicate Own(user: Message, earlier: seq<Message>, st: LoopState) {
    EndsOwn(user, st) && WrittenOwn(user, earlier, st)
  }

  lemma NextIsOwn(user: Message, earlier: seq<Message>, e: LoopEnv, st: LoopState, iter: nat)
    requires Own(user, earlier, st)
    ensures Own(user, earlier, AfterIteration(e, Warned(e, st, iter), iter))
  {
    WarnKeepsOwn(user, earlier, e, st, iter);
    IterationKeepsOwn(user, earlier, e, Warned(e, st, iter), iter);
  }

  function Next(e: LoopEnv, st: LoopState, iter: nat): LoopState {
    AfterIteration(e, Warned(e, st, iter), iter)
  }

  /** What every iteration keeps, the loop keeps. */
  lemma {:induction false} LoopKeeps(e: LoopEnv, st: LoopState, iter: nat, holds: LoopState -> bool)
    requires holds(st)
    requires forall s, i: nat {:trigger Next(e, s, i)} :: holds(s) ==> holds(Next(e, s, i))
    ensures holds(LoopFrom(e, st, iter).st)
    decreases e.maxIt - iter
  {
    if iter < e.maxIt {
      LoopUnfolds(e, st, iter);
      assert holds(Next(e, st, iter));
      LoopKeeps(e, Next(e, st, iter), iter + 1, holds);
    }
  }

  lemma LoopKeepsOwn(user: Message, earlier: seq<Message>, e: LoopEnv, st: LoopState, iter: nat)
    requires Own(user, earlier, st)
    ensures Own(user, earlier, LoopFrom(e, st, iter).st)
  {
    forall s, i: nat | Own(user, earlier, s)
      ensures Own(user, earlier, Next(e, s, i))
    {
      NextIsOwn(user, earlier, e, s, i);
    }
    LoopKeeps(e, st, iter, s => Own(user, earlier, s));
  }

  /** A reply comes last among the messages added: an assistant message that calls no tool. */
  ghost predicate EndsWithReply(end: LoopEnd) {
    end.r.Replied? ==>
      (end.st.added != []
       && end.st.added[|end.st.added| - 1].role.Assistant? && end.st.added[|end.st.added| - 1].toolCalls == [])
  }

  lemma LastRound(e: LoopEnv, w: LoopState, iter: nat, r: LoopResult)
    requires Ending(e.script(iter), w) == Some(r)
    ensures EndsWithReply(LoopEnd(AfterIteration(e, w, iter), r))
  {
  }

  predicate Finishing(e: LoopEnv, st: LoopState, iter: nat, r: LoopResult) {
    Ending(e.script(iter), Warned(e, st, iter)) == Some(r)
  }

  /** What holds of every way to finish holds of how the loop ends. */
  lemma {:induction false} LoopEndsWith(e: LoopEnv, st: LoopState, iter: nat, holds: LoopEnd -> bool)
    requires forall s {:trigger holds(LoopEnd(s, Stopped))} :: holds(LoopEnd(s, Stopped))
    requires forall s, i: nat, r {:trigger Finishing(e, s, i, r)} ::
               Finishing(e, s, i, r) ==> holds(LoopEnd(Next(e, s, i), r))
    ensures holds(LoopFrom(e, st, iter))
    decreases e.maxIt - iter
  {
    if iter < e.maxIt {
      LoopUnfolds(e, st, iter);
      match Ending(e.script(iter), Warned(e, st, iter))
      case Some(r) => assert Finishing(e, st, iter, r);
      case None => LoopEndsWith(e, Next(e, st, iter), iter + 1, holds);
    } else {
      assert holds(LoopEnd(st, Stopped));
    }
  }

  lemma ReplyComesLast(e: LoopEnv, st: LoopState, iter: nat)
    ensures EndsWithReply(LoopFrom(e, st, iter))
  {
    forall s, i: nat, r | Finishing(e, s, i, r)
      ensures EndsWithReply(LoopEnd(Next(e, s, i), r))
    {
      LastRound(e, Warned(e, s, i), i, r);
    }
    LoopEndsWith(e, st, iter, end => EndsWithReply(end));
  }

  // ---------------------------------------------------------------- what the script of a loop decides

  predicate Overflow(it: Iteration) {
    it.CallFails? && it.overflow
  }

  /** An overflow, or an answer with calls that is not stuck: the loop can go on behind it. */
  predicate GoesOn(it: Iteration) {
    Overflow(it) || (it.Answer? && it.calls != [] && !it.stuck)
  }

  function OverflowsBefore(script: nat -> Iteration, i: nat): nat {
    if i == 0 then 0 else OverflowsBefore(script, i - 1) + if Overflow(script(i - 1)) then 1 else 0
  }

  lemma {:induction false} OverflowsGrow(script: nat -> Iteration, i: nat, j: nat)
    requires i <= j
    ensures OverflowsBefore(script, i) <= OverflowsBefore(script, j)
    decreases j
  {
    if i < j {
      OverflowsGrow(script, i, j - 1);
    }
  }

  /** Iteration i, reached from iteration iter, is an overflow that recovery still answers and whose rewrite reaches
      the disk. */
  ghost predicate RewritesAt(e: LoopEnv, iter: nat, i: nat) {
    && Overflow(e.script(i)) && OverflowsBefore(e.script, i) < MAX_OVERFLOW_COMPACTIONS && e.saved(i)
    && forall j :: iter <= j < i ==> GoesOn(e.script(j))
  }

  ghost predicate RewritesFrom(e: LoopEnv, iter: nat) {
    e.session.Some? && exists i :: iter <= i < e.maxIt && RewritesAt(e, iter, i)
  }

  /** Iteration i, reached from iteration iter, is one overflow too many. */
  ghost predicate GivesUpAt(e: LoopEnv, iter: nat, i: nat) {
    && Overflow(e.script(i)) && OverflowsBefore(e.script, i) == MAX_OVERFLOW_COMPACTIONS
    && forall j :: iter <= j < i ==> GoesOn(e.script(j))
  }

  ghost predicate GivesUpFrom(e: LoopEnv, iter: nat) {
    exists i :: iter <= i < e.maxIt && GivesUpAt(e, iter, i)
  }

  lemma RewriteShift(e: LoopEnv, iter: nat)
    requires iter < e.maxIt && GoesOn(e.script(iter))
    ensures RewritesFrom(e, iter) <==> (e.session.Some? && RewritesAt(e, iter, iter)) || RewritesFrom(e, iter + 1)
  {
    if e.session.Some? {
      if i :| iter <= i < e.maxIt && RewritesAt(e, iter, i) {
        assert i == iter || RewritesAt(e, iter + 1, i);
      }
      var next := iter + 1;
      if i :| next <= i < e.maxIt && RewritesAt(e, next, i) {
        assert RewritesAt(e, iter, i);
      }
    }
  }

  lemma GivingUpShift(e: LoopEnv, iter: nat)
    requires iter < e.maxIt && GoesOn(e.script(iter))
    ensures GivesUpFrom(e, iter) <==> GivesUpAt(e, iter, iter) || GivesUpFrom(e, iter + 1)
  {
    if i :| iter <= i < e.maxIt && GivesUpAt(e, iter, i) {
      assert i == iter || GivesUpAt(e, iter + 1, i);
    }
    var next := iter + 1;
    if i :| next <= i < e.maxIt && GivesUpAt(e, next, i) {
      assert GivesUpAt(e, iter, i);
    }
  }

  lemma EndsBecause(it: Iteration, st: LoopState)
    requires Ending(it, st).Some?
    ensures GoesOn(it) ==> Overflow(it) && st.compactions >= MAX_OVERFLOW_COMPACTIONS
  {
  }

  lemma NoRewriteAfter(e: LoopEnv, iter: nat, i: nat)
    requires GoesOn(e.script(iter)) ==> OverflowsBefore(e.script, iter) >= MAX_OVERFLOW_COMPACTIONS
    requires iter <= i
    ensures !RewritesAt(e, iter, i)
  {
    OverflowsGrow(e.script, iter, i);
  }

  lemma CountStep(e: LoopEnv, st: LoopState, k: nat)
    ensures Next(e, st, k).compactions == st.compactions + if Recovers(e.script(k), st) then 1 else 0
    ensures Next(e, st, k).warned <==> st.warned || k >= e.maxIt * 4 / 5
  {
  }

  /** Whether recovery leaves a rewritten history on disk is decided by the script and the disk alone. */
  lemma {:induction false} LoopRewrites(e: LoopEnv, st: LoopState, iter: nat)
    requires st.compactions == OverflowsBefore(e.script, iter)
    ensures RewritesFrom(e, iter) ==> LoopFrom(e, st, iter).st.written.Some?
    ensures !RewritesFrom(e, iter) ==> LoopFrom(e, st, iter).st.written == st.written
    decreases e.maxIt - iter
  {
    if iter < e.maxIt {
      LoopUnfolds(e, st, iter);
      if Ending(e.script(iter), Warned(e, st, iter)).Some? {
        EndsBecause(e.script(iter), Warned(e, st, iter));
        forall i: nat | iter <= i
          ensures !RewritesAt(e, iter, i)
        {
          NoRewriteAfter(e, iter, i);
        }
      } else {
        RewriteShift(e, iter);
        CountStep(e, st, iter);
        LoopRewrites(e, Next(e, st, iter), iter + 1);
      }
    }
  }

  /** So is whether the loop is given up with the context overflowing. */
  lemma {:induction false} LoopGivesUp(e: LoopEnv, st: LoopState, iter: nat)
    requires st.compactions == OverflowsBefore(e.script, iter) <= MAX_OVERFLOW_COMPACTIONS
    ensures Overflowed(LoopFrom(e, st, iter)) <==> GivesUpFrom(e, iter)
    decreases e.maxIt - iter
  {
    if iter < e.maxIt {
      LoopUnfolds(e, st, iter);
      if Ending(e.script(iter), Warned(e, st, iter)).Some? {
        if Overflow(e.script(iter)) {
          assert GivesUpAt(e, iter, iter);
        } else {
          assert forall i :: iter <= i ==> !GivesUpAt(e, iter, i);
        }
      } else {
        GivingUpShift(e, iter);
        CountStep(e, st, iter);
        LoopGivesUp(e, Next(e, st, iter), iter + 1);
      }
    }
  }

  /** Recovery stores a history in the course of the turn: in a loop, or by clearing it for the second attempt. */
  ghost predicate RecoveryStores(t: Turn, session: Option<string>) {
    || RewritesFrom(FirstEnv(t, session), 0)
    || (GivesUpFrom(FirstEnv(t, session), 0)
        && ((session.Some? && t.disk.cleared) || RewritesFrom(SecondEnv(t, session), 0)))
  }

  lemma FirstLoopDecided(t: Turn, session: Option<string>, seen: seq<Message>)
    ensures Overflowed(FirstLoop(t, session, seen)) <==> GivesUpFrom(FirstEnv(t, session), 0)
    ensures FirstLoop(t, session, seen).st.written.Some? <==> RewritesFrom(FirstEnv(t, session), 0)
  {
    var start := LoopState(Working(t, seen) + [UserMessage(t.text)], [], 0, false, None);
    LoopGivesUp(FirstEnv(t, session), start, 0);
    LoopRewrites(FirstEnv(t, session), start, 0);
  }

  /** A history is stored in the course of the turn exactly when scripts and disk say so. */
  lemma RecoveryIsDecided(t: Turn, session: Option<string>, seen: seq<Message>)
    ensures Loops(t, session, seen).st.written.Some? <==> RecoveryStores(t, session)
  {
    FirstLoopDecided(t, session, seen);
    var first := FirstLoop(t, session, seen);
    if Overflowed(first) {
      LoopRewrites(SecondEnv(t, session), SecondStart(t, session, first.st.written), 0);
    }
  }

  // ---------------------------------------------------------------- both attempts

  lemma FirstStartsOwn(t: Turn, history: seq<Message>)
    ensures var st := LoopState(history + [UserMessage(t.text)], [], 0, false, None);
            EndsOwn(UserMessage(t.text), st) && WrittenOwn(UserMessage(t.text), [], st)
  {
  }

  lemma SecondStartsOwn(t: Turn, session: Option<string>, first: LoopState)
    requires WrittenOwn(UserMessage(t.text), [], first)
    ensures EndsOwn(UserMessage(t.text), SecondStart(t, session, first.written))
    ensures WrittenOwn(UserMessage(t.text), first.added, SecondStart(t, session, first.written))
    ensures session.Some? && t.disk.cleared ==>
              WrittenOwn(UserMessage(t.text), [], SecondStart(t, session, first.written))
  {
    var user := UserMessage(t.text);
    assert [user] + [] + first.added == [user] + first.added + [];
  }

  /** Whatever overflow recovery has left on disk ends with a message of one of the attempts; with the first attempt
      given up and its history cleared, with one of the turn as it is stored. */
  lemma RewriteEndsOwn(t: Turn, session: Option<string>, seen: seq<Message>)
    ensures var written := Loops(t, session, seen).st.written;
            written.Some? ==>
              (session.Some? && written.value != []
               && written.value[|written.value| - 1] in Attempted(t, session, seen))
    ensures var written := Loops(t, session, seen).st.written;
            written.Some? && (Overflowed(FirstLoop(t, session, seen)) ==> t.disk.cleared) ==>
              written.value[|written.value| - 1] in TurnMessages(t, Loops(t, session, seen))
  {
    var user, first := UserMessage(t.text), FirstLoop(t, session, seen);
    FirstStartsOwn(t, Working(t, seen));
    var start := LoopState(Working(t, seen) + [user], [], 0, false, None);
    LoopKeepsOwn(user, [], FirstEnv(t, session), start, 0);
    if session.None? {
      LoopRewrites(FirstEnv(t, session), start, 0);
    }
    if Overflowed(first) {
      SecondRewriteEndsOwn(t, session, first.st);
    }
  }

  lemma SecondRewriteEndsOwn(t: Turn, session: Option<string>, first: LoopState)
    requires WrittenOwn(UserMessage(t.text), [], first) && (session.None? ==> first.written.None?)
    ensures var end := LoopFrom(SecondEnv(t, session), SecondStart(t, session, first.written), 0);
            && WrittenOwn(UserMessage(t.text), first.added, end.st)
            && (session.None? ==> end.st.written.None?)
            && (session.Some? && t.disk.cleared ==> WrittenOwn(UserMessage(t.text), [], end.st))
  {
    var user, start := UserMessage(t.text), SecondStart(t, session, first.written);
    SecondStartsOwn(t, session, first);
    LoopKeepsOwn(user, first.added, SecondEnv(t, session), start, 0);
    if session.None? {
      LoopRewrites(SecondEnv(t, session), start, 0);
    } else if t.disk.cleared {
      LoopKeepsOwn(user, [], SecondEnv(t, session), start, 0);
    }
  }

  // ---------------------------------------------------------------- the stored history, case by case

  /** No other session's file is touched. */
  lemma OtherFilesUntouched(t: Turn, files: map<string, seq<Message>>, session: Option<string>, seen: seq<Message>,
                            id: string)
    requires id != SessionId(t, session)
    ensures id in FilesAfter(t, files, session, seen) <==> id in files
    ensures id in files ==> FilesAfter(t, files, session, seen)[id] == files[id]
  {
  }

  /** The stored history that the turn appends to. */
  function Base(t: Turn, files: map<string, seq<Message>>, session: Option<string>, seen: seq<Message>): seq<Message> {
    FileOf(WithWritten(FilesBefore(t, files, session, seen), session, Loops(t, session, seen).st.written),
           SessionId(t, session))
  }

  /** A turn that succeeds and whose append succeeds leaves the base and then the turn. */
  lemma TurnIsAppended(t: Turn, files: map<string, seq<Message>>, session: Option<string>, seen: seq<Message>)
    requires !Loops(t, session, seen).r.LoopFailed? && t.disk.appended
    ensures FileOf(FilesAfter(t, files, session, seen), SessionId(t, session))
            == Base(t, files, session, seen) + TurnMessages(t, Loops(t, session, seen))
  {
  }

  /** Normal turn: the base is the history the turn started with. */
  lemma NormalTurn(t: Turn, files: map<string, seq<Message>>, session: Option<string>, seen: seq<Message>)
    requires !RecoveryStores(t, session)
    ensures Base(t, files, session, seen) == FileOf(FilesBefore(t, files, session, seen), SessionId(t, session))
  {
    RecoveryIsDecided(t, session, seen);
  }

  lemma RecoveredBase(t: Turn, files: map<string, seq<Message>>, session: Option<string>, seen: seq<Message>)
    requires RecoveryStores(t, session)
    ensures Loops(t, session, seen).st.written == Some(Base(t, files, session, seen))
  {
    RecoveryIsDecided(t, session, seen);
    RewriteEndsOwn(t, session, seen);
    WrittenIsBase(t, files, session, seen);
  }

  /** After a recovery rewrite the base is the rewritten history, which already ends with a message of the turn's
      attempts. */
  lemma RecoveredTurn(t: Turn, files: map<string, seq<Message>>, session: Option<string>, seen: seq<Message>)
    requires RecoveryStores(t, session)
    ensures Loops(t, session, seen).st.written == Some(Base(t, files, session, seen))
    ensures Base(t, files, session, seen) != []
    ensures Base(t, files, session, seen)[|Base(t, files, session, seen)| - 1] in Attempted(t, session, seen)
  {
    RecoveredBase(t, files, session, seen);
    RewriteEndsOwn(t, session, seen);
  }

  lemma WrittenIsBase(t: Turn, files: map<string, seq<Message>>, session: Option<string>, seen: seq<Message>)
    requires session.Some? && Loops(t, session, seen).st.written.Some?
    ensures Base(t, files, session, seen) == Loops(t, session, seen).st.written.value
  {
  }

  lemma ClearedIsWritten(t: Turn, session: Option<string>, seen: seq<Message>)
    requires session.Some? && GivesUpFrom(FirstEnv(t, session), 0) && t.disk.cleared
    requires !RewritesFrom(SecondEnv(t, session), 0)
    ensures Loops(t, session, seen).st.written == Some([UserMessage(t.text)])
  {
    FirstLoopDecided(t, session, seen);
    LoopRewrites(SecondEnv(t, session), SecondStart(t, session, FirstLoop(t, session, seen).st.written), 0);
  }

  /** Cleared and answered at the second attempt without further rewrites: the user's message is stored twice. */
  lemma ClearedTurnStoresUserTwice(t: Turn, files: map<string, seq<Message>>, session: Option<string>,
                                   seen: seq<Message>)
    requires session.Some? && GivesUpFrom(FirstEnv(t, session), 0) && t.disk.cleared && t.disk.appended
    requires !RewritesFrom(SecondEnv(t, session), 0) && !Loops(t, session, seen).r.LoopFailed?
    ensures FileOf(FilesAfter(t, files, session, seen), SessionId(t, session))
            == [UserMessage(t.text), UserMessage(t.text)] + Loops(t, session, seen).st.added
  {
    ClearedIsWritten(t, session, seen);
    WrittenIsBase(t, files, session, seen);
    TurnIsAppended(t, files, session, seen);
    var user, added := UserMessage(t.text), Loops(t, session, seen).st.added;
    assert [user] + ([user] + added) == [user, user] + added;
  }

  /** A failed append loses the turn, or its tail, although the reply is delivered. */
  lemma FailedAppendLosesTail(t: Turn, files: map<string, seq<Message>>, session: Option<string>, seen: seq<Message>)
    requires !Loops(t, session, seen).r.LoopFailed? && !t.disk.appended
    ensures var turn := TurnMessages(t, Loops(t, session, seen));
            FileOf(FilesAfter(t, files, session, seen), SessionId(t, session))
            == Base(t, files, session, seen) + if t.disk.reached < |turn| then turn[..t.disk.reached] else turn
  {
    var base := Base(t, files, session, seen);
    assert base + [] == base;
  }

  // ---------------------------------------------------------------- once or not

  ghost predicate NewTo(h: seq<Message>, ms: seq<Message>) {
    forall m :: m in ms ==> m !in h
  }

  lemma SameFront(a: seq<Message>, b: seq<Message>, tail: seq<Message>)
    requires a + tail == b + tail
    ensures a == b
  {
    assert |a| == |b|;
    assert a == (a + tail)[..|a|] && b == (b + tail)[..|b|];
  }

  /** The turn has been stored once, behind the earlier history. */
  ghost predicate StoredOnce(t: Turn, files: map<string, seq<Message>>, session: Option<string>, seen: seq<Message>) {
    FileOf(FilesAfter(t, files, session, seen), SessionId(t, session))
    == FileOf(FilesBefore(t, files, session, seen), SessionId(t, session)) + TurnMessages(t, Loops(t, session, seen))
  }

  /** A turn leaves the earlier history followed by the turn, and nothing else, if and only if recovery stores no
      history on the way, or by chance exactly the earlier one: impossible when no message of the turn was in it. */
  lemma StoredOnceIff(t: Turn, files: map<string, seq<Message>>, session: Option<string>, seen: seq<Message>)
    requires !Loops(t, session, seen).r.LoopFailed? && t.disk.appended
    ensures !RecoveryStores(t, session) ==> StoredOnce(t, files, session, seen)
    ensures RecoveryStores(t, session) ==>
              (StoredOnce(t, files, session, seen) <==>
                 Base(t, files, session, seen) == FileOf(FilesBefore(t, files, session, seen), SessionId(t, session)))
    ensures NewTo(FileOf(FilesBefore(t, files, session, seen), SessionId(t, session)), Attempted(t, session, seen)) ==>
              (StoredOnce(t, files, session, seen) <==> !RecoveryStores(t, session))
  {
    var before := FileOf(FilesBefore(t, files, session, seen), SessionId(t, session));
    var base, turn := Base(t, files, session, seen), TurnMessages(t, Loops(t, session, seen));
    TurnIsAppended(t, files, session, seen);
    if base + turn == before + turn {
      SameFront(base, before, turn);
    }
    if RecoveryStores(t, session) {
      RecoveredTurn(t, files, session, seen);
      assert base[|base| - 1] in base;
    } else {
      NormalTurn(t, files, session, seen);
    }
  }

  /** After a rewrite some message of the stored turn is in the file more often than the turn has it, unless the first
      attempt was given up and clearing its leftovers failed. */
  lemma RewriteStoresTwice(t: Turn, files: map<string, seq<Message>>, session: Option<string>, seen: seq<Message>)
    returns (m: Message)
    requires !Loops(t, session, seen).r.LoopFailed? && t.disk.appended && RecoveryStores(t, session)
    requires GivesUpFrom(FirstEnv(t, session), 0) ==> t.disk.cleared
    ensures var turn := TurnMessages(t, Loops(t, session, seen));
            && m in turn
            && multiset(FileOf(FilesAfter(t, files, session, seen), SessionId(t, session)))[m] > multiset(turn)[m]
  {
    FirstLoopDecided(t, session, seen);
    RewriteEndsOwn(t, session, seen);
    RecoveredTurn(t, files, session, seen);
    TurnIsAppended(t, files, session, seen);
    var base := Base(t, files, session, seen);
    m := base[|base| - 1];
    assert m in base;
  }

  /** Without one every message is there as often as in the earlier history and the turn together. */
  lemma NoRewriteStoresOnce(t: Turn, files: map<string, seq<Message>>, session: Option<string>, seen: seq<Message>,
                            m: Message)
    requires !Loops(t, session, seen).r.LoopFailed? && t.disk.appended && !RecoveryStores(t, session)
    ensures multiset(FileOf(FilesAfter(t, files, session, seen), SessionId(t, session)))[m]
            == multiset(FileOf(FilesBefore(t, files, session, seen), SessionId(t, session)))[m]
               + multiset(TurnMessages(t, Loops(t, session, seen)))[m]
  {
    TurnIsAppended(t, files, session, seen);
    NormalTurn(t, files, session, seen);
  }

  // ---------------------------------------------------------------- two turns stored twice

  const NO_FAULTS := Disk(true, true, true, true, _ => true, true, _ => true, true, 0)

  function Plain(text: string): Iteration {
    Answer(text, [], _ => "", [], false)
  }

  /** A turn on an empty history with working disks. */
  function Simple(script: nat -> Iteration, scriptAgain: nat -> Iteration): Turn {
    Turn("hi", 0, "id", 0.0, 0, 2, 10, script, scriptAgain, _ => "", _ => "", _ => "", _ => None, _ => 0, NO_FAULTS)
  }

  lemma ShortIsKept(e: LoopEnv, st: LoopState, iter: nat)
    requires AssistantIndices(st.messages) == [] && e.session.Some? && e.saved(iter)
    ensures Shortened(e, st, iter) == st.(compactions := st.compactions + 1, written := Some(st.messages))
  {
  }

  lemma ReplyEnds(e: LoopEnv, st: LoopState, iter: nat, text: string)
    requires iter < e.maxIt * 4 / 5 && e.script(iter) == Plain(text)
    ensures LoopFrom(e, st, iter) == LoopEnd(Grown(st, [AssistantMessage(text, [])]), Replied)
  {
    LoopUnfolds(e, st, iter);
    assert RoundOf(Plain(text)) == [AssistantMessage(text, [])];
  }

  /** One overflow, then the reply: recovery writes the user's message, and the whole turn follows. */
  lemma RecoveredTwice(files: map<string, seq<Message>>) returns (t: Turn)
    ensures var user, reply, end := UserMessage(t.text), AssistantMessage("hello", []), Loops(t, Some("s"), []);
            && end.r.Replied? && TurnMessages(t, end) == [user, reply]
            && FileOf(FilesAfter(t, files, Some("s"), []), "s") == [user, user, reply]
  {
    t := Simple(i => if i == 0 then CallFails(true) else Plain("hello"), _ => RequestFails);
    var e, user := FirstEnv(t, Some("s")), UserMessage(t.text);
    var start := LoopState([user], [], 0, false, None);
    var next := start.(compactions := 1, written := Some([user]));
    assert Working(t, []) + [user] == [user] && AssistantIndices([user][..0]) == [];
    LoopUnfolds(e, start, 0);
    ShortIsKept(e, start, 0);
    assert AfterIteration(e, start, 0) == next;
    ReplyEnds(e, next, 1, "hello");
    assert FirstLoop(t, Some("s"), []).st.added == [AssistantMessage("hello", [])];
  }

  /** Overflows up to the limit, and a reply to the user's message alone. */
  lemma ClearedTwice(files: map<string, seq<Message>>) returns (t: Turn)
    ensures var user, reply, end := UserMessage(t.text), AssistantMessage("hello", []), Loops(t, Some("s"), []);
            && end.r.Replied? && TurnMessages(t, end) == [user, reply]
            && FileOf(FilesAfter(t, files, Some("s"), []), "s") == [user, user, reply]
  {
    t := Simple(_ => CallFails(true), _ => Plain("hello"));
    EndlessOverflow(FirstEnv(t, Some("s")));
    SecondReplies(t);
    ClearedReply(t, files);
  }

  lemma ClearedReply(t: Turn, files: map<string, seq<Message>>)
    requires GivesUpFrom(FirstEnv(t, Some("s")), 0) && t.disk == NO_FAULTS
    requires !RewritesFrom(SecondEnv(t, Some("s")), 0) && Loops(t, Some("s"), []).r.Replied?
    requires Loops(t, Some("s"), []).st.added == [AssistantMessage("hello", [])]
    ensures var user, reply := UserMessage(t.text), AssistantMessage("hello", []);
            FileOf(FilesAfter(t, files, Some("s"), []), "s") == [user, user, reply]
  {
    ClearedTurnStoresUserTwice(t, files, Some("s"), []);
  }

  lemma EndlessOverflow(e: LoopEnv)
    requires e.maxIt == 10 && forall i :: e.script(i) == CallFails(true)
    ensures GivesUpFrom(e, 0)
  {
    assert OverflowsBefore(e.script, 2) == 2;
    assert GivesUpAt(e, 0, 3);
  }

  lemma SecondReplies(t: Turn)
    requires t.maxIt == 10 && t.scriptAgain(0) == Plain("hello") && GivesUpFrom(FirstEnv(t, Some("s")), 0)
    ensures Loops(t, Some("s"), []).r.Replied?
    ensures Loops(t, Some("s"), []).st.added == [AssistantMessage("hello", [])]
    ensures !RewritesFrom(SecondEnv(t, Some("s")), 0)
  {
    FirstLoopDecided(t, Some("s"), []);
    var second := SecondStart(t, Some("s"), FirstLoop(t, Some("s"), []).st.written);
    ReplyEnds(SecondEnv(t, Some("s")), second, 0, "hello");
  }
}
