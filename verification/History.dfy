/** Well-formed conversation histories: every run of tool results sits right behind the assistant message
    that issued those calls. */
module History {
  import opened Options
  import opened Messages

  predicate NeedsOwner(m: Message) {
    m.role.Tool? && m.toolCallId != ""
  }

  predicate Issues(m: Message, id: string) {
    m.role.Assistant? && exists k :: 0 <= k < |m.toolCalls| && m.toolCalls[k].id == id
  }

  /** h[i] answers a call of h[j], and only tool results stand between the two. */
  ghost predicate Owner(h: seq<Message>, j: int, i: int)
    requires 0 <= i < |h|
  {
    0 <= j < i && Issues(h[j], h[i].toolCallId) && forall k :: j < k < i ==> h[k].role.Tool?
  }

  ghost predicate Owned(h: seq<Message>, i: int)
    requires 0 <= i < |h|
  {
    exists j :: Owner(h, j, i)
  }

  ghost predicate WellFormed(h: seq<Message>) {
    forall i :: 0 <= i < |h| && NeedsOwner(h[i]) ==> Owned(h, i)
  }

  /** The message in front of the tool results h ends with, if there is one. */
  function RunHead(h: seq<Message>): Option<Message> {
    if h == [] then None
    else if h[|h| - 1].role.Tool? then RunHead(h[..|h| - 1])
    else Some(h[|h| - 1])
  }

  /** The same, message by message; with slack, results in front of the first other message are let pass. */
  ghost predicate Answered(h: seq<Message>, slack: bool)
    decreases |h|
  {
    h == [] ||
    var init, m := h[..|h| - 1], h[|h| - 1];
    Answered(init, slack) &&
    (NeedsOwner(m) ==> match RunHead(init)
                       case None => slack
                       case Some(a) => Issues(a, m.toolCallId))
  }

  /** A history whose oldest messages may have been cut off in the middle of a run. */
  ghost predicate Trimmed(h: seq<Message>) {
    Answered(h, true)
  }

  lemma {:induction false} RunHeadAt(h: seq<Message>)
    ensures match RunHead(h)
            case None => forall k :: 0 <= k < |h| ==> h[k].role.Tool?
            case Some(a) =>
              exists j :: 0 <= j < |h| && h[j] == a && !a.role.Tool? && forall k :: j < k < |h| ==> h[k].role.Tool?
  {
    if h != [] && h[|h| - 1].role.Tool? {
      RunHeadAt(h[..|h| - 1]);
      var init := h[..|h| - 1];
      if RunHead(init).Some? {
        var j :| 0 <= j < |init| && init[j] == RunHead(init).value && forall k :: j < k < |init| ==> init[k].role.Tool?;
        assert h[j] == init[j] && forall k :: j < k < |h| ==> h[k].role.Tool?;
      } else {
        assert forall k :: 0 <= k < |init| ==> h[k] == init[k];
      }
    }
  }

  lemma OwnerIsRunHead(h: seq<Message>, i: int)
    requires 0 <= i < |h|
    ensures Owned(h, i) <==> RunHead(h[..i]).Some? && Issues(RunHead(h[..i]).value, h[i].toolCallId)
  {
    var p := h[..i];
    RunHeadAt(p);
    if j :| Owner(h, j, i) {
      assert p[j] == h[j] && !p[j].role.Tool?;
      assert forall k :: j < k < |p| ==> p[k] == h[k];
    }
    if RunHead(p).Some? && Issues(RunHead(p).value, h[i].toolCallId) {
      var j :| 0 <= j < |p| && p[j] == RunHead(p).value && forall k :: j < k < |p| ==> p[k].role.Tool?;
      assert forall k :: j < k < i ==> h[k] == p[k];
      assert Owner(h, j, i);
    }
  }

  /** The message-by-message form is the indexed one. */
  lemma {:induction false} AnsweredIsWellFormed(h: seq<Message>)
    ensures Answered(h, false) <==> WellFormed(h)
    decreases |h|
  {
    if h != [] {
      var init := h[..|h| - 1];
      AnsweredIsWellFormed(init);
      OwnerIsRunHead(h, |h| - 1);
      forall i {:trigger Owned(init, i)} {:trigger Owned(h, i)} | 0 <= i < |init|
        ensures init[i] == h[i] && (Owned(init, i) <==> Owned(h, i))
      {
        OwnerIsRunHead(h, i);
        OwnerIsRunHead(init, i);
        assert init[..i] == h[..i];
      }
      if WellFormed(h) {
        forall i | 0 <= i < |init| && NeedsOwner(init[i])
          ensures Owned(init, i)
        {
          assert NeedsOwner(h[i]) && Owned(h, i);
        }
      }
      if WellFormed(init) && (NeedsOwner(h[|h| - 1]) ==> Owned(h, |h| - 1)) {
        forall i | 0 <= i < |h| && NeedsOwner(h[i])
          ensures Owned(h, i)
        {
          if i < |init| {
            assert NeedsOwner(init[i]);
          }
        }
      }
    }
  }

  lemma {:induction false} RunHeadConcat(a: seq<Message>, b: seq<Message>)
    ensures RunHead(a + b) == if RunHead(b).Some? then RunHead(b) else RunHead(a)
    decreases |b|
  {
    if b == [] {
      assert a + b == a;
    } else {
      assert (a + b)[..|a + b| - 1] == a + b[..|b| - 1];
      RunHeadConcat(a, b[..|b| - 1]);
    }
  }

  lemma {:induction false} StrictIsSlack(h: seq<Message>)
    requires Answered(h, false)
    ensures Answered(h, true)
    decreases |h|
  {
    if h != [] {
      StrictIsSlack(h[..|h| - 1]);
    }
  }

  /** Appending a well-formed piece keeps a history well-formed (or trimmed). */
  lemma {:induction false} AppendKeeps(a: seq<Message>, b: seq<Message>, slack: bool)
    requires Answered(a, slack) && Answered(b, false)
    ensures Answered(a + b, slack)
    decreases |b|
  {
    if b == [] {
      assert a + b == a;
    } else {
      var init := b[..|b| - 1];
      assert (a + b)[..|a + b| - 1] == a + init;
      AppendKeeps(a, init, slack);
      RunHeadConcat(a, init);
    }
  }

  /** Cutting off any front leaves a trimmed history. */
  lemma {:induction false} SuffixIsTrimmed(a: seq<Message>, b: seq<Message>)
    requires Answered(a + b, true)
    ensures Answered(b, true)
    decreases |b|
  {
    if b != [] {
      var init := b[..|b| - 1];
      assert (a + b)[..|a + b| - 1] == a + init;
      SuffixIsTrimmed(a, init);
      RunHeadConcat(a, init);
    }
  }

  /** A cut between a and b that separates no tool result from the calls in front of it. */
  predicate CleanCut(a: seq<Message>, b: seq<Message>) {
    || a == [] || b == [] || !b[0].role.Tool?
    || (!a[|a| - 1].role.Tool? && !(a[|a| - 1].role.Assistant? && |a[|a| - 1].toolCalls| > 0))
  }

  lemma {:induction false} CleanSuffix(a: seq<Message>, b: seq<Message>)
    requires Answered(a + b, false) && CleanCut(a, b)
    ensures Answered(b, false)
    decreases |b|
  {
    if b != [] {
      var init := b[..|b| - 1];
      assert (a + b)[..|a + b| - 1] == a + init;
      CleanSuffix(a, init);
      RunHeadConcat(a, init);
      if RunHead(init).None? {
        RunHeadAt(init);
        assert init != [] ==> init[0] == b[0] && init[0].role.Tool?;
      }
    }
  }

  // ---------------------------------------------------------------- orphans

  function CallIds(m: Message): set<string> {
    if m.role.Assistant? then set k | 0 <= k < |m.toolCalls| && m.toolCalls[k].id != "" :: m.toolCalls[k].id else {}
  }

  /** The nonempty IDs issued so far. */
  function IssuedIds(h: seq<Message>): set<string> {
    if h == [] then {} else IssuedIds(h[..|h| - 1]) + CallIds(h[|h| - 1])
  }

  function Sanitized(h: seq<Message>): seq<Message> {
    if h == [] then []
    else
      var init, m := h[..|h| - 1], h[|h| - 1];
      Sanitized(init) + if NeedsOwner(m) && m.toolCallId !in IssuedIds(init) then [] else [m]
  }

  lemma {:induction false} IssuedMeans(h: seq<Message>, id: string)
    ensures id in IssuedIds(h) <==> id != "" && exists i :: 0 <= i < |h| && Issues(h[i], id)
  {
    if h != [] {
      var init, m := h[..|h| - 1], h[|h| - 1];
      IssuedMeans(init, id);
      assert id in CallIds(m) <==> id != "" && Issues(m, id);
      if i :| 0 <= i < |h| && Issues(h[i], id) {
        assert i < |init| ==> Issues(init[i], id);
      }
      if i :| 0 <= i < |init| && Issues(init[i], id) {
        assert Issues(h[i], id);
      }
    }
  }

  /** Message by message: a tool result with an ID is dropped exactly when no earlier message has issued that ID;
      everything else is kept. */
  lemma SanitizedMeans(h: seq<Message>, m: Message)
    ensures Sanitized([]) == []
    ensures Sanitized(h + [m])
            == Sanitized(h)
               + if m.role.Tool? && m.toolCallId != ""
                    && !(exists i :: 0 <= i < |h| && Issues(h[i], m.toolCallId)) then [] else [m]
  {
    assert (h + [m])[..|h|] == h;
    IssuedMeans(h, m.toolCallId);
  }

  method SanitizeOrphans(msgs: seq<Message>) returns (out: seq<Message>, dropped: nat)
    ensures out == Sanitized(msgs)
    ensures dropped + |out| == |msgs|
  {
    var valid: set<string> := {};
    out, dropped := [], 0;
    for i := 0 to |msgs|
      invariant valid == IssuedIds(msgs[..i])
      invariant out == Sanitized(msgs[..i])
      invariant dropped + |out| == i
    {
      var m := msgs[i];
      assert msgs[..i + 1][..i] == msgs[..i];
      ghost var before := valid;
      if m.role.Assistant? {
        for k := 0 to |m.toolCalls|
          invariant valid == before + set j | 0 <= j < k && m.toolCalls[j].id != "" :: m.toolCalls[j].id
        {
          if m.toolCalls[k].id != "" {
            valid := valid + {m.toolCalls[k].id};
          }
        }
      }
      assert valid == IssuedIds(msgs[..i + 1]);
      if m.role.Tool? && m.toolCallId != "" && m.toolCallId !in valid {
        dropped := dropped + 1;
      } else {
        out := out + [m];
      }
    }
    assert msgs[..|msgs|] == msgs;
  }

  lemma {:induction false} RunHeadIssued(h: seq<Message>, id: string)
    requires id != "" && RunHead(h).Some? && Issues(RunHead(h).value, id)
    ensures id in IssuedIds(h)
  {
    if h[|h| - 1].role.Tool? {
      RunHeadIssued(h[..|h| - 1], id);
    }
  }

  lemma {:induction false} NoHeadNothingIssued(h: seq<Message>)
    requires RunHead(h).None?
    ensures IssuedIds(h) == {}
  {
    if h != [] {
      NoHeadNothingIssued(h[..|h| - 1]);
    }
  }

  /** Sanitizing a trimmed history makes it well-formed. */
  lemma {:induction false} SanitizeHeals(h: seq<Message>)
    requires Answered(h, true)
    ensures Answered(Sanitized(h), false) && RunHead(Sanitized(h)) == RunHead(h)
    decreases |h|
  {
    if h != [] {
      var init, m := h[..|h| - 1], h[|h| - 1];
      SanitizeHeals(init);
      var out := Sanitized(init);
      assert (out + [m])[..|out|] == out;
      if NeedsOwner(m) {
        if RunHead(init).Some? {
          RunHeadIssued(init, m.toolCallId);
        } else {
          NoHeadNothingIssued(init);
          assert out + [] == out;
        }
      }
    }
  }

  /** A well-formed history has no orphans. */
  lemma {:induction false} WellFormedIsSanitized(h: seq<Message>)
    requires Answered(h, false)
    ensures Sanitized(h) == h
    decreases |h|
  {
    if h != [] {
      var init, m := h[..|h| - 1], h[|h| - 1];
      WellFormedIsSanitized(init);
      if NeedsOwner(m) {
        RunHeadIssued(init, m.toolCallId);
      }
      assert h == init + [m];
    }
  }

  /** Trimming a well-formed history anywhere and then sanitizing gives a well-formed history. */
  lemma TrimThenSanitize(h: seq<Message>, keep: nat)
    requires WellFormed(h) && keep <= |h|
    ensures WellFormed(Sanitized(h[|h| - keep..]))
  {
    var a, b := h[..|h| - keep], h[|h| - keep..];
    assert a + b == h;
    AnsweredIsWellFormed(h);
    StrictIsSlack(h);
    SuffixIsTrimmed(a, b);
    SanitizeHeals(b);
    AnsweredIsWellFormed(Sanitized(b));
  }

  /** What one pass drops never issues an ID, so a second pass drops nothing. */
  lemma {:induction false} SanitizeIdempotent(h: seq<Message>)
    ensures IssuedIds(Sanitized(h)) == IssuedIds(h)
    ensures Sanitized(Sanitized(h)) == Sanitized(h)
    decreases |h|
  {
    if h != [] {
      var init, m := h[..|h| - 1], h[|h| - 1];
      SanitizeIdempotent(init);
      var out := Sanitized(init);
      assert (out + [m])[..|out|] == out;
      assert out + [] == out;
    }
  }
}
