/** Substitution of {{task-id.output}} placeholders in a task's message. Strings are byte strings. */
module Interpolation {
  import opened Text

  const DEFAULT_MAX_LEN := 4000
  const OPEN := "{{"
  const CLOSE := "}}"
  const SUFFIX := ".output"
  const TRUNCATED := "\n... (truncated)"

  datatype Segment = Literal(text: string) | Placeholder(body: string)

  /** The first {{ and the first }} after it: where the marker starts and how far the close is from there. */
  function FirstMarker(msg: string): (r: (int, int))
    ensures r.0 >= 0 ==> r.1 >= 2 && r.0 + r.1 + 2 <= |msg|
  {
    var start := Index(msg, OPEN);
    if start < 0 then (-1, 0)
    else
      var len := Index(msg[start..], CLOSE);
      if len < 0 then (-1, 0)
      else
        CloseFollowsOpen(msg, start, len);
        (start, len)
  }

  lemma MarkerIsThere(msg: string, start: nat, len: nat)
    requires FirstMarker(msg) == (start, len)
    ensures At(msg, OPEN, start) && At(msg[start..], CLOSE, len)
  {
  }

  lemma CloseFollowsOpen(msg: string, start: nat, len: nat)
    requires At(msg, OPEN, start) && At(msg[start..], CLOSE, len)
    ensures len >= 2 && start + len + 2 <= |msg|
  {
    AtPair(msg, '{', '{', start);
    AtPair(msg[start..], '}', '}', len);
  }

  /** Splits a message, left to right, at each {{ and the first }} after it. */
  function Parse(msg: string): (segs: seq<Segment>)
    decreases |msg|
  {
    var m := FirstMarker(msg);
    if m.0 < 0 then [Literal(msg)]
    else [Literal(msg[..m.0]), Placeholder(msg[m.0 + 2..m.0 + m.1])] + Parse(msg[m.0 + m.1 + 2..])
  }

  function Bounded(output: string, maxLen: nat): string {
    if |output| > maxLen then output[..maxLen] + TRUNCATED else output
  }

  /** The body has the form id.output for an id whose output is known. */
  predicate Known(body: string, results: map<string, string>) {
    At(body, SUFFIX, |body| - |SUFFIX|) && body[..|body| - |SUFFIX|] in results
  }

  function Render(seg: Segment, results: map<string, string>, maxLen: nat): string {
    match seg
    case Literal(text) => text
    case Placeholder(body) =>
      if Known(body, results) then Bounded(results[body[..|body| - |SUFFIX|]], maxLen)
      else OPEN + body + CLOSE
  }

  function RenderAll(segs: seq<Segment>, results: map<string, string>, maxLen: nat): string {
    if segs == [] then "" else Render(segs[0], results, maxLen) + RenderAll(segs[1..], results, maxLen)
  }

  /** The message a parse came from. */
  function Unparse(segs: seq<Segment>): string {
    RenderAll(segs, map[], 0)
  }

  lemma RenderTwo(a: Segment, b: Segment, rest: seq<Segment>, results: map<string, string>, maxLen: nat)
    ensures RenderAll([a, b] + rest, results, maxLen)
         == Render(a, results, maxLen) + Render(b, results, maxLen) + RenderAll(rest, results, maxLen)
  {
    assert ([a, b] + rest)[1..] == [b] + rest;
    assert ([b] + rest)[1..] == rest;
  }

  lemma RenderOne(text: string, results: map<string, string>, maxLen: nat)
    ensures RenderAll([Literal(text)], results, maxLen) == text
  {
    assert [Literal(text)][1..] == [];
    assert text + "" == text;
  }

  lemma ParseStep(msg: string, start: nat, len: nat)
    requires FirstMarker(msg) == (start, len)
    ensures Parse(msg) == [Literal(msg[..start]), Placeholder(msg[start + 2..start + len])]
            + Parse(msg[start + len + 2..])
  {
  }

  /** One placeholder: its literal prefix, its rendering, and the rest rendered on its own. */
  lemma RenderStep(msg: string, start: nat, len: nat, results: map<string, string>, maxLen: nat)
    requires FirstMarker(msg) == (start, len)
    ensures RenderAll(Parse(msg), results, maxLen)
            == msg[..start] + Render(Placeholder(msg[start + 2..start + len]), results, maxLen)
               + RenderAll(Parse(msg[start + len + 2..]), results, maxLen)
  {
    ParseStep(msg, start, len);
    RenderTwo(Literal(msg[..start]), Placeholder(msg[start + 2..start + len]), Parse(msg[start + len + 2..]),
              results, maxLen);
  }

  lemma MarkerText(msg: string, start: nat, len: nat)
    requires At(msg, OPEN, start) && len >= 2 && At(msg[start..], CLOSE, len) && start + len + 2 <= |msg|
    ensures msg[start..start + len + 2] == OPEN + msg[start + 2..start + len] + CLOSE
    ensures msg == msg[..start] + (OPEN + msg[start + 2..start + len] + CLOSE) + msg[start + len + 2..]
  {
    AtPair(msg, '{', '{', start);
    AtPair(msg[start..], '}', '}', len);
  }

  method Interpolate(msg0: string, results: map<string, string>, max: int) returns (out: string)
    ensures out == RenderAll(Parse(msg0), results, if max <= 0 then DEFAULT_MAX_LEN else max)
  {
    var maxLen: nat := if max <= 0 then DEFAULT_MAX_LEN else max;
    if Index(msg0, OPEN) < 0 {
      RenderOne(msg0, results, maxLen);
      return msg0;
    }
    var msg, b := msg0, "";
    ghost var target, todo := RenderAll(Parse(msg0), results, maxLen), RenderAll(Parse(msg0), results, maxLen);
    while true
      invariant todo == RenderAll(Parse(msg), results, maxLen)
      invariant b + todo == target
      decreases |msg|
    {
      var start := Index(msg, OPEN);
      if start == -1 {
        RenderOne(msg, results, maxLen);
        return b + msg;
      }
      var len := Index(msg[start..], CLOSE);
      if len == -1 {
        RenderOne(msg, results, maxLen);
        return b + msg;
      }
      CloseFollowsOpen(msg, start, len);
      MarkerText(msg, start, len);
      RenderStep(msg, start, len, results, maxLen);
      var end := start + len + 2;
      var piece := RenderMarker(msg[start..end], msg[start + 2..start + len], results, maxLen);
      ghost var rest := RenderAll(Parse(msg[end..]), results, maxLen);
      Regroup(b, msg[..start], piece, rest);
      b, todo := b + msg[..start] + piece, rest;
      msg := msg[end..];
    }
  }

  lemma Regroup(a: string, b: string, c: string, d: string)
    ensures a + (b + c + d) == (a + b + c) + d
  {
  }

  /** The branch on the placeholder inside the loop. */
  method RenderMarker(whole: string, placeholder: string, results: map<string, string>, maxLen: nat)
    returns (piece: string)
    requires whole == OPEN + placeholder + CLOSE
    ensures piece == Render(Placeholder(placeholder), results, maxLen)
  {
    var idLen := |placeholder| - |SUFFIX|;
    if At(placeholder, SUFFIX, idLen) {
      var taskID := placeholder[..idLen];
      if taskID in results {
        var output := results[taskID];
        if |output| > maxLen {
          output := output[..maxLen] + TRUNCATED;
        }
        return output;
      }
    }
    return whole;
  }

  lemma {:induction false} ParseRejoins(msg: string)
    ensures Unparse(Parse(msg)) == msg
    decreases |msg|
  {
    var (start, len) := FirstMarker(msg);
    if start >= 0 {
      RenderStep(msg, start, len, map[], 0);
      MarkerIsThere(msg, start, len);
      MarkerText(msg, start, len);
      ParseRejoins(msg[start + len + 2..]);
    } else {
      RenderOne(msg, map[], 0);
    }
  }

  lemma {:induction false} RenderUnknown(segs: seq<Segment>, results: map<string, string>, maxLen: nat)
    requires forall s :: s in segs && s.Placeholder? ==> !Known(s.body, results)
    ensures RenderAll(segs, results, maxLen) == Unparse(segs)
  {
    if segs != [] {
      RenderUnknown(segs[1..], results, maxLen);
    }
  }

  /** The segment is no reference id.output to an id whose output is known. */
  ghost predicate NoReference(seg: Segment, results: map<string, string>) {
    forall id :: id in results ==> seg != Placeholder(id + ".output")
  }

  lemma KnownIsReference(body: string, results: map<string, string>)
    requires Known(body, results)
    ensures !NoReference(Placeholder(body), results)
  {
    var n := |body| - |SUFFIX|;
    assert body == body[..n] + body[n..] && body[n..] == SUFFIX;
  }

  /** With no known reference the message comes back unchanged. */
  lemma UnknownIsIdentity(msg: string, results: map<string, string>, maxLen: nat)
    requires forall s :: s in Parse(msg) ==> NoReference(s, results)
    ensures RenderAll(Parse(msg), results, maxLen) == msg
  {
    ParseRejoins(msg);
    forall s | s in Parse(msg) && s.Placeholder?
      ensures !Known(s.body, results)
    {
      if Known(s.body, results) {
        KnownIsReference(s.body, results);
      }
    }
    RenderUnknown(Parse(msg), results, maxLen);
  }

  lemma IndexInPrefix(u: string, rest: string, sep: string)
    requires sep != "" && Index(u, sep) >= 0
    ensures Index(u + rest, sep) == Index(u, sep)
  {
    assert (u + rest)[0..|u|] == u;
    AtWindow(u + rest, 0, |u|, sep);
    assert At(u + rest, sep, 0 + Index(u, sep));
    assert At(u, sep, Index(u + rest, sep));
  }

  lemma IndexPastOpen(u: string)
    requires Index(u, CLOSE) >= 0
    ensures Index(OPEN + u, CLOSE) == Index(u, CLOSE) + 2
  {
    var s, k := OPEN + u, Index(u, CLOSE);
    assert s[2..|s|] == u;
    AtWindow(s, 2, |s|, CLOSE);
    assert At(s, CLOSE, 2 + k);
    AtPair(s, '}', '}', 0);
    AtPair(s, '}', '}', 1);
    assert At(u, CLOSE, Index(s, CLOSE) - 2);
  }

  lemma Reassociate(a: string, b: string, c: string, d: string, e: string)
    ensures a + (b + c + d) + e == (a + b) + ((c + d) + e)
    ensures a + (b + c + d) + e == a + (b + ((c + d) + e))
  {
    assert b + c + d == b + (c + d);
    assert a + (b + (c + d)) == (a + b) + (c + d);
    assert (a + b) + (c + d) + e == (a + b) + ((c + d) + e);
    assert (a + b) + ((c + d) + e) == a + (b + ((c + d) + e));
  }

  lemma DropPrefix(a: string, b: string)
    ensures (a + b)[|a|..] == b
  {
  }

  /** A prefix without {{, a body without }} and any tail: where the marker is found. */
  lemma MarkerFound(prefix: string, body: string, tail: string)
    requires Index(prefix + OPEN, OPEN) == |prefix| && Index(body + CLOSE, CLOSE) == |body|
    ensures FirstMarker(prefix + (OPEN + body + CLOSE) + tail) == (|prefix|, |body| + 2)
  {
    var rest := (body + CLOSE) + tail;
    var msg := prefix + (OPEN + body + CLOSE) + tail;
    Reassociate(prefix, OPEN, body, CLOSE, tail);
    IndexInPrefix(prefix + OPEN, rest, OPEN);
    IndexInPrefix(body + CLOSE, tail, CLOSE);
    IndexPastOpen(rest);
    DropPrefix(prefix, OPEN + rest);
    assert msg[|prefix|..] == OPEN + rest;
  }

  lemma Slices(a: string, b: string, c: string)
    ensures (a + b + c)[..|a|] == a
    ensures (a + b + c)[|a|..|a| + |b|] == b
    ensures (a + b + c)[|a| + |b|..] == c
  {
  }

  lemma MarkerBody(prefix: string, body: string, tail: string)
    ensures (prefix + (OPEN + body + CLOSE) + tail)[|prefix| + 2..|prefix| + 2 + |body|] == body
  {
    Reassociate(prefix, OPEN, body, CLOSE, tail);
    assert (body + CLOSE) + tail == body + (CLOSE + tail);
    assert (prefix + OPEN) + (body + (CLOSE + tail)) == (prefix + OPEN) + body + (CLOSE + tail);
    Slices(prefix + OPEN, body, CLOSE + tail);
  }

  /** The first marker of such a message, and what is left after it. */
  lemma ParseConcat(prefix: string, body: string, tail: string)
    requires Index(prefix + OPEN, OPEN) == |prefix| && Index(body + CLOSE, CLOSE) == |body|
    ensures Parse(prefix + (OPEN + body + CLOSE) + tail) == [Literal(prefix), Placeholder(body)] + Parse(tail)
  {
    var msg := prefix + (OPEN + body + CLOSE) + tail;
    MarkerFound(prefix, body, tail);
    MarkerSlices(prefix, body, tail, |prefix|, |body| + 2);
    ParseAt(msg, |prefix|, |body| + 2, prefix, body, tail);
  }

  lemma ParseAt(msg: string, start: nat, len: nat, lit: string, body: string, tail: string)
    requires FirstMarker(msg) == (start, len)
    requires lit == msg[..start] && body == msg[start + 2..start + len] && tail == msg[start + len + 2..]
    ensures Parse(msg) == [Literal(lit), Placeholder(body)] + Parse(tail)
  {
    ParseStep(msg, start, len);
  }

  lemma MarkerSlices(prefix: string, body: string, tail: string, start: nat, len: nat)
    requires start == |prefix| && len == |body| + 2
    ensures var msg := prefix + (OPEN + body + CLOSE) + tail;
            msg[..start] == prefix && msg[start + 2..start + len] == body && msg[start + len + 2..] == tail
  {
    MarkerBody(prefix, body, tail);
    Slices(prefix, OPEN + body + CLOSE, tail);
  }

  /** Whatever a task's output contains, it is copied, or cut after maxLen bytes with a note, and never scanned. */
  lemma OutputIsNotRescanned(prefix: string, id: string, tail: string, results: map<string, string>, maxLen: nat)
    requires Index(prefix + OPEN, OPEN) == |prefix|
    requires Index((id + SUFFIX) + CLOSE, CLOSE) == |id + SUFFIX|
    requires id in results
    ensures RenderAll(Parse(prefix + ("{{" + (id + ".output") + "}}") + tail), results, maxLen)
            == prefix
               + (if |results[id]| <= maxLen then results[id] else results[id][..maxLen] + "\n... (truncated)")
               + RenderAll(Parse(tail), results, maxLen)
  {
    var body := id + SUFFIX;
    ParseConcat(prefix, body, tail);
    RenderTwo(Literal(prefix), Placeholder(body), Parse(tail), results, maxLen);
    Slices(id, SUFFIX, "");
    assert body + "" == body;
  }

  /** Literals and placeholders alternate; a literal before a marker holds no {{, a body no }},
      and the last literal holds no complete marker. */
  ghost predicate Canonical(segs: seq<Segment>)
    decreases |segs|
  {
    if |segs| < 2 then
      |segs| == 1 && segs[0].Literal? && FirstMarker(segs[0].text).0 < 0
    else
      && segs[0].Literal? && Index(segs[0].text + OPEN, OPEN) == |segs[0].text|
      && segs[1].Placeholder? && Index(segs[1].body + CLOSE, CLOSE) == |segs[1].body|
      && Canonical(segs[2..])
  }

  /** Parsing is the only way to read a message as alternating literals and markers. */
  lemma {:induction false} ParseIsUnique(segs: seq<Segment>)
    requires Canonical(segs)
    ensures Parse(Unparse(segs)) == segs
    decreases |segs|
  {
    if |segs| < 2 {
      UniqueBase(segs);
    } else {
      ParseIsUnique(segs[2..]);
      SplitTwo(segs);
      UniqueStep(segs[0], segs[1], segs[2..]);
    }
  }

  lemma UniqueBase(segs: seq<Segment>)
    requires Canonical(segs) && |segs| < 2
    ensures Parse(Unparse(segs)) == segs
  {
    assert segs == [Literal(segs[0].text)];
    RenderOne(segs[0].text, map[], 0);
  }

  lemma SplitTwo(segs: seq<Segment>)
    requires |segs| >= 2
    ensures segs == [segs[0], segs[1]] + segs[2..]
  {
  }

  lemma UniqueStep(lit: Segment, marker: Segment, rest: seq<Segment>)
    requires lit.Literal? && Index(lit.text + OPEN, OPEN) == |lit.text|
    requires marker.Placeholder? && Index(marker.body + CLOSE, CLOSE) == |marker.body|
    requires Parse(Unparse(rest)) == rest
    ensures Parse(Unparse([lit, marker] + rest)) == [lit, marker] + rest
  {
    RenderTwo(lit, marker, rest, map[], 0);
    ParseConcat(lit.text, marker.body, Unparse(rest));
  }

  lemma {:induction false} ParseIsCanonical(msg: string)
    ensures Canonical(Parse(msg))
    decreases |msg|
  {
    var (start, len) := FirstMarker(msg);
    if start >= 0 {
      ParseIsCanonical(msg[start + len + 2..]);
      FirstIsClean(msg, start, len);
      CanonicalCons(msg[..start], msg[start + 2..start + len], Parse(msg[start + len + 2..]));
      ParseStep(msg, start, len);
    }
  }

  lemma FirstIsClean(msg: string, start: nat, len: nat)
    requires FirstMarker(msg) == (start, len)
    ensures Index(msg[..start] + OPEN, OPEN) == start
    ensures Index(msg[start + 2..start + len] + CLOSE, CLOSE) == len - 2
  {
    LiteralIsClean(msg, start);
    BodyIsClean(msg[start..], len);
    assert msg[start..][2..len] == msg[start + 2..start + len];
  }

  lemma CanonicalCons(lit: string, body: string, rest: seq<Segment>)
    requires Index(lit + OPEN, OPEN) == |lit| && Index(body + CLOSE, CLOSE) == |body| && Canonical(rest)
    ensures Canonical([Literal(lit), Placeholder(body)] + rest)
  {
    assert ([Literal(lit), Placeholder(body)] + rest)[2..] == rest;
  }

  lemma LiteralIsClean(msg: string, start: nat)
    requires Index(msg, OPEN) == start
    ensures Index(msg[..start] + OPEN, OPEN) == start
  {
    var u := msg[0..start + 2];
    assert u == msg[..start] + OPEN;
    AtWindow(msg, 0, start + 2, OPEN);
    assert At(u, OPEN, start);
    assert At(msg, OPEN, 0 + Index(u, OPEN));
  }

  lemma BodyIsClean(at: string, len: nat)
    requires Index(at, CLOSE) == len && len >= 2
    ensures Index(at[2..len] + CLOSE, CLOSE) == len - 2
  {
    var u := at[2..len + 2];
    assert u == at[2..len] + CLOSE;
    AtWindow(at, 2, len + 2, CLOSE);
    assert At(u, CLOSE, len - 2);
    assert At(at, CLOSE, 2 + Index(u, CLOSE));
  }
}
