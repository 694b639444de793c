/** Splitting a long reply into channel-sized pieces and repairing the code fences the cuts fall into.
    Texts are byte strings; white space is the ASCII white space. */
module FenceChunker {
  import opened Text

  const BACKTICKS := "```"
  const TILDES := "~~~"

  // ---------------------------------------------------------------- where to cut

  predicate SentenceEnd(c: char) {
    c == '.' || c == '!' || c == '?'
  }

  /** A sentence ends at i: punctuation there and a space behind it. */
  predicate SentenceAt(text: string, i: int) {
    0 <= i < |text| - 1 && text[i + 1] == ' ' && SentenceEnd(text[i])
  }

  lemma SentenceMeans(text: string, i: int)
    ensures SentenceAt(text, i) <==> 0 <= i < |text| - 1 && text[i] in ".!?" && text[i + 1] == ' '
  {
    var marks := ".!?";
    assert marks[0] == '.' && marks[1] == '!' && marks[2] == '?';
  }

  /** No sentence ends strictly between the two positions. */
  ghost predicate NoSentence(text: string, from: int, to: int) {
    forall i :: from < i < to ==> !SentenceAt(text, i)
  }

  function Max0(i: int): nat {
    if i < 0 then 0 else i
  }

  /** The break point rules in their order of priority. */
  ghost predicate BestBreak(text: string, maxLen: nat, cut: int)
    requires maxLen <= |text|
  {
    var window, from := text[..maxLen], Max0(maxLen - 400);
    BestOf(text, maxLen, from, LastIndex(window, "\n\n"), LastIndex(window[from..], "\n"),
           LastIndex(window[from..], " "), cut)
  }

  ghost predicate BestOf(text: string, maxLen: nat, from: nat, paragraph: int, line: int, space: int, cut: int) {
    if paragraph > 0 then cut == paragraph + 2
    else if line >= 0 then cut == from + line + 1
    else if !NoSentence(text, from, maxLen) then
      from < cut - 1 < maxLen && SentenceAt(text, cut - 1) && NoSentence(text, cut - 1, maxLen)
    else if space >= 0 then cut == from + space + 1
    else cut == maxLen
  }

  /** A blank line begins at i and ends within the window. */
  predicate BlankLineAt(text: string, maxLen: nat, i: int)
    requires maxLen <= |text|
  {
    0 <= i <= maxLen - 2 && text[i] == '\n' && text[i + 1] == '\n'
  }

  predicate CharAt(text: string, i: int, c: char) {
    0 <= i < |text| && text[i] == c
  }

  /** The last c in the stretch is at i. */
  ghost predicate LastOf(text: string, from: int, to: int, c: char, i: int)
    requires 0 <= from <= to <= |text|
  {
    from <= i < to && CharAt(text, i, c) && forall k :: i < k < to ==> !CharAt(text, k, c)
  }

  ghost predicate None(text: string, from: int, to: int, c: char)
    requires 0 <= from <= to <= |text|
  {
    forall k :: from <= k < to ==> !CharAt(text, k, c)
  }

  /** i is how far behind from the last c of the stretch is, or negative when there is none. */
  ghost predicate Found(text: string, from: int, to: int, c: char, i: int)
    requires 0 <= from <= to <= |text|
  {
    if i < 0 then None(text, from, to, c) else LastOf(text, from, to, c, from + i)
  }

  lemma OneCharacter(text: string, maxLen: nat, from: nat, c: char, k: int)
    requires from <= maxLen <= |text|
    ensures At(text[..maxLen][from..], [c], k - from) <==> from <= k < maxLen && CharAt(text, k, c)
  {
    var recent := text[..maxLen][from..];
    AtOne(recent, c, k - from);
    if from <= k < maxLen {
      assert recent[k - from] == text[..maxLen][k] == text[k];
    }
  }

  lemma AtOne(s: string, c: char, i: int)
    ensures At(s, [c], i) <==> 0 <= i < |s| && s[i] == c
  {
    if 0 <= i < |s| {
      assert s[i..i + 1] == [s[i]];
    }
  }

  lemma LastCharacter(text: string, maxLen: nat, from: nat, c: char)
    requires from <= maxLen <= |text|
    ensures Found(text, from, maxLen, c, LastIndex(text[..maxLen][from..], [c]))
  {
    var i := LastIndex(text[..maxLen][from..], [c]);
    forall k | from <= k < maxLen
      ensures CharAt(text, k, c) ==> k <= from + i
    {
      OneCharacter(text, maxLen, from, c, k);
    }
    OneCharacter(text, maxLen, from, c, from + i);
  }

  lemma FoundIff(text: string, from: int, to: int, c: char, i: int)
    requires 0 <= from <= to <= |text| && Found(text, from, to, c, i)
    ensures i < 0 <==> None(text, from, to, c)
  {
  }

  /** A blank line in the window, but for one that begins it. */
  ghost predicate HasBlankLine(text: string, maxLen: nat)
    requires maxLen <= |text|
  {
    exists i :: i > 0 && BlankLineAt(text, maxLen, i)
  }

  ghost predicate LastBlankLine(text: string, maxLen: nat, i: int)
    requires maxLen <= |text|
  {
    BlankLineAt(text, maxLen, i) && forall k :: BlankLineAt(text, maxLen, k) ==> k <= i
  }

  lemma FindsBlankLine(text: string, maxLen: nat)
    requires maxLen <= |text|
    ensures var i := LastIndex(text[..maxLen], "\n\n");
            (HasBlankLine(text, maxLen) <==> i > 0) && (i > 0 ==> LastBlankLine(text, maxLen, i))
  {
    var window := text[..maxLen];
    forall k
      ensures BlankLineAt(text, maxLen, k) <==> At(window, "\n\n", k)
    {
      AtPair(window, '\n', '\n', k);
    }
  }

  /** Where a text is cut: behind the last blank line of the window that does not begin it; else behind the last
      newline of the stretch from position from on; else behind the last sentence that ends there; else behind the last
      space there; else at the limit. */
  ghost predicate BreakRule(text: string, maxLen: nat, from: nat, cut: int)
    requires from <= maxLen <= |text|
  {
    if HasBlankLine(text, maxLen) then LastBlankLine(text, maxLen, cut - 2)
    else if !None(text, from, maxLen, '\n') then LastOf(text, from, maxLen, '\n', cut - 1)
    else if !NoSentence(text, from, maxLen) then
      from < cut - 1 < maxLen && SentenceAt(text, cut - 1) && NoSentence(text, cut - 1, maxLen)
    else if !None(text, from, maxLen, ' ') then LastOf(text, from, maxLen, ' ', cut - 1)
    else cut == maxLen
  }

  lemma RuleOf(text: string, maxLen: nat, from: nat, paragraph: int, line: int, space: int, cut: int)
    requires from <= maxLen <= |text| && BestOf(text, maxLen, from, paragraph, line, space, cut)
    requires HasBlankLine(text, maxLen) <==> paragraph > 0
    requires paragraph > 0 ==> LastBlankLine(text, maxLen, paragraph)
    requires Found(text, from, maxLen, '\n', line) && Found(text, from, maxLen, ' ', space)
    ensures BreakRule(text, maxLen, from, cut)
  {
    FoundIff(text, from, maxLen, '\n', line);
    FoundIff(text, from, maxLen, ' ', space);
  }

  /** The break point rules, read off the characters of the text. */
  lemma BreakMeans(text: string, maxLen: nat, cut: int)
    requires 0 < maxLen < |text| && BestBreak(text, maxLen, cut)
    ensures BreakRule(text, maxLen, if maxLen < 400 then 0 else maxLen - 400, cut)
  {
    var from, window := Max0(maxLen - 400), text[..maxLen];
    FindsBlankLine(text, maxLen);
    LastCharacter(text, maxLen, from, '\n');
    LastCharacter(text, maxLen, from, ' ');
    RuleOf(text, maxLen, from, LastIndex(window, "\n\n"), LastIndex(window[from..], "\n"),
           LastIndex(window[from..], " "), cut);
  }

  /** The backward scan for the end of a sentence; from when there is none. */
  method LastSentence(text: string, from: nat, maxLen: nat) returns (i: int)
    requires from < maxLen < |text|
    ensures from <= i < maxLen && NoSentence(text, i, maxLen)
    ensures i > from ==> SentenceAt(text, i)
  {
    i := maxLen - 1;
    while i > from
      invariant from <= i < maxLen && NoSentence(text, i, maxLen)
    {
      if i + 1 < |text| && text[i + 1] == ' ' {
        if text[i] == '.' || text[i] == '!' || text[i] == '?' {
          return i;
        }
      }
      i := i - 1;
    }
  }

  method FindBreakPoint(text: string, maxLen: nat) returns (cut: int)
    requires 0 < maxLen < |text|
    ensures 0 < cut <= maxLen && BestBreak(text, maxLen, cut)
  {
    var window := text[..maxLen];
    var searchFrom := maxLen - 400;
    if searchFrom < 0 {
      searchFrom := 0;
    }
    var recent := window[searchFrom..];
    assert searchFrom == Max0(maxLen - 400) && |recent| == maxLen - searchFrom;
    var paragraph, line, space := LastIndex(window, "\n\n"), LastIndex(recent, "\n"), LastIndex(recent, " ");
    cut := ChooseBreak(text, maxLen, searchFrom, paragraph, line, space);
  }

  /** The choice among the break points found. */
  method ChooseBreak(text: string, maxLen: nat, searchFrom: nat, paragraph: int, line: int, space: int)
    returns (cut: int)
    requires searchFrom < maxLen < |text|
    requires paragraph <= maxLen - 2 && line < maxLen - searchFrom && space < maxLen - searchFrom
    ensures 0 < cut <= maxLen && BestOf(text, maxLen, searchFrom, paragraph, line, space, cut)
  {
    if paragraph > 0 {
      return paragraph + 2;
    }
    if line >= 0 {
      return searchFrom + line + 1;
    }
    var i := LastSentence(text, searchFrom, maxLen);
    if i > searchFrom {
      return i + 1;
    }
    if space >= 0 {
      return searchFrom + space + 1;
    }
    return maxLen;
  }

  function Concat(parts: seq<string>): string {
    if parts == [] then "" else parts[0] + Concat(parts[1..])
  }

  lemma {:induction false} ConcatSnoc(parts: seq<string>, p: string)
    ensures Concat(parts + [p]) == Concat(parts) + p
  {
    if parts == [] {
      assert [p][1..] == [];
      assert [] + [p] == [p];
    } else {
      assert (parts + [p])[1..] == parts[1..] + [p];
      ConcatSnoc(parts[1..], p);
    }
  }

  /** What was left of the text before piece i was cut. */
  function RestBefore(text: string, parts: seq<string>, i: nat): string
    requires i <= |parts|
  {
    var n := |Concat(parts[..i])|;
    if n <= |text| then text[n..] else ""
  }

  /** A piece is nonempty, at most maxLen long, and ends at the best break point of what was left. */
  ghost predicate GoodPiece(rest: string, maxLen: nat, p: string) {
    && 0 < |p| <= maxLen && p <= rest
    && if |rest| <= maxLen then p == rest else BestBreak(rest, maxLen, |p|)
  }

  ghost predicate GoodAt(text: string, maxLen: nat, parts: seq<string>, i: nat)
    requires i < |parts|
  {
    GoodPiece(RestBefore(text, parts, i), maxLen, parts[i])
  }

  ghost predicate GoodPieces(text: string, maxLen: nat, parts: seq<string>) {
    forall i: nat {:trigger GoodAt(text, maxLen, parts, i)} :: i < |parts| ==> GoodAt(text, maxLen, parts, i)
  }

  lemma StillGood(text: string, maxLen: nat, parts: seq<string>, p: string, i: nat)
    requires i < |parts|
    ensures GoodAt(text, maxLen, parts + [p], i) <==> GoodAt(text, maxLen, parts, i)
  {
    assert (parts + [p])[..i] == parts[..i];
  }

  lemma LastIsGood(text: string, maxLen: nat, parts: seq<string>, rest: string, p: string)
    requires text == Concat(parts) + rest
    ensures GoodAt(text, maxLen, parts + [p], |parts|) <==> GoodPiece(rest, maxLen, p)
  {
    assert (parts + [p])[..|parts|] == parts;
    assert text[|Concat(parts)|..] == rest;
  }

  lemma CutOne(front: string, rest: string, p: string)
    requires p <= rest
    ensures front + rest == (front + p) + rest[|p|..]
  {
  }

  lemma TextStays(text: string, parts: seq<string>, rest: string, p: string)
    requires text == Concat(parts) + rest && p <= rest
    ensures text == Concat(parts + [p]) + rest[|p|..]
  {
    ConcatSnoc(parts, p);
    CutOne(Concat(parts), rest, p);
  }

  lemma GrowPieces(text: string, maxLen: nat, parts: seq<string>, rest: string, p: string)
    requires text == Concat(parts) + rest && GoodPieces(text, maxLen, parts) && GoodPiece(rest, maxLen, p)
    ensures GoodPieces(text, maxLen, parts + [p])
  {
    LastIsGood(text, maxLen, parts, rest, p);
    forall i: nat | i < |parts|
      ensures GoodAt(text, maxLen, parts + [p], i)
    {
      StillGood(text, maxLen, parts, p, i);
    }
  }

  method CutPieces(text0: string, maxLen: nat) returns (parts: seq<string>)
    requires 0 < maxLen < |text0|
    ensures Concat(parts) == text0 && GoodPieces(text0, maxLen, parts)
  {
    parts := [];
    var text := text0;
    while |text| > 0
      invariant text0 == Concat(parts) + text && GoodPieces(text0, maxLen, parts)
      decreases |text|
    {
      var piece := text;
      if |text| > maxLen {
        var cut := FindBreakPoint(text, maxLen);
        piece := text[..cut];
      }
      GrowPieces(text0, maxLen, parts, text, piece);
      TextStays(text0, parts, text, piece);
      parts := parts + [piece];
      text := text[|piece|..];
    }
  }

  // ---------------------------------------------------------------- fences

  predicate Blank(c: char) {
    c == ' ' || c == '\t' || c == '\n' || c == '\r' || c == '\U{0b}' || c == '\U{0c}'
  }

  function TrimLeft(s: string): string {
    if s != "" && Blank(s[0]) then TrimLeft(s[1..]) else s
  }

  function TrimRight(s: string): string {
    if s != "" && Blank(s[|s| - 1]) then TrimRight(s[..|s| - 1]) else s
  }

  function Trim(s: string): string {
    TrimRight(TrimLeft(s))
  }

  /** The pieces between newlines; always at least one. */
  function Lines(s: string): (r: seq<string>)
    ensures r != [] && AreLines(r)
  {
    if s == "" then [""]
    else
      var rest := Lines(s[1..]);
      if s[0] == '\n' then [""] + rest else [[s[0]] + rest[0]] + rest[1..]
  }

  predicate OpensFence(trimmed: string) {
    BACKTICKS <= trimmed || TILDES <= trimmed
  }

  /** The run of its first character that s starts with. */
  function RunLength(s: string, c: char): (n: nat)
    ensures n <= |s| && forall i :: 0 <= i < n ==> s[i] == c
    ensures n < |s| ==> s[n] != c
  {
    if s != "" && s[0] == c then 1 + RunLength(s[1..], c) else 0
  }

  function Mark(header: string): string
    requires header != ""
  {
    header[..RunLength(header, header[0])]
  }

  method FenceMark(header: string) returns (mark: string)
    requires header != ""
    ensures mark == Mark(header)
  {
    var i := 0;
    while i < |header| && header[i] == header[0]
      invariant i <= |header|
      invariant RunLength(header, header[0]) == i + RunLength(header[i..], header[0])
    {
      assert header[i..][1..] == header[i + 1..];
      i := i + 1;
    }
    return header[..i];
  }

  function SkipRun(s: string, c: char): string {
    if s != "" && s[0] == c then SkipRun(s[1..], c) else s
  }

  /** A closing fence: the opening run, perhaps longer, and nothing but white space behind it. */
  predicate ClosesFence(trimmed: string, header: string)
    requires header != ""
  {
    var mark := Mark(header);
    mark <= trimmed && mark != "" && Trim(SkipRun(trimmed[|mark|..], mark[0])) == ""
  }

  /** The fence state after one line: the header of the open fence, or "". */
  function AfterLine(open: string, line: string): string {
    var trimmed := Trim(line);
    if open == "" then if OpensFence(trimmed) then trimmed else ""
    else if ClosesFence(trimmed, open) then "" else open
  }

  function AfterLines(open: string, lines: seq<string>): string
    decreases |lines|
  {
    if lines == [] then open else AfterLines(AfterLine(open, lines[0]), lines[1..])
  }

  /** The fence open at the end of text, when open is open at its start. */
  function FenceAfter(text: string, open: string): string {
    AfterLines(open, Lines(text))
  }

  method TrackFence(text: string, initial: string) returns (open: string)
    ensures open == FenceAfter(text, initial)
  {
    open := initial;
    var lines := Lines(text);
    for i := 0 to |lines|
      invariant AfterLines(initial, lines) == AfterLines(open, lines[i..])
    {
      assert lines[i..][0] == lines[i] && lines[i..][1..] == lines[i + 1..];
      var trimmed := Trim(lines[i]);
      if open == "" {
        if OpensFence(trimmed) {
          open := trimmed;
        }
      } else {
        if ClosesFence(trimmed, open) {
          open := "";
        }
      }
    }
  }

  // ---------------------------------------------------------------- healing

  /** A piece with the fence open before it reopened in front. */
  function Reopened(open: string, part: string): string {
    if open == "" then part else open + "\n" + part
  }

  function CloseIfOpen(piece: string, last: bool): string {
    var open := FenceAfter(piece, "");
    if open != "" && !last then piece + "\n" + Mark(open) else piece
  }

  function Healed(open: string, parts: seq<string>): (r: seq<string>)
    ensures |r| == |parts|
    decreases |parts|
  {
    if parts == [] then []
    else
      var piece := Reopened(open, parts[0]);
      [CloseIfOpen(piece, |parts| == 1)] + Healed(FenceAfter(piece, ""), parts[1..])
  }

  method HealFences(parts: seq<string>) returns (out: seq<string>)
    ensures out == if |parts| <= 1 then parts else Healed("", parts)
  {
    if |parts| <= 1 {
      return parts;
    }
    var openFence := "";
    out := [];
    for i := 0 to |parts|
      invariant out + Healed(openFence, parts[i..]) == Healed("", parts)
    {
      var piece := parts[i];
      ghost var before := openFence;
      if openFence != "" {
        piece := openFence + "\n" + piece;
      }
      openFence := TrackFence(piece, "");
      HealCons(before, parts[i..]);
      Shift(out, CloseIfOpen(piece, i == |parts| - 1), Healed(openFence, parts[i..][1..]));
      assert parts[i..][1..] == parts[i + 1..];
      if openFence != "" && i < |parts| - 1 {
        var closeMark := FenceMark(openFence);
        piece := piece + "\n" + closeMark;
      }
      out := out + [piece];
    }
    assert parts[|parts|..] == [];
  }

  lemma HealCons(open: string, parts: seq<string>)
    requires parts != []
    ensures Healed(open, parts) == [CloseIfOpen(Reopened(open, parts[0]), |parts| == 1)]
                                   + Healed(FenceAfter(Reopened(open, parts[0]), ""), parts[1..])
  {
  }

  lemma Shift(out: seq<string>, head: string, tail: seq<string>)
    ensures out + ([head] + tail) == (out + [head]) + tail
  {
  }

  /** chunks are the healed form of raw pieces that join to the text. */
  ghost predicate ChunksOf(text: string, maxLen: nat, chunks: seq<string>) {
    exists parts :: Concat(parts) == text && GoodPieces(text, maxLen, parts) && chunks == Healed("", parts)
  }

  method SmartChunk(text: string, maxLen0: int) returns (chunks: seq<string>)
    ensures var maxLen: nat := if maxLen0 <= 0 then 4096 else maxLen0;
            if |text| <= maxLen then chunks == [text] else ChunksOf(text, maxLen, chunks)
  {
    var maxLen: nat := if maxLen0 <= 0 then 4096 else maxLen0;
    if |text| <= maxLen {
      return [text];
    }
    var parts := CutPieces(text, maxLen);
    ManyPieces(text, maxLen, parts);
    chunks := HealFences(parts);
  }

  /** The break point rules leave no choice. */
  lemma OneBreak(text: string, maxLen: nat, c: int, d: int)
    requires maxLen <= |text| && BestBreak(text, maxLen, c) && BestBreak(text, maxLen, d)
    ensures c == d
  {
  }

  lemma OneCut(rest: string, maxLen: nat, p: string, q: string)
    requires GoodPiece(rest, maxLen, p) && GoodPiece(rest, maxLen, q)
    ensures p == q
  {
    if |rest| > maxLen {
      OneBreak(rest, maxLen, |p|, |q|);
    }
    assert p == rest[..|p|] && q == rest[..|q|];
  }

  lemma NextPiece(text: string, maxLen: nat, p: seq<string>, q: seq<string>, n: nat)
    requires n < |p| && n < |q| && p[..n] == q[..n] && GoodAt(text, maxLen, p, n) && GoodAt(text, maxLen, q, n)
    ensures p[n] == q[n]
  {
    OneCut(RestBefore(text, p, n), maxLen, p[n], q[n]);
  }

  lemma SameLonger(p: seq<string>, q: seq<string>, n: nat)
    requires n < |p| && n < |q| && p[..n] == q[..n] && p[n] == q[n]
    ensures p[..n + 1] == q[..n + 1]
  {
    assert p[..n + 1] == p[..n] + [p[n]] && q[..n + 1] == q[..n] + [q[n]];
  }

  /** Equal pieces before position k force equal pieces there. */
  ghost predicate SameNext(p: seq<string>, q: seq<string>, k: nat) {
    k < |p| && k < |q| && p[..k] == q[..k] ==> p[k] == q[k]
  }

  lemma {:induction false} PrefixesAgree(p: seq<string>, q: seq<string>, n: nat)
    requires n <= |p| && n <= |q| && forall k: nat {:trigger SameNext(p, q, k)} :: SameNext(p, q, k)
    ensures p[..n] == q[..n]
  {
    if n > 0 {
      PrefixesAgree(p, q, n - 1);
      assert SameNext(p, q, n - 1);
      SameLonger(p, q, n - 1);
    }
  }

  lemma PiecesAgree(text: string, maxLen: nat, p: seq<string>, q: seq<string>, n: nat)
    requires GoodPieces(text, maxLen, p) && GoodPieces(text, maxLen, q) && n <= |p| && n <= |q|
    ensures p[..n] == q[..n]
  {
    forall k: nat
      ensures SameNext(p, q, k)
    {
      if k < |p| && k < |q| && p[..k] == q[..k] {
        assert GoodAt(text, maxLen, p, k) && GoodAt(text, maxLen, q, k);
        NextPiece(text, maxLen, p, q, k);
      }
    }
    PrefixesAgree(p, q, n);
  }

  /** Pieces that already join to the text cannot be continued. */
  lemma NoMorePieces(text: string, maxLen: nat, p: seq<string>, q: seq<string>)
    requires Concat(p) == text && GoodPieces(text, maxLen, q) && |p| <= |q| && q[..|p|] == p
    ensures p == q
  {
    if |p| < |q| {
      SomethingLeft(text, maxLen, q, |p|);
    }
    assert q[..|q|] == q;
  }

  lemma SomethingLeft(text: string, maxLen: nat, parts: seq<string>, n: nat)
    requires GoodPieces(text, maxLen, parts) && n < |parts|
    ensures Concat(parts[..n]) != text
  {
    assert GoodAt(text, maxLen, parts, n);
  }

  lemma PiecesDecided(text: string, maxLen: nat, p: seq<string>, q: seq<string>)
    requires Concat(p) == text && GoodPieces(text, maxLen, p) && Concat(q) == text && GoodPieces(text, maxLen, q)
    ensures p == q
  {
    if |p| <= |q| {
      PiecesAgree(text, maxLen, p, q, |p|);
      assert p[..|p|] == p;
      NoMorePieces(text, maxLen, p, q);
    } else {
      PiecesAgree(text, maxLen, q, p, |q|);
      assert q[..|q|] == q;
      NoMorePieces(text, maxLen, q, p);
    }
  }

  /** The text and the limit alone decide the chunks. */
  lemma ChunksAreDecided(text: string, maxLen: nat, a: seq<string>, b: seq<string>)
    requires ChunksOf(text, maxLen, a) && ChunksOf(text, maxLen, b)
    ensures a == b
  {
    var p :| Concat(p) == text && GoodPieces(text, maxLen, p) && a == Healed("", p);
    var q :| Concat(q) == text && GoodPieces(text, maxLen, q) && b == Healed("", q);
    PiecesDecided(text, maxLen, p, q);
  }

  lemma ManyPieces(text: string, maxLen: nat, parts: seq<string>)
    requires Concat(parts) == text && GoodPieces(text, maxLen, parts) && |text| > maxLen
    ensures |parts| > 1
  {
    RawPiecesBounded(text, maxLen, parts);
    if parts != [] {
      assert parts[0] in parts;
      assert |Concat(parts)| == |parts[0]| + |Concat(parts[1..])|;
    }
  }

  // ---------------------------------------------------------------- what the raw pieces guarantee

  /** The raw pieces join to the text, none is empty, none is longer than the limit. */
  lemma RawPiecesBounded(text: string, maxLen: nat, parts: seq<string>)
    requires GoodPieces(text, maxLen, parts)
    ensures forall p :: p in parts ==> 0 < |p| <= maxLen
  {
    forall i | 0 <= i < |parts|
      ensures 0 < |parts[i]| <= maxLen
    {
      assert GoodAt(text, maxLen, parts, i);
    }
  }

  // ---------------------------------------------------------------- headers

  predicate NoNewline(s: string) {
    forall i :: 0 <= i < |s| ==> s[i] != '\n'
  }

  ghost predicate AreLines(lines: seq<string>) {
    forall i :: 0 <= i < |lines| ==> NoNewline(lines[i])
  }

  /** What can be remembered as an open fence: a trimmed line that opens one. */
  predicate Header(o: string) {
    OpensFence(o) && Trim(o) == o && NoNewline(o)
  }

  lemma {:induction false} TrimLeftPart(s: string)
    ensures |TrimLeft(s)| <= |s| && TrimLeft(s) == s[|s| - |TrimLeft(s)|..]
    ensures TrimLeft(s) != "" ==> !Blank(TrimLeft(s)[0])
  {
    if s != "" && Blank(s[0]) {
      TrimLeftPart(s[1..]);
    }
  }

  lemma {:induction false} TrimRightPart(s: string)
    ensures TrimRight(s) <= s
    ensures TrimRight(s) != "" ==> !Blank(TrimRight(s)[|TrimRight(s)| - 1])
  {
    if s != "" && Blank(s[|s| - 1]) {
      TrimRightPart(s[..|s| - 1]);
    }
  }

  /** Trimming a line keeps it a line, and trimming twice is trimming once. */
  lemma TrimLine(s: string)
    requires NoNewline(s)
    ensures NoNewline(Trim(s)) && Trim(Trim(s)) == Trim(s)
  {
    var l := TrimLeft(s);
    TrimLeftPart(s);
    TrimRightPart(l);
    PartIsLine(s, |s| - |l|, |s|);
    assert s[|s| - |l|..|s|] == l;
    PartIsLine(l, 0, |Trim(s)|);
    assert l[0..|Trim(s)|] == Trim(s);
    TrimEnds(s);
    NothingToTrim(Trim(s));
  }

  lemma PartIsLine(s: string, i: nat, j: nat)
    requires NoNewline(s) && i <= j <= |s|
    ensures NoNewline(s[i..j])
  {
  }

  lemma NothingToTrim(t: string)
    requires t != "" ==> !Blank(t[0]) && !Blank(t[|t| - 1])
    ensures Trim(t) == t
  {
    assert TrimLeft(t) == t;
    assert TrimRight(t) == t;
  }

  ghost predicate AllBlank(s: string) {
    forall i :: 0 <= i < |s| ==> s[i] in {' ', '\t', '\n', '\r', '\U{0b}', '\U{0c}'}
  }

  lemma {:induction false} TrimLeftDrops(s: string)
    ensures |TrimLeft(s)| <= |s| && AllBlank(s[..|s| - |TrimLeft(s)|])
  {
    if s != "" && Blank(s[0]) {
      TrimLeftPart(s[1..]);
      TrimLeftDrops(s[1..]);
      var n := |s| - |TrimLeft(s)|;
      assert s[..n] == [s[0]] + s[1..][..n - 1];
    }
  }

  lemma {:induction false} TrimRightDrops(s: string)
    ensures |TrimRight(s)| <= |s| && AllBlank(s[|TrimRight(s)|..])
  {
    if s != "" && Blank(s[|s| - 1]) {
      var init := s[..|s| - 1];
      TrimRightPart(init);
      TrimRightDrops(init);
      assert s[|TrimRight(s)|..] == init[|TrimRight(s)|..] + [s[|s| - 1]];
    }
  }

  lemma TrimEnds(s: string)
    ensures Trim(s) != "" ==> !Blank(Trim(s)[0]) && !Blank(Trim(s)[|Trim(s)| - 1])
  {
    var l := TrimLeft(s);
    TrimLeftPart(s);
    TrimRightPart(l);
    assert Trim(s) != "" ==> Trim(s)[0] == l[0];
  }

  lemma NotBlank(c: char)
    ensures Blank(c) <==> AllBlank([c])
  {
    assert [c][0] == c;
  }

  lemma LeftSplits(s: string) returns (front: string)
    ensures s == front + TrimLeft(s) && AllBlank(front)
  {
    TrimLeftPart(s);
    TrimLeftDrops(s);
    front := s[..|s| - |TrimLeft(s)|];
  }

  lemma RightSplits(s: string) returns (back: string)
    ensures s == TrimRight(s) + back && AllBlank(back)
  {
    TrimRightPart(s);
    TrimRightDrops(s);
    back := s[|TrimRight(s)|..];
  }

  /** Trimming takes away white space at both ends and leaves none there. */
  lemma TrimMeans(s: string) returns (front: string, back: string)
    ensures s == front + Trim(s) + back && AllBlank(front) && AllBlank(back)
    ensures Trim(s) != "" ==> !AllBlank([Trim(s)[0]]) && !AllBlank([Trim(s)[|Trim(s)| - 1]])
  {
    front := LeftSplits(s);
    back := RightSplits(TrimLeft(s));
    assert front + (Trim(s) + back) == front + Trim(s) + back;
    TrimEnds(s);
    if Trim(s) != "" {
      NotBlank(Trim(s)[0]);
      NotBlank(Trim(s)[|Trim(s)| - 1]);
    }
  }

  lemma {:induction false} SkipRunPart(s: string, c: char)
    ensures |SkipRun(s, c)| <= |s| && s[|s| - |SkipRun(s, c)|..] == SkipRun(s, c)
    ensures SkipRun(s, c) != "" ==> SkipRun(s, c)[0] != c
  {
    if s != "" && s[0] == c {
      var rest := s[1..];
      SkipRunPart(rest, c);
      assert s[|s| - |SkipRun(s, c)|..] == rest[|rest| - |SkipRun(rest, c)|..];
    }
  }

  lemma {:induction false} SkippedIsRun(s: string, c: char, i: nat)
    requires i + |SkipRun(s, c)| < |s|
    ensures s[i] == c
    decreases i
  {
    if i > 0 {
      SkippedIsRun(s[1..], c, i - 1);
    }
  }

  lemma TrimmedAway(s: string)
    requires s != "" && !Blank(s[|s| - 1])
    ensures Trim(s) != ""
  {
    TrimLeftPart(s);
    TrimLeftKeepsEnd(s);
  }

  lemma {:induction false} TrimLeftKeepsEnd(s: string)
    requires s != "" && !Blank(s[|s| - 1])
    ensures TrimLeft(s) != "" && TrimLeft(s)[|TrimLeft(s)| - 1] == s[|s| - 1]
  {
    if Blank(s[0]) {
      TrimLeftKeepsEnd(s[1..]);
    }
  }

  /** What a line does to the fence: outside one, a line that starts with three backticks or three tildes opens it and
      is remembered; inside one, a line made of the fence's character alone, at least as many as opened it, closes
      it. */
  lemma LineMeans(open: string, line: string)
    requires NoNewline(line) && (open == "" || Header(open))
    ensures var t := Trim(line);
            AfterLine(open, line)
            == if open == "" then
                 if |t| >= 3 && t[0] == t[1] == t[2] && (t[0] == '`' || t[0] == '~') then t else ""
               else if |t| >= |Mark(open)| && (forall i :: 0 <= i < |t| ==> t[i] == open[0]) then "" else open
  {
    TrimLine(line);
    if open == "" {
      OpensIff(Trim(line));
    } else {
      ClosesIff(Trim(line), open);
    }
  }

  lemma OpensIff(t: string)
    ensures OpensFence(t) <==> |t| >= 3 && t[0] == t[1] == t[2] && (t[0] == '`' || t[0] == '~')
  {
    if |t| >= 3 {
      assert t[..3] == [t[0], t[1], t[2]];
    }
  }

  lemma MarkIsRun(header: string)
    requires Header(header)
    ensures |Mark(header)| >= 3 && (forall i :: 0 <= i < |Mark(header)| ==> Mark(header)[i] == header[0])
    ensures header[0] == '`' || header[0] == '~'
  {
    OpensIff(header);
  }

  lemma ClosesIff(t: string, header: string)
    requires Header(header) && Trim(t) == t
    ensures ClosesFence(t, header) <==> |t| >= |Mark(header)| && forall i :: 0 <= i < |t| ==> t[i] == header[0]
  {
    var mark := Mark(header);
    MarkIsRun(header);
    if |t| >= |mark| && forall i :: 0 <= i < |t| ==> t[i] == header[0] {
      assert t[..|mark|] == mark;
    }
    if mark <= t {
      SolidOrNot(t, mark);
    }
  }

  lemma SolidOrNot(t: string, mark: string)
    requires mark != "" && mark <= t && Trim(t) == t && forall i :: 0 <= i < |mark| ==> mark[i] == mark[0]
    ensures Trim(SkipRun(t[|mark|..], mark[0])) == "" <==> forall i :: 0 <= i < |t| ==> t[i] == mark[0]
  {
    var rest := t[|mark|..];
    var tail := SkipRun(rest, mark[0]);
    SkipRunPart(rest, mark[0]);
    if tail == "" {
      forall i | 0 <= i < |t|
        ensures t[i] == mark[0]
      {
        if i < |mark| {
          assert t[i] == mark[i];
        } else {
          SkippedIsRun(rest, mark[0], i - |mark|);
        }
      }
      assert Trim("") == "";
    } else {
      TrimRightPart(TrimLeft(t));
      assert tail[|tail| - 1] == t[|t| - 1];
      TrimmedAway(tail);
      assert tail[0] == t[|t| - |tail|];
    }
  }

  lemma {:induction false} StateIsHeader(open: string, lines: seq<string>)
    requires open == "" || Header(open)
    requires AreLines(lines)
    ensures AfterLines(open, lines) == "" || Header(AfterLines(open, lines))
    decreases |lines|
  {
    if lines != [] {
      assert NoNewline(lines[0]);
      TrimLine(lines[0]);
      StateIsHeader(AfterLine(open, lines[0]), lines[1..]);
    }
  }

  lemma FenceIsHeader(text: string, open: string)
    requires open == "" || Header(open)
    ensures FenceAfter(text, open) == "" || Header(FenceAfter(text, open))
  {
    StateIsHeader(open, Lines(text));
  }

  // ---------------------------------------------------------------- tracking across concatenation

  lemma {:induction false} AfterLinesConcat(open: string, a: seq<string>, b: seq<string>)
    ensures AfterLines(open, a + b) == AfterLines(AfterLines(open, a), b)
    decreases |a|
  {
    if a == [] {
      assert a + b == b;
    } else {
      assert (a + b)[1..] == a[1..] + b;
      AfterLinesConcat(AfterLine(open, a[0]), a[1..], b);
    }
  }

  lemma ShiftNewline(a: string, b: string)
    requires a != ""
    ensures (a + "\n" + b)[1..] == a[1..] + "\n" + b && (a + "\n" + b)[0] == a[0]
  {
  }

  lemma HeadFirst(x: string, rest: seq<string>, b: seq<string>)
    requires rest != []
    ensures [x] + (rest + b) == ([x] + rest) + b
    ensures [x + (rest + b)[0]] + (rest + b)[1..] == ([x + rest[0]] + rest[1..]) + b
  {
    assert (rest + b)[1..] == rest[1..] + b;
  }

  lemma {:induction false} LinesConcat(a: string, b: string)
    ensures Lines(a + "\n" + b) == Lines(a) + Lines(b)
  {
    if a == "" {
      assert "" + "\n" + b == "\n" + b && ("\n" + b)[1..] == b;
    } else {
      ShiftNewline(a, b);
      LinesConcat(a[1..], b);
      var x := if a[0] == '\n' then "" else [a[0]];
      HeadFirst(x, Lines(a[1..]), Lines(b));
    }
  }

  lemma FenceConcat(a: string, b: string, open: string)
    ensures FenceAfter(a + "\n" + b, open) == FenceAfter(b, FenceAfter(a, open))
  {
    LinesConcat(a, b);
    AfterLinesConcat(open, Lines(a), Lines(b));
  }

  lemma OneLine(s: string, open: string)
    requires NoNewline(s)
    ensures FenceAfter(s, open) == AfterLine(open, s)
  {
    LineAlone(s);
    assert AfterLines(open, [s]) == AfterLines(AfterLine(open, s), [s][1..]);
  }

  lemma {:induction false} LineAlone(s: string)
    requires NoNewline(s)
    ensures Lines(s) == [s]
  {
    if s != "" {
      LineAlone(s[1..]);
      assert [s[0]] + s[1..] == s;
    }
  }

  /** Reopening a fence in front of a piece is the same as tracking the piece with the fence open. */
  lemma ReopenedTracks(open: string, part: string)
    requires open == "" || Header(open)
    ensures FenceAfter(Reopened(open, part), "") == FenceAfter(part, open)
  {
    if open != "" {
      FenceConcat(open, part, "");
      OneLine(open, "");
    }
  }

  lemma {:induction false} RunIsSolid(s: string, c: char)
    requires !Blank(c) && forall i :: 0 <= i < |s| ==> s[i] == c
    ensures Trim(s) == s
  {
    assert TrimLeft(s) == s;
    assert TrimRight(s) == s;
  }

  /** The closing mark that is added does close the fence. */
  lemma MarkCloses(piece: string, open: string)
    requires open == FenceAfter(piece, "") && open != ""
    ensures FenceAfter(piece + "\n" + Mark(open), "") == ""
  {
    FenceIsHeader(piece, "");
    var mark := Mark(open);
    assert open[0] == '`' || open[0] == '~';
    RunIsSolid(mark, open[0]);
    FenceConcat(piece, mark, "");
    OneLine(mark, open);
    assert mark[|mark|..] == "";
  }

  // ---------------------------------------------------------------- what healing guarantees

  /** The fence carried into piece i. */
  function HeaderAt(open: string, parts: seq<string>, i: nat): string
    requires i <= |parts|
    decreases i
  {
    if i == 0 then open else HeaderAt(FenceAfter(Reopened(open, parts[0]), ""), parts[1..], i - 1)
  }

  lemma {:induction false} HealedAt(open: string, parts: seq<string>, i: nat)
    requires i < |parts|
    ensures Healed(open, parts)[i] == CloseIfOpen(Reopened(HeaderAt(open, parts, i), parts[i]), i == |parts| - 1)
    decreases i
  {
    HealCons(open, parts);
    if i > 0 {
      HealedAt(FenceAfter(Reopened(open, parts[0]), ""), parts[1..], i - 1);
    }
  }

  /** Every healed piece is its raw piece with the carried header in a line before it, if there is one, and the closing
      mark in a line behind it, if a fence is open there and more pieces follow. */
  lemma HealedPiece(open: string, parts: seq<string>, i: nat)
    requires i < |parts|
    ensures var header := HeaderAt(open, parts, i);
            var piece := (if header == "" then "" else header + "\n") + parts[i];
            var left := FenceAfter(piece, "");
            Healed(open, parts)[i] == piece + (if i < |parts| - 1 && left != "" then "\n" + Mark(left) else "")
  {
    HealedAt(open, parts, i);
    var piece := Reopened(HeaderAt(open, parts, i), parts[i]);
    assert "" + parts[i] == parts[i] && piece + "" == piece;
    JoinLine(piece, if FenceAfter(piece, "") == "" then "" else Mark(FenceAfter(piece, "")));
  }

  lemma JoinLine(a: string, b: string)
    ensures a + ("\n" + b) == a + "\n" + b
  {
  }

  /** Every piece but the last leaves no fence open. */
  lemma HealedIsClosed(parts: seq<string>, i: nat)
    requires i + 1 < |parts|
    ensures FenceAfter(Healed("", parts)[i], "") == ""
  {
    HealedAt("", parts, i);
    var piece := Reopened(HeaderAt("", parts, i), parts[i]);
    if FenceAfter(piece, "") != "" {
      MarkCloses(piece, FenceAfter(piece, ""));
    }
  }

  lemma CarriedIsHeader(open: string, part: string)
    requires open == "" || Header(open)
    ensures var next := FenceAfter(Reopened(open, part), "");
            next == FenceAfter(part, open) && (next == "" || Header(next))
  {
    ReopenedTracks(open, part);
    FenceIsHeader(part, open);
  }

  /** The carried fence is a header, and tracking resumes from it. */
  lemma {:induction false} HeaderStep(open: string, parts: seq<string>, i: nat)
    requires i <= |parts| && (open == "" || Header(open))
    ensures HeaderAt(open, parts, i) == "" || Header(HeaderAt(open, parts, i))
    ensures i < |parts| ==> HeaderAt(open, parts, i + 1) == FenceAfter(parts[i], HeaderAt(open, parts, i))
    decreases i
  {
    if parts != [] {
      CarriedIsHeader(open, parts[0]);
      if i > 0 {
        HeaderStep(FenceAfter(Reopened(open, parts[0]), ""), parts[1..], i - 1);
      }
    }
  }

  predicate EndsLine(s: string) {
    s != "" && s[|s| - 1] == '\n'
  }

  lemma FenceAfterLineEnd(a: string, b: string, open: string)
    requires EndsLine(a)
    ensures FenceAfter(a + b, open) == FenceAfter(b, FenceAfter(a, open))
  {
    var a' := a[..|a| - 1];
    assert a == a' + "\n" + "" && a + b == a' + "\n" + b;
    FenceConcat(a', b, open);
    FenceConcat(a', "", open);
    OneLine("", FenceAfter(a', open));
    assert Trim("") == "";
  }

  lemma ConcatEndsLine(parts: seq<string>)
    requires parts != [] && EndsLine(parts[|parts| - 1])
    ensures EndsLine(Concat(parts))
  {
    var init, last := parts[..|parts| - 1], parts[|parts| - 1];
    assert parts == init + [last];
    ConcatSnoc(init, last);
    LineEndLast(Concat(init), last);
  }

  lemma LineEndLast(a: string, b: string)
    requires EndsLine(b)
    ensures EndsLine(a + b)
  {
  }

  lemma NothingOpen()
    ensures FenceAfter("", "") == ""
  {
    OneLine("", "");
    assert Trim("") == "";
  }

  lemma FenceGrows(before: seq<string>, p: string)
    requires before != [] ==> EndsLine(before[|before| - 1])
    ensures FenceAfter(Concat(before + [p]), "") == FenceAfter(p, FenceAfter(Concat(before), ""))
  {
    ConcatSnoc(before, p);
    if before == [] {
      assert "" + p == p;
      NothingOpen();
    } else {
      ConcatEndsLine(before);
      FenceAfterLineEnd(Concat(before), p, "");
    }
  }

  /** When every cut follows a newline, the fence reopened on piece i is the one open there in the original. */
  lemma {:induction false} HeaderIsOriginalFence(parts: seq<string>, i: nat)
    requires i < |parts| && forall k :: 0 <= k < |parts| - 1 ==> EndsLine(parts[k])
    ensures HeaderAt("", parts, i) == FenceAfter(Concat(parts[..i]), "")
    decreases i
  {
    if i == 0 {
      NothingOpen();
    } else {
      HeaderIsOriginalFence(parts, i - 1);
      HeaderStep("", parts, i - 1);
      assert parts[..i] == parts[..i - 1] + [parts[i - 1]];
      FenceGrows(parts[..i - 1], parts[i - 1]);
    }
  }
}
