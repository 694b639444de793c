/** Re-ranking of search results: each pick trades relevance against similarity to what was already picked. */
module MMR {
  import opened Sets

  // ---------------------------------------------------------------- words

  predicate IsWordChar(c: char) {
    'a' <= c <= 'z' || 'A' <= c <= 'Z' || '0' <= c <= '9' || c == '_'
  }

  function LowerChar(c: char): char {
    if 'A' <= c <= 'Z' then c - 'A' + 'a' else c
  }

  function ToLower(s: string): (r: string)
    ensures |r| == |s|
  {
    seq(|s|, i requires 0 <= i < |s| => LowerChar(s[i]))
  }

  const LETTERS := "abcdefghijklmnopqrstuvwxyz"
  const CAPITALS := "ABCDEFGHIJKLMNOPQRSTUVWXYZ"

  /** Words are made of letters, digits and underscores, and compared in lower case. */
  lemma CharactersMean(c: char, k: nat)
    requires k < 26
    ensures IsWordChar(LETTERS[k]) && IsWordChar(CAPITALS[k])
    ensures ToLower(LETTERS) == LETTERS == ToLower(CAPITALS)
    ensures c !in CAPITALS ==> LowerChar(c) == c
    ensures IsWordChar(c) <==> c in LETTERS || c in CAPITALS || c in "0123456789_"
  {
    assert forall i: nat :: i < 26 ==> LETTERS[i] == 'a' + i as char && CAPITALS[i] == 'A' + i as char;
    assert forall i: nat :: i < 10 ==> "0123456789_"[i] == '0' + i as char;
    if 'a' <= c <= 'z' {
      assert LETTERS[c as int - 'a' as int] == c;
    } else if 'A' <= c <= 'Z' {
      assert CAPITALS[c as int - 'A' as int] == c;
    } else if '0' <= c <= '9' {
      assert "0123456789_"[c as int - '0' as int] == c;
    } else if c == '_' {
      assert "0123456789_"[10] == c;
    }
  }

  /** text[i..j] is a run of word characters that cannot be made longer. */
  ghost predicate WordAt(text: string, i: int, j: int) {
    && 0 <= i < j <= |text|
    && (forall k :: i <= k < j ==> IsWordChar(text[k]))
    && (i > 0 ==> !IsWordChar(text[i - 1]))
    && (j < |text| ==> !IsWordChar(text[j]))
  }

  /** w is one of the words that count: a whole word of text[..upTo], lower-cased, not a single character. */
  ghost predicate WordOf(text: string, upTo: int, w: string) {
    exists i, j {:trigger WordAt(text, i, j)} ::
      WordAt(text, i, j) && j <= upTo && j - i > 1 && w == ToLower(text[i..j])
  }

  ghost predicate IsWordSet(text: string, upTo: int, ws: set<string>) {
    forall w {:trigger WordOf(text, upTo, w)} {:trigger w in ws} :: w in ws <==> WordOf(text, upTo, w)
  }

  ghost predicate InWord(text: string, start: int, i: int) {
    && 0 <= start < i <= |text|
    && (forall k :: start <= k < i ==> IsWordChar(text[k]))
    && (start > 0 ==> !IsWordChar(text[start - 1]))
  }

  ghost predicate BetweenWords(text: string, i: int) {
    0 <= i <= |text| && (i > 0 ==> !IsWordChar(text[i - 1]))
  }

  lemma WordEndsHere(text: string, start: int, i: int, ws: set<string>)
    requires InWord(text, start, i) && (i < |text| ==> !IsWordChar(text[i]))
    requires IsWordSet(text, i - 1, ws)
    ensures IsWordSet(text, i, if i - start > 1 then ws + {ToLower(text[start..i])} else ws)
  {
    var ws' := if i - start > 1 then ws + {ToLower(text[start..i])} else ws;
    assert WordAt(text, start, i);
    forall w
      ensures w in ws' <==> WordOf(text, i, w)
    {
      if WordOf(text, i, w) {
        var a, b :| WordAt(text, a, b) && b <= i && b - a > 1 && w == ToLower(text[a..b]);
        if b == i {
          SameStart(text, a, start, i);
        } else {
          assert WordOf(text, i - 1, w);
        }
      }
    }
  }

  lemma SameStart(text: string, a: int, b: int, j: int)
    requires WordAt(text, a, j) && WordAt(text, b, j)
    ensures a == b
  {
  }

  lemma NoWordEndsHere(text: string, i: int, ws: set<string>)
    requires 0 <= i <= |text| && IsWordSet(text, i - 1, ws)
    requires forall a {:trigger WordAt(text, a, i)} :: !WordAt(text, a, i)
    ensures IsWordSet(text, i, ws)
  {
    forall w
      ensures w in ws <==> WordOf(text, i, w)
    {
      assert WordOf(text, i, w) <==> WordOf(text, i - 1, w);
    }
  }

  /** The counted words of a text, found in one pass. */
  method WordSet(text: string) returns (ws: set<string>)
    ensures IsWordSet(text, |text|, ws)
  {
    ws := {};
    var start := -1;
    for i := 0 to |text|
      invariant if start < 0 then start == -1 && BetweenWords(text, i) && IsWordSet(text, i, ws)
                else InWord(text, start, i) && IsWordSet(text, i - 1, ws)
    {
      if IsWordChar(text[i]) {
        if start < 0 {
          start := i;
        } else {
          NoWordEndsHere(text, i, ws);
        }
      } else {
        if start >= 0 {
          ws := AddWord(text, start, i, ws);
          start := -1;
        }
        NoWordEndsHere(text, i + 1, ws);
      }
    }
    if start >= 0 {
      ws := AddWord(text, start, |text|, ws);
    }
  }

  /** The end of the word text[start..i]. */
  method AddWord(text: string, start: nat, i: nat, ws: set<string>) returns (ws': set<string>)
    requires InWord(text, start, i) && (i < |text| ==> !IsWordChar(text[i])) && IsWordSet(text, i - 1, ws)
    ensures IsWordSet(text, i, ws')
  {
    WordEndsHere(text, start, i, ws);
    var w := ToLower(text[start..i]);
    ws' := if |w| > 1 then ws + {w} else ws;
  }

  /** The word set as a value. */
  ghost function WordsOf(text: string): set<string> {
    set i, j | 0 <= i < j <= |text| && WordAt(text, i, j) && j - i > 1 :: ToLower(text[i..j])
  }

  lemma WordSetUnique(text: string, ws: set<string>)
    requires IsWordSet(text, |text|, ws)
    ensures ws == WordsOf(text)
  {
    forall w
      ensures w in ws <==> w in WordsOf(text)
    {
      assert w in ws <==> WordOf(text, |text|, w);
    }
  }

  // ---------------------------------------------------------------- similarity

  /** The share of common words among all words of two sets. */
  ghost function Jaccard(a: set<string>, b: set<string>): real {
    if a + b == {} then 0.0 else |a * b| as real / |a + b| as real
  }

  ghost function Similarity(a: string, b: string): real {
    Jaccard(WordsOf(a), WordsOf(b))
  }

  lemma JaccardOf(a: set<string>, b: set<string>, n: nat, union: int)
    requires a != {} && n == |a * b| && union == |a| + |b| - n
    ensures union > 0 && Jaccard(a, b) == n as real / union as real
  {
    assert |a + b| == |a| + |b| - |a * b|;
    assert a + b != {};
  }

  method ContentSimilarity(a: string, b: string) returns (r: real)
    ensures r == Similarity(a, b)
  {
    var wordsA := WordSet(a);
    var wordsB := WordSet(b);
    WordSetUnique(a, wordsA);
    WordSetUnique(b, wordsB);
    if |wordsA| == 0 || |wordsB| == 0 {
      EmptySimilarity(wordsA, wordsB);
      return 0.0;
    }
    var intersection := CountCommon(wordsA, wordsB);
    var union := |wordsA| + |wordsB| - intersection;
    JaccardOf(wordsA, wordsB, intersection, union);
    if union == 0 {
      return 0.0;
    }
    r := intersection as real / union as real;
  }

  method CountCommon(a: set<string>, b: set<string>) returns (n: nat)
    ensures n == |a * b|
  {
    n := 0;
    var todo := a;
    while todo != {}
      invariant todo <= a && n == |(a - todo) * b|
      decreases todo
    {
      var w :| w in todo;
      CommonWithOneMore(a - todo, b, w);
      assert a - (todo - {w}) == (a - todo) + {w};
      if w in b {
        n := n + 1;
      }
      todo := todo - {w};
    }
    assert a - todo == a;
  }

  lemma CommonWithOneMore(a: set<string>, b: set<string>, w: string)
    requires w !in a
    ensures |(a + {w}) * b| == |a * b| + if w in b then 1 else 0
  {
    if w in b {
      assert (a + {w}) * b == (a * b) + {w};
    } else {
      assert (a + {w}) * b == a * b;
    }
  }

  lemma EmptySimilarity(a: set<string>, b: set<string>)
    requires a == {} || b == {}
    ensures Jaccard(a, b) == 0.0
  {
    assert a * b == {};
  }

  /** Similarity is the share of the common words among all words. */
  lemma SimilarityIsShare(a: string, b: string)
    ensures Weighted(Similarity(a, b), |WordsOf(a) + WordsOf(b)| as real) == |WordsOf(a) * WordsOf(b)| as real
  {
    if WordsOf(a) + WordsOf(b) == {} {
      assert WordsOf(a) * WordsOf(b) == {};
    }
  }

  /** Similarity is symmetric, lies between 0 and 1, is 1 exactly for equal word sets with a word in them, and 0
      exactly when no word is common. */
  lemma SimilarityLaws(a: string, b: string)
    ensures Similarity(a, b) == Similarity(b, a)
    ensures 0.0 <= Similarity(a, b) <= 1.0
    ensures Similarity(a, b) == 1.0 <==> WordsOf(a) == WordsOf(b) != {}
    ensures Similarity(a, b) == 0.0 <==> WordsOf(a) * WordsOf(b) == {}
  {
    var x, y := WordsOf(a), WordsOf(b);
    assert x * y == y * x && x + y == y + x;
    if x + y != {} {
      SubsetSize(x * y, x + y);
      Ratio(|x * y|, |x + y|);
      assert x * y == x + y <==> x == y;
    }
  }

  lemma Ratio(n: nat, d: nat)
    requires n <= d && 0 < d
    ensures 0.0 <= n as real / d as real <= 1.0
    ensures n as real / d as real == 1.0 <==> n == d
    ensures n as real / d as real == 0.0 <==> n == 0
  {
    var q := n as real / d as real;
    assert Weighted(q, d as real) == n as real;
    WeightedOrder(q, 1.0, d as real);
    WeightedOrder(1.0, q, d as real);
    WeightedOrder(q, 0.0, d as real);
    WeightedOrder(0.0, q, d as real);
  }

  lemma WeightedOrder(v: real, w: real, x: real)
    requires x > 0.0
    ensures v < w ==> Weighted(v, x) < Weighted(w, x)
  {
  }

  // ---------------------------------------------------------------- the greedy choice

  datatype MemoryEntry = MemoryEntry(content: string, relevance: real)

  const TWO_320 := 18446744073709551616.0 * 18446744073709551616.0 * 18446744073709551616.0
                   * 18446744073709551616.0 * 18446744073709551616.0

  /** The greatest float, (2^53 - 1) * 2^971. */
  const MAX_FLOAT := 9007199254740991.0 * 2048.0 * TWO_320 * TWO_320 * TWO_320

  ghost predicate Indices(n: nat, ps: seq<int>) {
    forall k :: 0 <= k < |ps| ==> 0 <= ps[k] < n
  }

  /** The greatest similarity of text to a picked entry, 0 when nothing is picked. */
  ghost function MaxSim(results: seq<MemoryEntry>, picks: seq<int>, text: string): real
    requires Indices(|results|, picks)
  {
    if picks == [] then 0.0
    else
      var rest := MaxSim(results, picks[..|picks| - 1], text);
      var sim := Similarity(text, results[picks[|picks| - 1]].content);
      if sim > rest then sim else rest
  }

  function Weighted(w: real, x: real): real {
    w * x
  }

  function Mix(weight: real, relevance: real, sim: real): real {
    Weighted(weight, relevance) - Weighted(1.0 - weight, sim)
  }

  ghost function Score(results: seq<MemoryEntry>, weight: real, picks: seq<int>, r: int): real
    requires Indices(|results|, picks) && 0 <= r < |results|
  {
    Mix(weight, results[r].relevance, MaxSim(results, picks, results[r].content))
  }

  lemma MixMeans(weight: real, relevance: real, sim: real)
    ensures Mix(weight, relevance, sim) == weight * relevance - (1.0 - weight) * sim
  {
  }

  /** The score is the weighted relevance less the penalty, which has the rest of the weight. */
  lemma ScoreMeans(results: seq<MemoryEntry>, weight: real, picks: seq<int>, r: int, relevance: real, penalty: real)
    requires Indices(|results|, picks) && 0 <= r < |results|
    requires relevance == results[r].relevance && penalty == MaxSim(results, picks, results[r].content)
    ensures Score(results, weight, picks, r) == weight * relevance - (1.0 - weight) * penalty
  {
    MixMeans(weight, relevance, penalty);
  }

  /** best has the greatest score among the entries not picked yet, and is the earliest that has it. */
  ghost predicate BestPick(results: seq<MemoryEntry>, weight: real, picks: seq<int>, best: int)
    requires Indices(|results|, picks)
  {
    && 0 <= best < |results| && best !in picks && Score(results, weight, picks, best) > -MAX_FLOAT
    && forall r {:trigger Score(results, weight, picks, r)} :: 0 <= r < |results| && r !in picks && r != best ==>
         if r < best then Score(results, weight, picks, r) < Score(results, weight, picks, best)
         else Score(results, weight, picks, r) <= Score(results, weight, picks, best)
  }

  /** No entry left has a score above the least float. */
  ghost predicate NoPick(results: seq<MemoryEntry>, weight: real, picks: seq<int>)
    requires Indices(|results|, picks)
  {
    forall r {:trigger Score(results, weight, picks, r)} ::
      0 <= r < |results| && r !in picks ==> Score(results, weight, picks, r) <= -MAX_FLOAT
  }

  /** The picks start with the first entry and are the best choices one after another. */
  ghost predicate Greedy(results: seq<MemoryEntry>, weight: real, picks: seq<int>) {
    && Indices(|results|, picks) && picks != [] && picks[0] == 0
    && forall k {:trigger picks[k]} :: 1 <= k < |picks| ==> BestPick(results, weight, picks[..k], picks[k])
  }

  function Entries(results: seq<MemoryEntry>, picks: seq<int>): (es: seq<MemoryEntry>)
    requires forall k :: 0 <= k < |picks| ==> 0 <= picks[k] < |results|
    ensures |es| == |picks|
  {
    seq(|picks|, k requires 0 <= k < |picks| => results[picks[k]])
  }

  // ---------------------------------------------------------------- the loops

  ghost predicate Increasing(s: seq<int>) {
    forall i, j :: 0 <= i < j < |s| ==> s[i] < s[j]
  }

  /** Drops the first occurrence and keeps the order of the rest. */
  method RemoveVal(s: seq<int>, val: int) returns (r: seq<int>)
    ensures val !in s ==> r == s
    ensures val in s ==> exists i :: FirstAt(s, val, i) && r == s[..i] + s[i + 1..]
  {
    for i := 0 to |s|
      invariant val !in s[..i]
    {
      if s[i] == val {
        assert FirstAt(s, val, i);
        return s[..i] + s[i + 1..];
      }
    }
    r := s;
  }

  predicate FirstAt(s: seq<int>, val: int, i: int) {
    0 <= i < |s| && s[i] == val && val !in s[..i]
  }

  lemma RemovedAt(s: seq<int>, i: nat)
    requires Increasing(s) && i < |s|
    ensures Increasing(s[..i] + s[i + 1..])
    ensures forall x :: x in s[..i] + s[i + 1..] <==> x in s && x != s[i]
  {
    var r := s[..i] + s[i + 1..];
    forall x
      ensures x in r <==> x in s && x != s[i]
    {
      if x in s && x != s[i] {
        var k :| 0 <= k < |s| && s[k] == x;
        assert k < i ==> r[k] == x;
        assert k > i ==> r[k - 1] == x;
      }
    }
  }

  /** On the list of entries left, removal leaves the list of entries left after one more pick. */
  lemma RemovedIsLeft(n: nat, picks: seq<int>, remaining: seq<int>, best: int, after: seq<int>)
    requires Left(n, picks, remaining) && best in remaining
    requires exists i :: FirstAt(remaining, best, i) && after == remaining[..i] + remaining[i + 1..]
    ensures Left(n, picks + [best], after) && |after| == |remaining| - 1
  {
    var i :| FirstAt(remaining, best, i) && after == remaining[..i] + remaining[i + 1..];
    RemovedAt(remaining, i);
    forall r
      ensures r in after <==> 0 <= r < n && r !in picks + [best]
    {
      assert r in after <==> r in remaining && r != best;
    }
  }

  /** remaining lists the entries not picked yet, in order. */
  ghost predicate Left(n: nat, picks: seq<int>, remaining: seq<int>) {
    Increasing(remaining) && forall r :: r in remaining <==> 0 <= r < n && r !in picks
  }

  /** The greatest similarity of a candidate to the picked entries. */
  method MaxSimilarity(ghost results: seq<MemoryEntry>, ghost picks: seq<int>, selected: seq<MemoryEntry>, text: string)
    returns (maxSim: real)
    requires Indices(|results|, picks) && selected == Entries(results, picks)
    ensures maxSim == MaxSim(results, picks, text)
  {
    maxSim := 0.0;
    for k := 0 to |selected|
      invariant maxSim == MaxSim(results, picks[..k], text)
    {
      var sim := ContentSimilarity(text, selected[k].content);
      assert picks[..k + 1][..k] == picks[..k];
      if sim > maxSim {
        maxSim := sim;
      }
    }
    assert picks[..|selected|] == picks;
  }

  /** bestIdx is the earliest of the greatest scores seen so far, -1 when none was above the least float. */
  ghost predicate BestSoFar(seen: seq<int>, scores: seq<real>, bestIdx: int, bestScore: real)
    requires |scores| == |seen|
  {
    && (if bestIdx < 0 then bestIdx == -1 && bestScore == -MAX_FLOAT
        else bestScore > -MAX_FLOAT && exists p :: 0 <= p < |seen| && seen[p] == bestIdx && scores[p] == bestScore)
    && forall k :: 0 <= k < |seen| ==> scores[k] <= bestScore && (seen[k] < bestIdx ==> scores[k] < bestScore)
  }

  /** The scores of the entries in seen. */
  ghost predicate AreScores(results: seq<MemoryEntry>, weight: real, picks: seq<int>, seen: seq<int>, scores: seq<real>)
    requires Indices(|results|, picks) && Indices(|results|, seen)
  {
    |scores| == |seen| && forall k :: 0 <= k < |seen| ==> scores[k] == Score(results, weight, picks, seen[k])
  }

  /** One round over the remaining entries. */
  method PickBest(results: seq<MemoryEntry>, weight: real, ghost picks: seq<int>, selected: seq<MemoryEntry>,
                  remaining: seq<int>) returns (bestIdx: int)
    requires Indices(|results|, picks) && selected == Entries(results, picks) && Left(|results|, picks, remaining)
    ensures if bestIdx < 0 then NoPick(results, weight, picks) else BestPick(results, weight, picks, bestIdx)
  {
    bestIdx := -1;
    var bestScore := -MAX_FLOAT;
    ghost var scores := [];
    forall k | 0 <= k < |remaining|
      ensures 0 <= remaining[k] < |results|
    {
      assert remaining[k] in remaining;
    }
    for k := 0 to |remaining|
      invariant AreScores(results, weight, picks, remaining[..k], scores)
      invariant BestSoFar(remaining[..k], scores, bestIdx, bestScore)
    {
      var ri := remaining[k];
      var score := ScoreOf(results, weight, picks, selected, ri);
      OneFurther(remaining, k);
      ScoresGrow(results, weight, picks, remaining[..k], scores, ri, score);
      SeeOneMore(remaining[..k], scores, bestIdx, bestScore, ri, score);
      scores := scores + [score];
      if score > bestScore {
        bestScore := score;
        bestIdx := ri;
      }
    }
    assert remaining[..|remaining|] == remaining;
    SeenAll(results, weight, picks, remaining, scores, bestIdx, bestScore);
  }

  method ScoreOf(results: seq<MemoryEntry>, weight: real, ghost picks: seq<int>, selected: seq<MemoryEntry>, ri: int)
    returns (score: real)
    requires Indices(|results|, picks) && selected == Entries(results, picks) && 0 <= ri < |results|
    ensures score == Score(results, weight, picks, ri)
  {
    var candidate := results[ri];
    var maxSim := MaxSimilarity(results, picks, selected, candidate.content);
    score := Mix(weight, candidate.relevance, maxSim);
  }

  lemma OneFurther(s: seq<int>, k: nat)
    requires k < |s|
    ensures s[..k + 1] == s[..k] + [s[k]]
  {
  }

  lemma ScoresGrow(results: seq<MemoryEntry>, weight: real, picks: seq<int>, seen: seq<int>, scores: seq<real>,
                   next: int, score: real)
    requires Indices(|results|, picks) && Indices(|results|, seen) && AreScores(results, weight, picks, seen, scores)
    requires 0 <= next < |results| && score == Score(results, weight, picks, next)
    ensures Indices(|results|, seen + [next]) && AreScores(results, weight, picks, seen + [next], scores + [score])
  {
  }

  lemma SeeOneMore(seen: seq<int>, scores: seq<real>, bestIdx: int, bestScore: real, next: int, score: real)
    requires |scores| == |seen| && BestSoFar(seen, scores, bestIdx, bestScore)
    requires next >= 0 && forall k :: 0 <= k < |seen| ==> seen[k] < next
    ensures if score > bestScore then BestSoFar(seen + [next], scores + [score], next, score)
            else BestSoFar(seen + [next], scores + [score], bestIdx, bestScore)
  {
    var seen', scores' := seen + [next], scores + [score];
    assert seen'[|seen|] == next && scores'[|seen|] == score;
    if bestIdx >= 0 {
      var p :| 0 <= p < |seen| && seen[p] == bestIdx && scores[p] == bestScore;
      assert seen'[p] == bestIdx && scores'[p] == bestScore;
    }
    forall k | 0 <= k < |seen'|
      ensures scores'[k] <= bestScore || scores'[k] <= score
      ensures k < |seen| ==> seen'[k] == seen[k] && scores'[k] == scores[k]
    {
    }
  }

  lemma SeenAll(results: seq<MemoryEntry>, weight: real, picks: seq<int>, remaining: seq<int>, scores: seq<real>,
                bestIdx: int, bestScore: real)
    requires Indices(|results|, picks) && Left(|results|, picks, remaining) && Indices(|results|, remaining)
    requires AreScores(results, weight, picks, remaining, scores) && BestSoFar(remaining, scores, bestIdx, bestScore)
    ensures if bestIdx < 0 then NoPick(results, weight, picks) else BestPick(results, weight, picks, bestIdx)
  {
    forall r | 0 <= r < |results| && r !in picks
      ensures Score(results, weight, picks, r) <= bestScore
      ensures r < bestIdx ==> Score(results, weight, picks, r) < bestScore
    {
      var k :| 0 <= k < |remaining| && remaining[k] == r;
    }
    if bestIdx >= 0 {
      var p :| 0 <= p < |remaining| && remaining[p] == bestIdx && scores[p] == bestScore;
      assert bestIdx in remaining;
    }
  }

  lemma OneMorePick(results: seq<MemoryEntry>, weight: real, picks: seq<int>, best: int)
    requires Greedy(results, weight, picks) && BestPick(results, weight, picks, best)
    ensures Greedy(results, weight, picks + [best])
    ensures Entries(results, picks + [best]) == Entries(results, picks) + [results[best]]
  {
    forall k | 1 <= k < |picks + [best]|
      ensures BestPick(results, weight, (picks + [best])[..k], (picks + [best])[k])
    {
      FrontOfLonger(picks, best, k);
    }
    EntriesGrow(results, picks, best);
  }

  lemma FrontOfLonger(picks: seq<int>, best: int, k: nat)
    requires k <= |picks|
    ensures (picks + [best])[..k] == picks[..k] && (k == |picks| ==> picks[..k] == picks)
    ensures (picks + [best])[k] == if k == |picks| then best else picks[k]
  {
  }

  lemma EntriesGrow(results: seq<MemoryEntry>, picks: seq<int>, best: int)
    requires Indices(|results|, picks) && 0 <= best < |results|
    ensures Indices(|results|, picks + [best])
    ensures Entries(results, picks + [best]) == Entries(results, picks) + [results[best]]
  {
  }

  /** picks says which entries were chosen, in order. */
  method Rerank(results: seq<MemoryEntry>, weight: real, maxResults: int)
    returns (selected: seq<MemoryEntry>, ghost picks: seq<int>)
    ensures |results| <= 1 || maxResults <= 0 ==> selected == results
    ensures |results| > 1 && maxResults > 0 ==>
      && Greedy(results, weight, picks) && selected == Entries(results, picks)
      && |selected| <= maxResults && |selected| <= |results|
      && (|selected| < maxResults && |selected| < |results| ==> NoPick(results, weight, picks))
      && (Fills(results, weight) ==> |selected| == if maxResults < |results| then maxResults else |results|)
  {
    picks := [];
    if |results| <= 1 || maxResults <= 0 {
      return results, picks;
    }
    var limit := if maxResults > |results| then |results| else maxResults;
    var remaining := seq(|results| - 1, i => i + 1);
    selected, picks := [results[0]], [0];
    StartLeft(|results|, remaining);
    while |selected| < limit && |remaining| > 0
      invariant Greedy(results, weight, picks) && selected == Entries(results, picks) && |selected| <= limit
      invariant Left(|results|, picks, remaining) && |remaining| == |results| - |picks|
      decreases |remaining|
    {
      var bestIdx := PickBest(results, weight, picks, selected, remaining);
      if bestIdx < 0 {
        break;
      }
      OneMorePick(results, weight, picks, bestIdx);
      var after := RemoveVal(remaining, bestIdx);
      RemovedIsLeft(|results|, picks, remaining, bestIdx, after);
      selected, picks, remaining := selected + [results[bestIdx]], picks + [bestIdx], after;
    }
    if Fills(results, weight) && NoPick(results, weight, picks) {
      RankingIsFull(results, weight, picks);
    }
  }

  lemma StartLeft(n: nat, remaining: seq<int>)
    requires n > 1 && remaining == seq(n - 1, i => i + 1)
    ensures Left(n, [0], remaining)
  {
    forall r
      ensures r in remaining <==> 0 <= r < n && r !in [0]
    {
      assert 0 < r < n ==> remaining[r - 1] == r;
    }
  }

  // ---------------------------------------------------------------- what the choice means

  /** The positions picked are pairwise distinct. */
  lemma PicksAreDistinct(results: seq<MemoryEntry>, weight: real, picks: seq<int>, i: nat, j: nat)
    requires Greedy(results, weight, picks) && i < j < |picks|
    ensures picks[i] != picks[j]
  {
    assert BestPick(results, weight, picks[..j], picks[j]);
    assert picks[..j][i] == picks[i];
  }

  lemma BestPickUnique(results: seq<MemoryEntry>, weight: real, picks: seq<int>, a: int, b: int)
    requires Indices(|results|, picks) && BestPick(results, weight, picks, a) && BestPick(results, weight, picks, b)
    ensures a == b
  {
    var x, y := Score(results, weight, picks, a), Score(results, weight, picks, b);
  }

  /** The input alone decides the ranking: two greedy rankings agree as far as both go. */
  lemma {:induction false} GreedyUnique(results: seq<MemoryEntry>, weight: real, p: seq<int>, q: seq<int>, n: nat)
    requires Greedy(results, weight, p) && Greedy(results, weight, q) && n <= |p| && n <= |q|
    ensures p[..n] == q[..n]
  {
    if n > 0 {
      GreedyUnique(results, weight, p, q, n - 1);
      if n > 1 {
        assert BestPick(results, weight, p[..n - 1], p[n - 1]) && BestPick(results, weight, q[..n - 1], q[n - 1]);
        BestPickUnique(results, weight, p[..n - 1], p[n - 1], q[n - 1]);
      }
      assert p[..n] == p[..n - 1] + [p[n - 1]] && q[..n] == q[..n - 1] + [q[n - 1]];
    }
  }

  lemma {:induction false} MaxSimRange(results: seq<MemoryEntry>, picks: seq<int>, text: string)
    requires Indices(|results|, picks)
    ensures 0.0 <= MaxSim(results, picks, text) <= 1.0
  {
    if picks != [] {
      var n := |picks| - 1;
      MaxSimRange(results, picks[..n], text);
      SimilarityLaws(text, results[picks[n]].content);
    }
  }

  lemma {:induction false} MaxSimIsUpperBound(results: seq<MemoryEntry>, picks: seq<int>, text: string, k: nat)
    requires Indices(|results|, picks) && k < |picks|
    ensures Similarity(text, results[picks[k]].content) <= MaxSim(results, picks, text)
    decreases |picks|
  {
    if k < |picks| - 1 {
      MaxSimIsUpperBound(results, picks[..|picks| - 1], text, k);
    }
  }

  lemma {:induction false} MaxSimIsReached(results: seq<MemoryEntry>, picks: seq<int>, text: string) returns (k: nat)
    requires Indices(|results|, picks) && picks != []
    ensures k < |picks| && Similarity(text, results[picks[k]].content) == MaxSim(results, picks, text)
    decreases |picks|
  {
    k := |picks| - 1;
    SimilarityLaws(text, results[picks[k]].content);
    var sim := Similarity(text, results[picks[k]].content);
    if k > 0 && sim <= MaxSim(results, picks[..k], text) {
      k := MaxSimIsReached(results, picks[..k], text);
    }
  }

  lemma WeightedSplit(w: real, x: real)
    ensures Weighted(w, x) + Weighted(1.0 - w, x) == x
  {
  }

  lemma WeightedUp(w: real, x: real, y: real)
    requires 0.0 <= w && x <= y
    ensures Weighted(w, x) <= Weighted(w, y)
  {
  }

  lemma PenaltySmall(v: real, sim: real)
    requires v > 0.0 && 0.0 <= sim <= 1.0
    ensures Weighted(v, sim) < -Weighted(v, -MAX_FLOAT)
  {
    WeightedUp(v, sim, 1.0);
    WeightedGrows(v, 1.0, MAX_FLOAT);
    assert Weighted(v, -MAX_FLOAT) == -Weighted(v, MAX_FLOAT);
  }

  /** For a weight between 0 and 1 and a relevance that is a float, the score is above the least float unless all the
      weight is on a relevance that is the least float itself. */
  lemma MixAboveLeast(weight: real, relevance: real, sim: real)
    requires 0.0 <= weight <= 1.0 && relevance >= -MAX_FLOAT && 0.0 <= sim <= 1.0
    ensures Mix(weight, relevance, sim) > -MAX_FLOAT <==> weight < 1.0 || relevance > -MAX_FLOAT
  {
    if weight < 1.0 {
      WeightedSplit(weight, -MAX_FLOAT);
      WeightedUp(weight, -MAX_FLOAT, relevance);
      PenaltySmall(1.0 - weight, sim);
    } else {
      PureRelevance(relevance, sim);
    }
  }

  lemma ScoreAboveLeast(results: seq<MemoryEntry>, weight: real, picks: seq<int>, r: int)
    requires 0.0 <= weight <= 1.0 && Indices(|results|, picks) && 0 <= r < |results|
            && results[r].relevance >= -MAX_FLOAT
    ensures Score(results, weight, picks, r) > -MAX_FLOAT <==> weight < 1.0 || results[r].relevance > -MAX_FLOAT
  {
    MaxSimRange(results, picks, results[r].content);
    MixAboveLeast(weight, results[r].relevance, MaxSim(results, picks, results[r].content));
  }

  /** The weight lies between 0 and 1, the relevances are floats, and not all the weight is on a least float. */
  ghost predicate Fills(results: seq<MemoryEntry>, weight: real) {
    && 0.0 <= weight <= 1.0
    && forall k :: 0 <= k < |results| ==>
         results[k].relevance >= -MAX_FLOAT && (weight < 1.0 || results[k].relevance > -MAX_FLOAT)
  }

  /** Selection stops before the limit if and only if all the weight is on relevance and every entry left has the
      least relevance there is. */
  lemma StopsEarlyIff(results: seq<MemoryEntry>, weight: real, picks: seq<int>)
    requires 0.0 <= weight <= 1.0 && Indices(|results|, picks)
    requires forall k :: 0 <= k < |results| ==> results[k].relevance >= -MAX_FLOAT
    requires exists r :: 0 <= r < |results| && r !in picks
    ensures NoPick(results, weight, picks) <==>
            weight == 1.0 && forall r :: 0 <= r < |results| && r !in picks ==> results[r].relevance == -MAX_FLOAT
  {
    forall r | 0 <= r < |results|
      ensures Score(results, weight, picks, r) > -MAX_FLOAT <==> weight < 1.0 || results[r].relevance > -MAX_FLOAT
    {
      ScoreAboveLeast(results, weight, picks, r);
    }
    var r :| 0 <= r < |results| && r !in picks;
    assert NoPick(results, weight, picks) ==> Score(results, weight, picks, r) <= -MAX_FLOAT;
  }

  function FirstNumbers(n: nat): (r: set<int>)
    ensures |r| == n && forall i :: i in r <==> 0 <= i < n
  {
    if n == 0 then {} else FirstNumbers(n - 1) + {n - 1}
  }

  function Members(s: seq<int>): (r: set<int>)
    ensures |r| <= |s| && forall x :: x in r <==> x in s
  {
    if s == [] then {} else Members(s[..|s| - 1]) + {s[|s| - 1]}
  }

  /** A ranking that fills up to the limit does not stop before every entry is picked. */
  lemma RankingIsFull(results: seq<MemoryEntry>, weight: real, picks: seq<int>)
    requires Fills(results, weight) && Greedy(results, weight, picks) && NoPick(results, weight, picks)
    ensures |picks| >= |results|
  {
    forall r | 0 <= r < |results|
      ensures r in picks
    {
      ScoreAboveLeast(results, weight, picks, r);
    }
    SubsetSize(FirstNumbers(|results|), Members(picks));
  }

  ghost predicate SortedByRelevance(results: seq<MemoryEntry>) {
    forall i, j :: 0 <= i <= j < |results| ==> results[i].relevance >= results[j].relevance
  }

  lemma PureRelevance(relevance: real, sim: real)
    ensures Mix(1.0, relevance, sim) == relevance
  {
  }

  ghost predicate InOrder(picks: seq<int>, n: nat)
    requires n <= |picks|
  {
    forall k :: 0 <= k < n ==> picks[k] == k
  }

  lemma {:induction false} PositionsInOrder(picks: seq<int>, n: nat)
    requires n <= |picks| && (picks == [] || picks[0] == 0)
    requires forall k: nat {:trigger InOrder(picks, k)} :: 1 <= k < |picks| && InOrder(picks, k) ==> picks[k] == k
    ensures InOrder(picks, n)
  {
    if n > 0 {
      PositionsInOrder(picks, n - 1);
    }
  }

  /** With full weight on relevance, a sorted input is returned from the front, unchanged. */
  lemma PureRelevanceKeepsOrder(results: seq<MemoryEntry>, picks: seq<int>)
    requires SortedByRelevance(results) && Greedy(results, 1.0, picks)
    ensures |picks| <= |results| && Entries(results, picks) == results[..|picks|]
  {
    forall k: nat | 1 <= k < |picks| && InOrder(picks, k)
      ensures picks[k] == k
    {
      FrontIsBest(results, picks, k);
    }
    PositionsInOrder(picks, |picks|);
    assert picks[|picks| - 1] == |picks| - 1;
  }

  lemma FrontIsBest(results: seq<MemoryEntry>, picks: seq<int>, k: nat)
    requires SortedByRelevance(results) && Greedy(results, 1.0, picks) && 1 <= k < |picks|
    requires forall i :: 0 <= i < k ==> picks[i] == i
    ensures picks[k] == k
  {
    var front, best := picks[..k], picks[k];
    assert BestPick(results, 1.0, front, best);
    forall i | 0 <= i < k
      ensures i in front
    {
      assert front[i] == i;
    }
    PureRelevance(results[best].relevance, MaxSim(results, front, results[best].content));
    PureRelevance(results[k].relevance, MaxSim(results, front, results[k].content));
    assert k !in front;
    assert Score(results, 1.0, front, k) <= Score(results, 1.0, front, best);
  }

  lemma WeightedGrows(w: real, x: real, y: real)
    requires w > 0.0 && x < y
    ensures Weighted(w, x) < Weighted(w, y)
  {
  }

  lemma MixOrder(weight: real, relevance: real, x: real, y: real)
    requires weight < 1.0 && Mix(weight, relevance, x) <= Mix(weight, relevance, y)
    ensures y <= x
  {
    if y > x {
      WeightedGrows(1.0 - weight, x, y);
    }
  }

  /** Among equally relevant entries the pick is the one least similar to what was picked before. */
  lemma DiversityBreaksTies(results: seq<MemoryEntry>, weight: real, picks: seq<int>, k: nat, r: int)
    requires weight < 1.0 && Greedy(results, weight, picks) && 1 <= k < |picks|
    requires 0 <= r < |results| && r !in picks[..k] && results[r].relevance == results[picks[k]].relevance
    ensures MaxSim(results, picks[..k], results[picks[k]].content) <= MaxSim(results, picks[..k], results[r].content)
  {
    var front, best := picks[..k], picks[k];
    assert BestPick(results, weight, front, best);
    assert Score(results, weight, front, r) <= Score(results, weight, front, best);
    MixOrder(weight, results[r].relevance, MaxSim(results, front, results[r].content),
             MaxSim(results, front, results[best].content));
  }
}
