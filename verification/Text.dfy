/** Searching byte strings. */
module Text {
  /** sep occurs in s at position i. */
  predicate At(s: string, sep: string, i: int) {
    0 <= i <= |s| - |sep| && s[i..i + |sep|] == sep
  }

  /** Occurrences inside a window are the occurrences of the whole at shifted positions. */
  lemma AtWindow(s: string, a: nat, b: nat, sep: string)
    requires a <= b <= |s|
    ensures forall i :: 0 <= i <= b - a - |sep| ==> (At(s[a..b], sep, i) <==> At(s, sep, a + i))
  {
    forall i | 0 <= i <= b - a - |sep|
      ensures At(s[a..b], sep, i) <==> At(s, sep, a + i)
    {
      var inner, outer := s[a..b][i..i + |sep|], s[a + i..a + i + |sep|];
      assert forall k :: 0 <= k < |sep| ==> inner[k] == outer[k];
      assert inner == outer;
    }
  }

  lemma AtPair(s: string, x: char, y: char, i: int)
    ensures At(s, [x, y], i) <==> 0 <= i <= |s| - 2 && s[i] == x && s[i + 1] == y
  {
    if 0 <= i <= |s| - 2 {
      assert s[i..i + 2] == [s[i], s[i + 1]];
    }
  }

  /** Occurrences that do not start s are occurrences in the rest. */
  lemma AtTail(s: string, sep: string)
    requires sep != "" && |sep| <= |s| && s[..|sep|] != sep
    ensures forall i {:trigger At(s, sep, i)} :: At(s, sep, i) <==> At(s[1..], sep, i - 1)
  {
    AtWindow(s, 1, |s|, sep);
    assert s[1..|s|] == s[1..];
    forall i
      ensures At(s, sep, i) <==> At(s[1..], sep, i - 1)
    {
      if 1 <= i <= |s| - |sep| {
        assert At(s[1..|s|], sep, i - 1) <==> At(s, sep, 1 + (i - 1));
      } else if i == 0 {
        assert s[0..0 + |sep|] == s[..|sep|];
      }
    }
  }

  /** Occurrences that do not end s are occurrences in the front. */
  lemma AtFront(s: string, sep: string)
    requires sep != "" && |sep| <= |s| && s[|s| - |sep|..] != sep
    ensures forall i {:trigger At(s, sep, i)} :: At(s, sep, i) <==> At(s[..|s| - 1], sep, i)
  {
    var init := |s| - 1;
    AtWindow(s, 0, init, sep);
    assert s[0..init] == s[..init];
    forall i
      ensures At(s, sep, i) <==> At(s[..init], sep, i)
    {
      if 0 <= i <= init - |sep| {
        assert At(s[0..init], sep, i) <==> At(s, sep, 0 + i);
      } else if i == |s| - |sep| {
        assert s[i..i + |sep|] == s[i..];
      }
    }
  }

  /** Position of the first occurrence of sep in s, or -1. */
  function Index(s: string, sep: string): (r: int)
    requires sep != ""
    ensures r == -1 || At(s, sep, r)
    ensures -1 <= r && (r >= 0 ==> r + |sep| <= |s|)
    ensures forall i :: At(s, sep, i) ==> 0 <= r <= i
  {
    if |s| < |sep| then -1
    else if s[..|sep|] == sep then 0
    else
      var tail := Index(s[1..], sep);
      AtTail(s, sep);
      if tail < 0 then -1
      else
        assert At(s, sep, tail + 1);
        tail + 1
  }

  /** Position of the last occurrence of sep in s, or -1. */
  function LastIndex(s: string, sep: string): (r: int)
    requires sep != ""
    ensures r == -1 || At(s, sep, r)
    ensures -1 <= r && (r >= 0 ==> r + |sep| <= |s|)
    ensures forall i :: At(s, sep, i) ==> i <= r
  {
    if |s| < |sep| then -1
    else if s[|s| - |sep|..] == sep then |s| - |sep|
    else
      var init := |s| - 1;
      AtFront(s, sep);
      LastIndex(s[..init], sep)
  }
}
