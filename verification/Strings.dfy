/** Splitting strings at their last separator. */
module Strings {

  predicate Free(s: string, c: char) {
    c !in s
  }

  /** `rfind`: the last index of a character, or -1. */
  function RFind(s: string, c: char): (i: int)
    ensures -1 <= i < |s|
    ensures i >= 0 ==> s[i] == c
    ensures forall k :: i < k < |s| ==> s[k] != c
  {
    if s == [] then -1
    else if s[|s| - 1] == c then |s| - 1
    else RFind(s[..|s| - 1], c)
  }

  lemma RFindIs(s: string, c: char, i: nat)
    requires i < |s| && s[i] == c && forall k :: i < k < |s| ==> s[k] != c
    ensures RFind(s, c) == i
  {
    var j := RFind(s, c);
    assert j >= i;
  }

  lemma SplitBack(a: string, c: char, b: string)
    ensures var s := a + [c] + b; |a| < |s| && s[|a|] == c && s[..|a|] == a && s[|a| + 1..] == b
  {
  }

  lemma RFindSplits(a: string, c: char, b: string)
    requires Free(b, c)
    ensures var s := a + [c] + b; RFind(s, c) == |a| && s[..|a|] == a && s[|a| + 1..] == b
  {
    var s := a + [c] + b;
    SplitBack(a, c, b);
    forall k | |a| < k < |s|
      ensures s[k] != c
    {
      assert s[k] == s[|a| + 1..][k - |a| - 1];
    }
    RFindIs(s, c, |a|);
  }

  /** A string splits at its last separator in one way only. */
  lemma SplitUnique(a: string, b: string, c: char, a': string, b': string)
    requires Free(b, c) && Free(b', c) && a + [c] + b == a' + [c] + b'
    ensures a == a' && b == b'
  {
    RFindSplits(a, c, b);
    RFindSplits(a', c, b');
  }
}
