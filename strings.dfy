/** Searching text for a separator character. */
module Strings {

  /** The position of the first `c` in `s`, or |s| when there is none. */
  function FirstIndex(s: string, c: char): (k: nat)
    ensures k <= |s|
    ensures k < |s| ==> s[k] == c
    ensures forall i :: 0 <= i < k ==> s[i] != c
  {
    if s == [] || s[0] == c then 0 else 1 + FirstIndex(s[1..], c)
  }

  /** The first `c` in `a + [c] + b` is the one after `a`, when `a` has none. */
  lemma FirstIndexOfSeparator(a: string, c: char, b: string)
    requires c !in a
    ensures FirstIndex(a + [c] + b, c) == |a|
  {
    var s := a + [c] + b;
    assert s[|a|] == c;
    assert forall i :: 0 <= i < |a| ==> s[i] == a[i];
  }
}
