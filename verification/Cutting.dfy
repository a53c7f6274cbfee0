/** Cutting a string at the first occurrence of a separator. */
module Cutting {
  /** The position of the first `c`, or the length. */
  function IndexOf(s: string, c: char): (i: nat)
    ensures i <= |s|
    ensures i < |s| ==> s[i] == c
    ensures forall j :: 0 <= j < i ==> s[j] != c
  {
    if s == "" || s[0] == c then 0 else 1 + IndexOf(s[1..], c)
  }

  lemma CutAt(a: string, c: char, b: string)
    requires forall i :: 0 <= i < |a| ==> a[i] != c
    ensures var s := a + [c] + b;
      IndexOf(s, c) == |a| && s[..|a|] == a && s[|a| + 1..] == b
    ensures IndexOf(a, c) == |a|
  {
    var s := a + [c] + b;
    assert forall j :: 0 <= j < |a| ==> s[j] == a[j];
    assert s[|a|] == c;
  }
}
