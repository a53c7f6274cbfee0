/**
 Sorting of slope lists and the medians taken of them.

 `Sorted` stands for the library sort of a float slice; `SortSlice` is the engine's own
 in-place insertion sort, proved to compute the same sequence.
 */
module Medians {
  import opened Sequences

  ghost predicate Ascending(s: seq<real>) {
    forall i, j :: 0 <= i < j < |s| ==> s[i] <= s[j]
  }

  function Insert(x: real, s: seq<real>): seq<real> {
    if s == [] || x <= s[0] then [x] + s else [s[0]] + Insert(x, s[1..])
  }

  function Sorted(s: seq<real>): seq<real> {
    if s == [] then [] else Insert(s[0], Sorted(s[1..]))
  }

  lemma {:induction false} InsertElements(x: real, s: seq<real>)
    ensures multiset(Insert(x, s)) == multiset([x] + s)
    ensures |Insert(x, s)| == |s| + 1
  {
    if s == [] || x <= s[0] {
    } else {
      InsertElements(x, s[1..]);
      assert s == [s[0]] + s[1..];
    }
  }

  lemma {:induction false} InsertKeepsOrder(x: real, s: seq<real>)
    requires Ascending(s)
    ensures Ascending(Insert(x, s))
  {
    if s == [] || x <= s[0] {
    } else {
      InsertKeepsOrder(x, s[1..]);
      var t := Insert(x, s[1..]);
      assert t[0] == x || t[0] == s[1];
      forall j | 0 <= j < |t| ensures s[0] <= t[j] {
        assert t[0] <= t[j];
      }
    }
  }

  lemma {:induction false} SortedSorts(s: seq<real>)
    ensures Ascending(Sorted(s))
    ensures multiset(Sorted(s)) == multiset(s)
    ensures |Sorted(s)| == |s|
  {
    if s == [] {
    } else {
      SortedSorts(s[1..]);
      InsertKeepsOrder(s[0], Sorted(s[1..]));
      InsertElements(s[0], Sorted(s[1..]));
      assert s == [s[0]] + s[1..];
    }
  }

  lemma SameFirst(a: seq<real>, b: seq<real>)
    requires Ascending(a) && Ascending(b) && a != [] && b != []
    requires multiset(a) == multiset(b)
    ensures a[0] == b[0]
  {
    assert a[0] in multiset(b) && b[0] in multiset(a);
    var i :| 0 <= i < |b| && b[i] == a[0];
    var j :| 0 <= j < |a| && a[j] == b[0];
    assert b[0] <= b[i] && a[0] <= a[j];
  }

  /** An ascending sequence is determined by its elements. */
  lemma {:induction false} AscendingUnique(a: seq<real>, b: seq<real>)
    requires Ascending(a) && Ascending(b)
    requires multiset(a) == multiset(b)
    ensures a == b
  {
    assert |a| == |multiset(a)| == |multiset(b)| == |b|;
    if a == [] {
    } else {
      SameFirst(a, b);
      TailElements(a);
      TailElements(b);
      AscendingUnique(a[1..], b[1..]);
      assert a == [a[0]] + a[1..] == [b[0]] + b[1..] == b;
    }
  }

  function Swapped(s: seq<real>, j: nat): seq<real>
    requires 0 < j < |s|
  {
    s[j := s[j - 1]][j - 1 := s[j]]
  }

  lemma SwapKeepsElements(s: seq<real>, j: nat)
    requires 0 < j < |s|
    ensures multiset(Swapped(s, j)) == multiset(s)
  {
  }

  /** The first `n` elements are ascending, but for the one at `j` not yet being in place. */
  ghost predicate AscendingBut(s: seq<real>, n: nat, j: nat)
    requires n <= |s|
  {
    forall p, q :: 0 <= p < q < n && q != j ==> s[p] <= s[q]
  }

  lemma SwapKeepsAscending(s: seq<real>, n: nat, j: nat)
    requires 0 < j < n <= |s|
    requires AscendingBut(s, n, j) && s[j] < s[j - 1]
    ensures AscendingBut(Swapped(s, j), n, j - 1)
  {
  }

  /** Element `i` of `was` has sunk to `j`; nothing after it has moved. */
  ghost predicate Sinking(was: seq<real>, s: seq<real>, i: nat, j: nat) {
    && i < |s| == |was|
    && AscendingBut(s, i + 1, j)
    && s[i + 1..] == was[i + 1..]
    && multiset(s) == multiset(was)
  }

  lemma SwapKeepsSinking(was: seq<real>, s: seq<real>, i: nat, j: nat)
    requires 0 < j <= i && Sinking(was, s, i, j) && s[j] < s[j - 1]
    ensures Sinking(was, Swapped(s, j), i, j - 1)
  {
    SwapKeepsElements(s, j);
    SwapKeepsAscending(s, i + 1, j);
  }

  /** The inner loop: element `i` sinks to its place among the ascending elements before it. */
  method Sink(s: array<real>, i: nat)
    requires i < s.Length && AscendingBut(s[..], i + 1, i)
    modifies s
    ensures AscendingBut(s[..], i + 1, 0)
    ensures s[i + 1..] == old(s[i + 1..])
    ensures multiset(s[..]) == multiset(old(s[..]))
  {
    var j := i;
    while j > 0 && s[j] < s[j - 1]
      invariant 0 <= j <= i
      invariant Sinking(old(s[..]), s[..], i, j)
    {
      ghost var before := s[..];
      SwapKeepsSinking(old(s[..]), before, i, j);
      s[j], s[j - 1] := s[j - 1], s[j];
      assert s[..] == Swapped(before, j);
      j := j - 1;
    }
    SinkEnds(s[..], i + 1, j);
  }

  lemma SinkEnds(s: seq<real>, n: nat, j: nat)
    requires j < n <= |s| && AscendingBut(s, n, j)
    requires j > 0 ==> s[j - 1] <= s[j]
    ensures AscendingBut(s, n, 0)
  {
    forall p | 0 <= p < j ensures s[p] <= s[j] {
      assert p < j - 1 ==> s[p] <= s[j - 1];
    }
  }

  /** The engine's insertion sort, in place, by adjacent swaps. */
  method SortSlice(s: array<real>)
    modifies s
    ensures s[..] == Sorted(old(s[..]))
  {
    var i := 1;
    while i < s.Length
      invariant 1 <= i
      invariant i <= s.Length ==> AscendingBut(s[..], i, 0)
      invariant i > s.Length ==> s.Length == 0
      invariant multiset(s[..]) == multiset(old(s[..]))
    {
      Sink(s, i);
      i := i + 1;
    }
    SortedSorts(old(s[..]));
    AscendingUnique(s[..], Sorted(old(s[..])));
  }

  // ---- Medians ----

  /** The middle slope, or the mean of the two middle ones. */
  function Median(s: seq<real>): real
    requires s != []
  {
    SortedSorts(s);
    Middle(Sorted(s))
  }

  /** The middle position, or halfway between the two. */
  function Middle(o: seq<real>): real
    requires o != []
  {
    var n := |o|;
    if n % 2 == 1 then o[n / 2] else (o[n / 2 - 1] + o[n / 2]) / 2.0
  }

  /** The element at the middle position, the upper one when there are two. */
  function UpperMedian(s: seq<real>): real
    requires s != []
  {
    SortedSorts(s);
    Sorted(s)[|s| / 2]
  }

  lemma SortedMember(s: seq<real>, i: nat)
    requires i < |Sorted(s)|
    ensures Sorted(s)[i] in s
  {
    SortedSorts(s);
    assert Sorted(s)[i] in multiset(s);
  }

  /** Both medians of a list lie between any bounds on its elements. */
  lemma MediansWithin(s: seq<real>, lo: real, hi: real)
    requires s != []
    requires forall x :: x in s ==> lo <= x <= hi
    ensures lo <= Median(s) <= hi
    ensures lo <= UpperMedian(s) <= hi
  {
    var o := Sorted(s);
    SortedSorts(s);
    forall i | 0 <= i < |o| ensures lo <= o[i] <= hi { SortedMember(s, i); }
    assert lo <= o[|o| / 2] <= hi && lo <= o[(|o| - 1) / 2] <= hi;
  }

  // ---- Counting ----

  function Count(s: seq<real>, p: real -> bool): (n: nat)
    ensures n <= |s|
  {
    if s == [] then 0 else (if p(s[0]) then 1 else 0) + Count(s[1..], p)
  }

  lemma {:induction false} CountAppend(a: seq<real>, b: seq<real>, p: real -> bool)
    ensures Count(a + b, p) == Count(a, p) + Count(b, p)
  {
    if a == [] {
      assert a + b == b;
    } else {
      CountAppend(a[1..], b, p);
      assert (a + b)[1..] == a[1..] + b;
    }
  }

  lemma {:induction false} CountInsert(x: real, s: seq<real>, p: real -> bool)
    ensures Count(Insert(x, s), p) == (if p(x) then 1 else 0) + Count(s, p)
  {
    if s == [] || x <= s[0] {
      assert ([x] + s)[1..] == s;
    } else {
      CountInsert(x, s[1..], p);
      assert ([s[0]] + Insert(x, s[1..]))[1..] == Insert(x, s[1..]);
    }
  }

  /** Sorting does not change how many elements satisfy a predicate. */
  lemma {:induction false} CountSorted(s: seq<real>, p: real -> bool)
    ensures Count(Sorted(s), p) == Count(s, p)
  {
    if s == [] {
    } else {
      CountSorted(s[1..], p);
      CountInsert(s[0], Sorted(s[1..]), p);
    }
  }

  function Between(lo: real, hi: real): real -> bool {
    x => lo <= x <= hi
  }

  /** Elements before position `m` that all fail a predicate do not count. */
  lemma {:induction false} PrefixFails(s: seq<real>, p: real -> bool, m: nat)
    requires m <= |s|
    requires forall i :: 0 <= i < m ==> !p(s[i])
    ensures Count(s, p) <= |s| - m
  {
    if m == 0 {
    } else {
      assert forall i :: 0 <= i < m - 1 ==> s[1..][i] == s[i + 1];
      PrefixFails(s[1..], p, m - 1);
    }
  }

  lemma {:induction false} SuffixFails(s: seq<real>, p: real -> bool, m: nat)
    requires m <= |s|
    requires forall i :: m <= i < |s| ==> !p(s[i])
    ensures Count(s, p) <= m
  {
    if s == [] {
    } else {
      assert forall i :: 0 <= i < |s| - 1 ==> s[1..][i] == s[i + 1];
      SuffixFails(s[1..], p, if m == 0 then 0 else m - 1);
    }
  }

  /** More than half the elements in an interval put every middle element there. */
  lemma MiddleOfMajority(s: seq<real>, lo: real, hi: real, m: nat)
    requires Ascending(s)
    requires 2 * Count(s, Between(lo, hi)) > |s|
    requires m < |s| && |s| - 2 <= 2 * m <= |s|
    ensures lo <= s[m] <= hi
  {
    if s[m] < lo {
      PrefixFails(s, Between(lo, hi), m + 1);
    } else if hi < s[m] {
      SuffixFails(s, Between(lo, hi), m);
    }
  }

  lemma {:induction false} MedianOfMajority(s: seq<real>, lo: real, hi: real)
    requires s != []
    requires 2 * Count(s, Between(lo, hi)) > |s|
    ensures lo <= Median(s) <= hi
  {
    var o := Sorted(s);
    SortedSorts(s);
    CountSorted(s, Between(lo, hi));
    var l, u := MedianMiddles(s);
    MiddleOfMajority(o, lo, hi, l);
    MiddleOfMajority(o, lo, hi, u);
  }

  lemma {:induction false} UpperMedianOfMajority(s: seq<real>, lo: real, hi: real)
    requires s != []
    requires 2 * Count(s, Between(lo, hi)) > |s|
    ensures lo <= UpperMedian(s) <= hi
  {
    SortedSorts(s);
    CountSorted(s, Between(lo, hi));
    MiddleOfMajority(Sorted(s), lo, hi, |s| / 2);
  }

  /** The median is the mean of the lower and the upper middle element. */
  lemma MedianMiddles(s: seq<real>) returns (l: nat, u: nat)
    requires s != []
    ensures |Sorted(s)| == |s| && l + u == |s| - 1 && l <= u <= l + 1
    ensures Median(s) == (Sorted(s)[l] + Sorted(s)[u]) / 2.0
  {
    SortedSorts(s);
    u := |s| / 2;
    l := |s| - 1 - u;
    MiddleIsMean(Sorted(s), l, u);
  }

  lemma MiddleIsMean(o: seq<real>, l: nat, u: nat)
    requires o != [] && u == |o| / 2 && l + u == |o| - 1
    ensures l <= u <= l + 1
    ensures Middle(o) == (o[l] + o[u]) / 2.0
  {
    if |o| % 2 == 1 {
      assert l == u;
    }
  }

  lemma {:induction false} PrefixHolds(s: seq<real>, p: real -> bool, m: nat)
    requires m <= |s|
    requires forall i :: 0 <= i < m ==> p(s[i])
    ensures Count(s, p) >= m
  {
    if m == 0 {
    } else {
      assert forall i :: 0 <= i < m - 1 ==> s[1..][i] == s[i + 1];
      PrefixHolds(s[1..], p, m - 1);
    }
  }

  lemma {:induction false} SuffixHolds(s: seq<real>, p: real -> bool, m: nat)
    requires m <= |s|
    requires forall i :: m <= i < |s| ==> p(s[i])
    ensures Count(s, p) >= |s| - m
  {
    if s == [] {
    } else {
      assert forall i :: 0 <= i < |s| - 1 ==> s[1..][i] == s[i + 1];
      SuffixHolds(s[1..], p, if m == 0 then 0 else m - 1);
    }
  }

  function AtLeast(bound: real): real -> bool {
    x => x >= bound
  }

  /** `m` splits the list: at least half of it lies on either side. */
  ghost predicate Halves(s: seq<real>, m: real) {
    2 * Count(s, AtMost(m)) >= |s| && 2 * Count(s, AtLeast(m)) >= |s|
  }

  lemma MedianHalves(s: seq<real>)
    requires s != []
    ensures Halves(s, Median(s))
  {
    var o, m := Sorted(s), Median(s);
    var l, u := MedianMiddles(s);
    SortedSorts(s);
    assert o[l] <= o[u];
    LowerPart(o, l, m);
    UpperPart(o, u, m);
    CountSorted(s, AtMost(m));
    CountSorted(s, AtLeast(m));
  }

  lemma LowerPart(o: seq<real>, l: nat, m: real)
    requires Ascending(o) && l < |o| && o[l] <= m
    ensures Count(o, AtMost(m)) >= l + 1
  {
    forall i | 0 <= i < l + 1 ensures AtMost(m)(o[i]) {
      assert i < l ==> o[i] <= o[l];
    }
    PrefixHolds(o, AtMost(m), l + 1);
  }

  lemma UpperPart(o: seq<real>, u: nat, m: real)
    requires Ascending(o) && u < |o| && m <= o[u]
    ensures Count(o, AtLeast(m)) >= |o| - u
  {
    forall i | u <= i < |o| ensures AtLeast(m)(o[i]) {
      assert u < i ==> o[u] <= o[i];
    }
    SuffixHolds(o, AtLeast(m), u);
  }

  function AtMost(bound: real): real -> bool {
    x => x <= bound
  }

  function LessThan(bound: real): real -> bool {
    x => x < bound
  }

  /** The upper middle element is the one that at most half the list is below and more than half at or below. */
  lemma UpperMedianRank(s: seq<real>)
    requires s != []
    ensures var m := UpperMedian(s);
      m in s && Count(s, LessThan(m)) <= |s| / 2 < Count(s, AtMost(m))
  {
    SortedSorts(s);
    SortedMember(s, |s| / 2);
    RankIn(Sorted(s), |s| / 2);
    CountSorted(s, AtMost(UpperMedian(s)));
    CountSorted(s, LessThan(UpperMedian(s)));
  }

  lemma RankIn(o: seq<real>, u: nat)
    requires Ascending(o) && u < |o|
    ensures Count(o, LessThan(o[u])) <= u < Count(o, AtMost(o[u]))
  {
    LowerPart(o, u, o[u]);
    forall i | u <= i < |o| ensures !LessThan(o[u])(o[i]) {
      assert u < i ==> o[u] <= o[i];
    }
    SuffixFails(o, LessThan(o[u]), u);
  }

  /** If at most half the elements are `<= bound`, the median is dragged up with the rest. */
  lemma {:induction false} MedianEscapes(s: seq<real>, floor: real, bound: real)
    requires s != []
    requires 2 * Count(s, AtMost(bound)) <= |s|
    requires forall x :: x in s ==> floor <= x
    requires floor <= bound
    ensures Median(s) > (floor + bound) / 2.0
  {
    SortedSorts(s);
    CountSorted(s, AtMost(bound));
    var l, u := MedianMiddles(s);
    MiddleEscapes(Sorted(s), bound, u);
    SortedMember(s, l);
  }

  lemma MiddleEscapes(o: seq<real>, bound: real, m: nat)
    requires Ascending(o) && m < |o| <= 2 * m + 1
    requires 2 * Count(o, AtMost(bound)) <= |o|
    ensures o[m] > bound
  {
    if o[m] <= bound {
      var above := (x: real) => x > bound;
      PrefixFails(o, above, m + 1);
      CountComplement(o, bound);
    }
  }

  lemma {:induction false} CountComplement(s: seq<real>, bound: real)
    ensures Count(s, AtMost(bound)) + Count(s, (x: real) => x > bound) == |s|
  {
    if s == [] {
    } else {
      CountComplement(s[1..], bound);
    }
  }

  // ---- Affine maps ----

  /** `k * x + c`. */
  function Affine(k: real, c: real): real -> real {
    x => k * x + c
  }

  function Map(s: seq<real>, f: real -> real): (r: seq<real>)
    ensures |r| == |s|
    ensures forall i :: 0 <= i < |s| ==> r[i] == f(s[i])
  {
    seq(|s|, i requires 0 <= i < |s| => f(s[i]))
  }

  lemma MapAppend(a: seq<real>, b: seq<real>, f: real -> real)
    ensures Map(a + b, f) == Map(a, f) + Map(b, f)
  {
  }

  lemma {:induction false} MapInsert(x: real, s: seq<real>, f: real -> real)
    ensures multiset(Map(Insert(x, s), f)) == multiset([f(x)] + Map(s, f))
  {
    if s == [] || x <= s[0] {
      assert Map(Insert(x, s), f) == [f(x)] + Map(s, f);
    } else {
      MapInsert(x, s[1..], f);
      var t := Insert(x, s[1..]);
      assert Insert(x, s) == [s[0]] + t;
      assert Map(Insert(x, s), f) == [f(s[0])] + Map(t, f);
      assert Map(s, f) == [f(s[0])] + Map(s[1..], f);
    }
  }

  lemma {:induction false} MapSorted(s: seq<real>, f: real -> real)
    ensures multiset(Map(Sorted(s), f)) == multiset(Map(s, f))
  {
    if s == [] {
    } else {
      MapSorted(s[1..], f);
      MapInsert(s[0], Sorted(s[1..]), f);
      assert Map(s, f) == [f(s[0])] + Map(s[1..], f);
    }
  }

  function Reversed(s: seq<real>): (r: seq<real>)
    ensures |r| == |s|
    ensures forall i :: 0 <= i < |s| ==> r[i] == s[|s| - 1 - i]
  {
    seq(|s|, i requires 0 <= i < |s| => s[|s| - 1 - i])
  }

  lemma {:induction false} ReversedElements(s: seq<real>)
    ensures multiset(Reversed(s)) == multiset(s)
  {
    if s == [] {
    } else {
      ReversedElements(s[1..]);
      assert s == [s[0]] + s[1..];
      assert Reversed(s) == Reversed(s[1..]) + [s[0]];
    }
  }

  ghost predicate Increasing(f: real -> real) {
    forall x: real, y: real :: x <= y ==> f(x) <= f(y)
  }

  ghost predicate Decreasing(f: real -> real) {
    forall x: real, y: real :: x <= y ==> f(y) <= f(x)
  }

  lemma ScaleKeepsOrder(k: real, x: real, y: real)
    requires x <= y
    ensures k >= 0.0 ==> k * x <= k * y
    ensures k <= 0.0 ==> k * y <= k * x
  {
  }

  lemma AffineOrder(k: real, c: real)
    ensures k >= 0.0 ==> Increasing(Affine(k, c))
    ensures k <= 0.0 ==> Decreasing(Affine(k, c))
  {
    forall x: real, y: real | x <= y
      ensures k >= 0.0 ==> Affine(k, c)(x) <= Affine(k, c)(y)
      ensures k <= 0.0 ==> Affine(k, c)(y) <= Affine(k, c)(x)
    {
      ScaleKeepsOrder(k, x, y);
    }
  }

  lemma SortedIncreasing(s: seq<real>, f: real -> real)
    requires Increasing(f)
    ensures Sorted(Map(s, f)) == Map(Sorted(s), f)
  {
    SortedSorts(s);
    SortedSorts(Map(s, f));
    MapSorted(s, f);
    AscendingUnique(Sorted(Map(s, f)), Map(Sorted(s), f));
  }

  lemma SortedDecreasing(s: seq<real>, f: real -> real)
    requires Decreasing(f)
    ensures Sorted(Map(s, f)) == Reversed(Map(Sorted(s), f))
  {
    SortedSorts(s);
    SortedSorts(Map(s, f));
    MapSorted(s, f);
    var t := Map(Sorted(s), f);
    ReversedElements(t);
    AscendingUnique(Sorted(Map(s, f)), Reversed(t));
  }

  /** An affine map carries the sorted order over, or turns it around. */
  lemma SortedAffine(s: seq<real>, k: real, c: real)
    ensures var (t, r) := (Sorted(Map(s, Affine(k, c))), Map(Sorted(s), Affine(k, c)));
      t == r || t == Reversed(r)
  {
    AffineOrder(k, c);
    if k >= 0.0 {
      SortedIncreasing(s, Affine(k, c));
    } else {
      SortedDecreasing(s, Affine(k, c));
    }
  }

  lemma AffineMean(k: real, c: real, x: real, y: real)
    ensures (Affine(k, c)(x) + Affine(k, c)(y)) / 2.0 == Affine(k, c)((x + y) / 2.0)
  {
  }

  lemma MirrorsOfMap(o: seq<real>, t: seq<real>, f: real -> real, l: nat, u: nat)
    requires l + u == |o| - 1
    requires t == Map(o, f) || t == Reversed(Map(o, f))
    ensures |t| == |o| && t[l] + t[u] == f(o[l]) + f(o[u])
  {
    var r := Map(o, f);
    if t == r {
      assert t[l] == f(o[l]) && t[u] == f(o[u]);
    } else {
      assert t[l] == r[u] == f(o[u]) && t[u] == r[l] == f(o[l]);
    }
  }

  /** The median commutes with every affine map, order-reversing ones included. */
  lemma MedianAffine(s: seq<real>, k: real, c: real)
    requires s != []
    ensures Median(Map(s, Affine(k, c))) == Affine(k, c)(Median(s))
  {
    var f, o := Affine(k, c), Sorted(s);
    var l, u := MedianMiddles(s);
    assert Median(Map(s, f)) == (f(o[l]) + f(o[u])) / 2.0 by {
      var l', u' := MedianMiddles(Map(s, f));
      assert l == l' && u == u';
      SortedAffine(s, k, c);
      MirrorsOfMap(o, Sorted(Map(s, f)), f, l, u);
    }
    AffineMean(k, c, o[l], o[u]);
  }
}
