/** Strings in byte order, and the one sorted list of a set of them. */
module StringOrder {
  import opened Sequences

  /** `a` comes before `b` in a dictionary, or equals it. */
  predicate LexLeq(a: string, b: string) {
    a == "" || (b != "" && (a[0] < b[0] || (a[0] == b[0] && LexLeq(a[1..], b[1..]))))
  }

  lemma {:induction false} LexTotal(a: string, b: string)
    ensures LexLeq(a, b) || LexLeq(b, a)
  {
    if a != "" && b != "" && a[0] == b[0] {
      LexTotal(a[1..], b[1..]);
    }
  }

  lemma {:induction false} LexAntisymmetric(a: string, b: string)
    requires LexLeq(a, b) && LexLeq(b, a)
    ensures a == b
  {
    if a != "" {
      LexAntisymmetric(a[1..], b[1..]);
      assert a == [a[0]] + a[1..] && b == [b[0]] + b[1..];
    }
  }

  lemma {:induction false} LexTransitive(a: string, b: string, c: string)
    requires LexLeq(a, b) && LexLeq(b, c)
    ensures LexLeq(a, c)
  {
    if a != "" && a[0] == b[0] && b[0] == c[0] {
      LexTransitive(a[1..], b[1..], c[1..]);
    }
  }

  /** The strings first differ at `i`, and `a` has the smaller byte there. */
  ghost predicate DiffersAt(a: string, b: string, i: nat) {
    i < |a| && i < |b| && a[..i] == b[..i] && a[i] < b[i]
  }

  /** `a` is a prefix of `b`, or has the smaller byte where they first differ. */
  ghost predicate ByteOrder(a: string, b: string) {
    a <= b || exists i: nat :: DiffersAt(a, b, i)
  }

  lemma SameBefore(a: string, b: string, i: nat)
    requires DiffersAt(a, b, i)
    ensures i > 0 ==> a[0] == b[0]
  {
    if i > 0 {
      assert a[0] == a[..i][0] == b[..i][0] == b[0];
    }
  }

  lemma {:induction false} LexIsByteOrder(a: string, b: string)
    ensures LexLeq(a, b) <==> ByteOrder(a, b)
  {
    if a != "" && b != "" {
      if a[0] == b[0] {
        LexIsByteOrder(a[1..], b[1..]);
        SameFirstByte(a, b);
      } else {
        assert a[0] < b[0] ==> DiffersAt(a, b, 0);
        forall i: nat | DiffersAt(a, b, i) ensures i == 0 {
          SameBefore(a, b, i);
        }
      }
    }
  }

  lemma SameFirstByte(a: string, b: string)
    requires a != "" && b != "" && a[0] == b[0]
    ensures ByteOrder(a, b) <==> ByteOrder(a[1..], b[1..])
  {
    assert a == [a[0]] + a[1..] && b == [b[0]] + b[1..];
    forall i: nat | DiffersAt(a[1..], b[1..], i) ensures DiffersAt(a, b, i + 1) {
      assert a[..i + 1] == [a[0]] + a[1..][..i] && b[..i + 1] == [b[0]] + b[1..][..i];
    }
    forall i: nat | DiffersAt(a, b, i) ensures i > 0 && DiffersAt(a[1..], b[1..], i - 1) {
      assert a[1..][..i - 1] == a[..i][1..] && b[1..][..i - 1] == b[..i][1..];
    }
  }

  ghost predicate InOrder(s: seq<string>) {
    forall i, j :: 0 <= i < j < |s| ==> LexLeq(s[i], s[j])
  }

  function Place(x: string, s: seq<string>): seq<string> {
    if s == [] || LexLeq(x, s[0]) then [x] + s else [s[0]] + Place(x, s[1..])
  }

  /** The library sort of a string slice. */
  function Sort(s: seq<string>): seq<string> {
    if s == [] then [] else Place(s[0], Sort(s[1..]))
  }

  lemma {:induction false} PlaceElements(x: string, s: seq<string>)
    ensures multiset(Place(x, s)) == multiset([x] + s)
  {
    if s == [] || LexLeq(x, s[0]) {
    } else {
      PlaceElements(x, s[1..]);
      assert s == [s[0]] + s[1..];
    }
  }

  lemma {:induction false} PlaceOrdered(x: string, s: seq<string>)
    requires InOrder(s)
    ensures InOrder(Place(x, s))
    ensures Place(x, s) != [] && (Place(x, s)[0] == x || (s != [] && Place(x, s)[0] == s[0]))
  {
    if s == [] {
    } else if LexLeq(x, s[0]) {
      forall j | 0 <= j < |s| ensures LexLeq(x, s[j]) {
        if j > 0 {
          LexTransitive(x, s[0], s[j]);
        }
      }
    } else {
      LexTotal(x, s[0]);
      PlaceOrdered(x, s[1..]);
      var t := Place(x, s[1..]);
      assert LexLeq(s[0], t[0]);
      forall j | 0 <= j < |t| ensures LexLeq(s[0], t[j]) {
        if j > 0 {
          LexTransitive(s[0], t[0], t[j]);
        }
      }
    }
  }

  lemma {:induction false} SortSorts(s: seq<string>)
    ensures InOrder(Sort(s))
    ensures multiset(Sort(s)) == multiset(s)
  {
    if s == [] {
    } else {
      SortSorts(s[1..]);
      PlaceOrdered(s[0], Sort(s[1..]));
      PlaceElements(s[0], Sort(s[1..]));
      assert s == [s[0]] + s[1..];
    }
  }

  lemma LexReflexive(a: string)
    ensures LexLeq(a, a)
  {
    LexTotal(a, a);
  }

  lemma FirstIsLeast(s: seq<string>, x: string)
    requires InOrder(s) && x in s
    ensures LexLeq(s[0], x)
  {
    var i :| 0 <= i < |s| && s[i] == x;
    if i == 0 {
      LexReflexive(x);
    }
  }

  lemma SameFirst(a: seq<string>, b: seq<string>)
    requires InOrder(a) && InOrder(b) && multiset(a) == multiset(b) && a != [] && b != []
    ensures a[0] == b[0]
  {
    assert a[0] in multiset(b) && b[0] in multiset(a);
    FirstIsLeast(a, b[0]);
    FirstIsLeast(b, a[0]);
    LexAntisymmetric(a[0], b[0]);
  }

  lemma {:induction false} InOrderUnique(a: seq<string>, b: seq<string>)
    requires InOrder(a) && InOrder(b) && multiset(a) == multiset(b)
    ensures a == b
  {
    assert |a| == |multiset(a)| == |multiset(b)| == |b|;
    if a == [] {
    } else {
      SameFirst(a, b);
      TailElements(a);
      TailElements(b);
      InOrderUnique(a[1..], b[1..]);
      assert a == [a[0]] + a[1..] == [b[0]] + b[1..] == b;
    }
  }

  // ---- Sets ----

  /** `order` lists every element of `s` exactly once: one possible iteration order of a map's keys. */
  ghost predicate Enumerates(order: seq<string>, s: set<string>) {
    multiset(order) == multiset(s)
  }

  ghost function Enumeration(s: set<string>): (order: seq<string>)
    ensures Enumerates(order, s)
  {
    if s == {} then [] else
    var x :| x in s;
    assert s == {x} + (s - {x});
    [x] + Enumeration(s - {x})
  }

  lemma EnumerationWithin(order: seq<string>, s: set<string>)
    requires Enumerates(order, s)
    ensures forall i :: 0 <= i < |order| ==> order[i] in s
  {
    forall i | 0 <= i < |order| ensures order[i] in s {
      assert order[i] in multiset(order);
    }
  }

  ghost function SortedKeys(s: set<string>): (keys: seq<string>)
    ensures Enumerates(keys, s)
    ensures forall i :: 0 <= i < |keys| ==> keys[i] in s
  {
    SortSorts(Enumeration(s));
    EnumerationWithin(Sort(Enumeration(s)), s);
    Sort(Enumeration(s))
  }

  /** Sorting forgets the order the keys were met in. */
  lemma SortForgetsOrder(order: seq<string>, s: set<string>)
    requires Enumerates(order, s)
    ensures Sort(order) == SortedKeys(s)
  {
    SortSorts(order);
    SortSorts(Enumeration(s));
    InOrderUnique(Sort(order), SortedKeys(s));
  }

  lemma EnumerationCovers(order: seq<string>, s: set<string>, x: string)
    requires Enumerates(order, s) && x in s
    ensures x in order
  {
    assert x in multiset(order);
  }

  lemma EnumerationSize(order: seq<string>, s: set<string>)
    requires Enumerates(order, s)
    ensures |order| == |s|
  {
    assert |multiset(order)| == |order| && |multiset(s)| == |s|;
  }

  lemma EnumerationDistinct(order: seq<string>, s: set<string>)
    requires Enumerates(order, s)
    ensures forall i, j :: 0 <= i < j < |order| ==> order[i] != order[j]
  {
    forall i, j | 0 <= i < j < |order| ensures order[i] != order[j] {
      assert order == order[..i] + [order[i]] + order[i + 1..j] + [order[j]] + order[j + 1..];
      assert multiset(s)[order[i]] <= 1;
    }
  }

  /** The sorted keys are the enumeration in byte order, and no other is. */
  lemma SortedKeysIff(s: set<string>, keys: seq<string>)
    requires Enumerates(keys, s)
    ensures keys == SortedKeys(s) <==> forall i, j :: 0 <= i < j < |keys| ==> ByteOrder(keys[i], keys[j])
  {
    forall i, j | 0 <= i < j < |keys| ensures LexLeq(keys[i], keys[j]) <==> ByteOrder(keys[i], keys[j]) {
      LexIsByteOrder(keys[i], keys[j]);
    }
    SortSorts(Enumeration(s));
    if InOrder(keys) {
      InOrderUnique(keys, SortedKeys(s));
    }
  }
}
