/**
 The price catalog and its file cache. A cache file is identified with its key (the file name
 is a hash taken to be injective), its content with the quote stored in it.
 */
module PriceCache {
  import opened Wrappers
  import opened Engine
  import opened StringOrder
  import opened Cutting

  // ---- Cache keys ----

  function Segment(k: string, v: string): string {
    k + ['='] + v
  }

  function KeyTail(attrs: map<string, string>, keys: seq<string>): string
    requires forall i :: 0 <= i < |keys| ==> keys[i] in attrs
  {
    if keys == [] then "" else
    var k := keys[|keys| - 1];
    KeyTail(attrs, keys[..|keys| - 1]) + (['|'] + Segment(k, attrs[k]))
  }

  ghost function KeyOf(family: string, attrs: map<string, string>): string {
    family + KeyTail(attrs, SortedKeys(attrs.Keys))
  }

  /** One more attribute. */
  lemma KeyTailStep(prefix: string, attrs: map<string, string>, keys: seq<string>, i: nat)
    requires i < |keys| && forall j :: 0 <= j < |keys| ==> keys[j] in attrs
    ensures prefix + KeyTail(attrs, keys[..i + 1]) ==
      (prefix + KeyTail(attrs, keys[..i])) + (['|'] + Segment(keys[i], attrs[keys[i]]))
  {
    assert keys[..i + 1][..i] == keys[..i];
  }

  /** The cache key; `order` is the order the attributes happen to be iterated in. */
  method CacheKey(family: string, attrs: map<string, string>, order: seq<string>) returns (s: string)
    requires Enumerates(order, attrs.Keys)
    ensures s == KeyOf(family, attrs)
  {
    var keys := Sort(order);
    SortForgetsOrder(order, attrs.Keys);
    EnumerationWithin(keys, attrs.Keys);
    s := AppendAll(family, attrs, keys);
  }

  /** The loop over the sorted keys. */
  method AppendAll(family: string, attrs: map<string, string>, keys: seq<string>) returns (s: string)
    requires forall i :: 0 <= i < |keys| ==> keys[i] in attrs
    ensures s == family + KeyTail(attrs, keys)
  {
    s := family;
    var i := 0;
    while i < |keys|
      invariant 0 <= i <= |keys|
      invariant s == family + KeyTail(attrs, keys[..i])
    {
      var k := keys[i];
      KeyTailStep(family, attrs, keys, i);
      s := s + (['|'] + Segment(k, attrs[k]));
      i := i + 1;
    }
    assert keys[..i] == keys;
  }

  predicate Without(s: string, c: char) {
    forall i :: 0 <= i < |s| ==> s[i] != c
  }

  /** A query whose key can be told from every other such query's. */
  ghost predicate Clean(family: string, attrs: map<string, string>) {
    && Without(family, '|')
    && forall k :: k in attrs ==> Without(k, '|') && Without(k, '=') && Without(attrs[k], '|')
  }

  /** The position of the last `c`, or -1. */
  function LastIndexOf(s: string, c: char): (i: int)
    ensures -1 <= i < |s|
    ensures i >= 0 ==> s[i] == c
    ensures forall j :: i < j < |s| ==> s[j] != c
  {
    if s == "" then -1
    else if s[|s| - 1] == c then |s| - 1
    else LastIndexOf(s[..|s| - 1], c)
  }

  /** The family and attributes a key was made from, read from its end. */
  function ReadKey(s: string): Option<(string, map<string, string>)>
    decreases |s|
  {
    var i := LastIndexOf(s, '|');
    if i < 0 then Some((s, map[])) else
    var segment := s[i + 1..];
    var cut := IndexOf(segment, '=');
    if cut == |segment| then None else
    match ReadKey(s[..i])
    case None => None
    case Some((f, m)) => Some((f, m[segment[..cut] := segment[cut + 1..]]))
  }

  lemma LastCut(a: string, b: string)
    requires Without(b, '|')
    ensures var s := a + (['|'] + b);
      LastIndexOf(s, '|') == |a| && s[..|a|] == a && s[|a| + 1..] == b
  {
    var s := a + (['|'] + b);
    assert forall j :: |a| < j < |s| ==> s[j] == b[j - |a| - 1];
    assert s[|a|] == '|';
  }

  lemma SegmentParts(k: string, v: string)
    requires Without(k, '|') && Without(k, '=') && Without(v, '|')
    ensures var b := Segment(k, v);
      Without(b, '|') && IndexOf(b, '=') == |k| < |b| && b[..|k|] == k && b[|k| + 1..] == v
  {
    CutAt(k, '=', v);
  }

  lemma ReadSegment(a: string, b: string, k: string, v: string)
    requires Without(b, '|') && IndexOf(b, '=') == |k| < |b| && b[..|k|] == k && b[|k| + 1..] == v
    requires ReadKey(a).Some?
    ensures ReadKey(a + (['|'] + b)) == Some((ReadKey(a).value.0, ReadKey(a).value.1[k := v]))
  {
    LastCut(a, b);
  }

  /** The attributes under `keys`. */
  function Under(attrs: map<string, string>, keys: seq<string>): map<string, string>
    requires forall i :: 0 <= i < |keys| ==> keys[i] in attrs
  {
    if keys == [] then map[] else
    var k := keys[|keys| - 1];
    Under(attrs, keys[..|keys| - 1])[k := attrs[k]]
  }

  lemma {:induction false} ReadTail(family: string, attrs: map<string, string>, keys: seq<string>)
    requires Clean(family, attrs)
    requires forall i :: 0 <= i < |keys| ==> keys[i] in attrs
    ensures ReadKey(family + KeyTail(attrs, keys)) == Some((family, Under(attrs, keys)))
  {
    if keys == [] {
      assert family + "" == family;
      assert LastIndexOf(family, '|') == -1;
    } else {
      var n := |keys| - 1;
      var k := keys[n];
      ReadTail(family, attrs, keys[..n]);
      SegmentParts(k, attrs[k]);
      ReadSegment(family + KeyTail(attrs, keys[..n]), Segment(k, attrs[k]), k, attrs[k]);
      KeyTailStep(family, attrs, keys, n);
      assert keys[..n + 1] == keys;
    }
  }

  lemma {:induction false} UnderIs(attrs: map<string, string>, keys: seq<string>)
    requires forall i :: 0 <= i < |keys| ==> keys[i] in attrs
    ensures forall i :: 0 <= i < |keys| ==> keys[i] in Under(attrs, keys)
    ensures forall k :: k in Under(attrs, keys) ==> k in attrs && Under(attrs, keys)[k] == attrs[k]
  {
    if keys != [] {
      var n := |keys| - 1;
      UnderIs(attrs, keys[..n]);
      assert forall i :: 0 <= i < n ==> keys[..n][i] == keys[i];
    }
  }

  lemma UnderAll(attrs: map<string, string>, keys: seq<string>)
    requires Enumerates(keys, attrs.Keys) && forall i :: 0 <= i < |keys| ==> keys[i] in attrs
    ensures Under(attrs, keys) == attrs
  {
    UnderIs(attrs, keys);
    var u := Under(attrs, keys);
    forall k | k in attrs ensures k in u {
      EnumerationCovers(keys, attrs.Keys, k);
    }
    assert u.Keys == attrs.Keys;
  }

  /** A clean query can be read back from its key. */
  lemma KeyReadsBack(family: string, attrs: map<string, string>)
    requires Clean(family, attrs)
    ensures ReadKey(KeyOf(family, attrs)) == Some((family, attrs))
  {
    var keys := SortedKeys(attrs.Keys);
    ReadTail(family, attrs, keys);
    UnderAll(attrs, keys);
  }

  /** So among clean queries no two share a key. */
  lemma KeyInjective(f: string, a: map<string, string>, f': string, a': map<string, string>)
    requires Clean(f, a) && Clean(f', a')
    requires KeyOf(f, a) == KeyOf(f', a')
    ensures f == f' && a == a'
  {
    KeyReadsBack(f, a);
    KeyReadsBack(f', a');
  }

  // ---- Which queries share a key ----

  lemma {:induction false} KeyTailFirst(attrs: map<string, string>, keys: seq<string>)
    requires keys != [] && forall i :: 0 <= i < |keys| ==> keys[i] in attrs
    ensures KeyTail(attrs, keys) == (['|'] + Segment(keys[0], attrs[keys[0]])) + KeyTail(attrs, keys[1..])
  {
    var n := |keys| - 1;
    if n == 0 {
      assert keys[..0] == [] && keys[1..] == [];
    } else {
      KeyTailFirst(attrs, keys[..n]);
      assert keys[1..][..n - 1] == keys[..n][1..];
      Regroup(['|'] + Segment(keys[0], attrs[keys[0]]), KeyTail(attrs, keys[1..n]),
              ['|'] + Segment(keys[n], attrs[keys[n]]));
    }
  }

  lemma Regroup(a: string, b: string, c: string)
    ensures (a + b) + c == a + (b + c)
  {
  }

  /** The key of a query that has attributes: the family, the first of them, and the rest. */
  ghost predicate Parts(family: string, attrs: map<string, string>, k: string, rest: string) {
    && k in attrs
    && KeyOf(family, attrs) == family + (['|'] + (Segment(k, attrs[k]) + rest))
    && (|attrs| == 1 ==> rest == "" && attrs == map[k := attrs[k]])
    && (|attrs| > 1 ==> !Without(rest, '='))
  }

  lemma KeyParts(family: string, attrs: map<string, string>) returns (k: string, rest: string)
    requires attrs != map[]
    ensures Parts(family, attrs, k, rest)
  {
    var keys := SortedKeys(attrs.Keys);
    EnumerationSize(keys, attrs.Keys);
    assert |attrs.Keys| == |attrs|;
    k, rest := keys[0], KeyTail(attrs, keys[1..]);
    KeyTailFirst(attrs, keys);
    if |attrs| == 1 {
      OnlyKey(attrs, k);
    } else {
      TailHasEquals(attrs, keys[1..]);
    }
    Regroup(['|'], Segment(k, attrs[k]), rest);
  }

  lemma TailHasEquals(attrs: map<string, string>, keys: seq<string>)
    requires keys != [] && forall i :: 0 <= i < |keys| ==> keys[i] in attrs
    ensures !Without(KeyTail(attrs, keys), '=')
  {
    KeyTailFirst(attrs, keys);
    assert KeyTail(attrs, keys)[1 + |keys[0]|] == '=';
  }

  lemma OnlyKey(attrs: map<string, string>, k: string)
    requires |attrs| == 1 && k in attrs
    ensures attrs == map[k := attrs[k]]
  {
    assert |attrs.Keys - {k}| == 0;
    assert attrs.Keys == {k};
  }

  lemma KeyOfOne(family: string, k: string, v: string)
    ensures KeyOf(family, map[k := v]) == family + (['|'] + Segment(k, v))
  {
    var one := map[k := v];
    var keys := SortedKeys(one.Keys);
    EnumerationSize(keys, one.Keys);
    KeyTailFirst(one, keys);
    assert keys[0] in one.Keys && keys[1..] == [];
  }

  /** Any query of two or more attributes shares its key with a query of one, which holds the others in its value. */
  lemma KeysCollide(family: string, attrs: map<string, string>) returns (k: string, v: string)
    requires |attrs| >= 2
    ensures KeyOf(family, map[k := v]) == KeyOf(family, attrs)
    ensures map[k := v] != attrs
  {
    var rest;
    k, rest := KeyParts(family, attrs);
    v := attrs[k] + rest;
    KeyOfOne(family, k, v);
    assert Segment(k, v) == Segment(k, attrs[k]) + rest;
    assert |map[k := v]| == 1;
  }

  /** A query of one attribute with a second `=` can be cut there instead. */
  lemma KeyCutElsewhere(family: string, k: string, v: string) returns (k': string, v': string)
    requires !(Without(k, '=') && Without(v, '='))
    ensures KeyOf(family, map[k' := v']) == KeyOf(family, map[k := v])
    ensures k' != k
  {
    var b := Segment(k, v);
    var p: nat;
    if !Without(k, '=') {
      p :| p < |k| && k[p] == '=';
    } else {
      var q: nat :| q < |v| && v[q] == '=';
      p := |k| + 1 + q;
    }
    k', v' := b[..p], b[p + 1..];
    assert Segment(k', v') == b;
    KeyOfOne(family, k, v);
    KeyOfOne(family, k', v');
  }

  /** The key of some other query, whose family has no `|` either. */
  ghost predicate KeyShared(family: string, attrs: map<string, string>) {
    exists f: string, a: map<string, string> ::
      Without(f, '|') && (f != family || a != attrs) && KeyOf(f, a) == KeyOf(family, attrs)
  }

  /** Two or more attributes, or an `=` in a name or a value. */
  ghost predicate Regroupable(attrs: map<string, string>) {
    |attrs| >= 2 || exists k :: k in attrs && !(Without(k, '=') && Without(attrs[k], '='))
  }

  lemma SharedWhenRegroupable(family: string, attrs: map<string, string>)
    requires Without(family, '|') && Regroupable(attrs)
    ensures KeyShared(family, attrs)
  {
    if |attrs| >= 2 {
      var k, v := KeysCollide(family, attrs);
      assert KeyOf(family, map[k := v]) == KeyOf(family, attrs);
    } else {
      var k :| k in attrs && !(Without(k, '=') && Without(attrs[k], '='));
      assert attrs != map[];
      assert |attrs| == 1;
      OnlyKey(attrs, k);
      var k', v' := KeyCutElsewhere(family, k, attrs[k]);
      assert KeyOf(family, map[k' := v']) == KeyOf(family, attrs);
      assert k' in map[k' := v'] && k' !in map[k := attrs[k]];
    }
  }

  lemma KeyOfNone(family: string)
    ensures KeyOf(family, map[]) == family
  {
    var none: map<string, string> := map[];
    assert none.Keys == {} && |SortedKeys({})| == |multiset(SortedKeys({}))| == 0;
    assert family + "" == family;
  }

  lemma HasBar(a: string, b: string)
    ensures !Without(a + (['|'] + b), '|')
  {
    assert (a + (['|'] + b))[|a|] == '|';
  }

  /** The family is what stands before the first `|`. */
  lemma SameFamily(f: string, b: string, f': string, b': string)
    requires Without(f, '|') && Without(f', '|')
    requires f + (['|'] + b) == f' + (['|'] + b')
    ensures f == f' && b == b'
  {
    assert f + ['|'] + b == f + (['|'] + b) && f' + ['|'] + b' == f' + (['|'] + b');
    CutAt(f, '|', b);
    CutAt(f', '|', b');
  }

  /** A pair with one `=` is cut there by any reading, which leaves nothing over. */
  lemma OneEqualsOneReading(k: string, v: string, k': string, v': string, rest: string)
    requires Without(k, '=') && Without(v, '=')
    requires Segment(k, v) == Segment(k', v') + rest
    ensures k == k' && Without(rest, '=')
    ensures rest == "" ==> v == v'
  {
    var b := Segment(k, v);
    assert forall i :: 0 <= i < |b| && b[i] == '=' ==> i == |k|;
    assert b[|k'|] == '=';
    assert k == b[..|k|] && k' == b[..|k'|];
    forall i | 0 <= i < |rest| ensures rest[i] != '=' {
      assert b[|k'| + 1 + |v'| + i] == rest[i];
    }
    if rest == "" {
      assert v == b[|k| + 1..] && v' == b[|k| + 1..];
    }
  }

  lemma UnsharedUnlessRegroupable(f: string, a: map<string, string>, f': string, a': map<string, string>)
    requires Without(f, '|') && Without(f', '|') && !Regroupable(a)
    requires KeyOf(f, a) == KeyOf(f', a')
    ensures f == f' && a == a'
  {
    KeyOfNone(f);
    KeyOfNone(f');
    if a == map[] {
      if a' != map[] {
        var k', rest' := KeyParts(f', a');
        HasBar(f', Segment(k', a'[k']) + rest');
      }
    } else {
      var k, rest := KeyParts(f, a);
      assert |a| == 1;
      if a' == map[] {
        HasBar(f, Segment(k, a[k]) + rest);
      } else {
        var k', rest' := KeyParts(f', a');
        SameFamily(f, Segment(k, a[k]) + rest, f', Segment(k', a'[k']) + rest');
        assert Segment(k, a[k]) + rest == Segment(k, a[k]);
        OneEqualsOneReading(k, a[k], k', a'[k'], rest');
      }
    }
  }

  /** A query shares its key with another exactly when it has two attributes, or an `=` too many. */
  lemma KeySharedIff(family: string, attrs: map<string, string>)
    requires Without(family, '|')
    ensures KeyShared(family, attrs) <==> Regroupable(attrs)
  {
    if Regroupable(attrs) {
      SharedWhenRegroupable(family, attrs);
    } else {
      forall f: string, a: map<string, string> | Without(f, '|') && KeyOf(f, a) == KeyOf(family, attrs)
        ensures f == family && a == attrs
      {
        UnsharedUnlessRegroupable(family, attrs, f, a);
      }
    }
  }

  // ---- Quotes ----

  datatype Price = Price(unitPrice: real, currency: string, unit: string, source: string)

  datatype Quote = Quote(price: Price, stale: bool)

  datatype Envelope = Envelope(storedAt: int, payload: Quote)

  /** What becomes of a write: the file holds the new envelope, is as before, or cannot be read any more. */
  datatype Write = Written | NotWritten | Corrupted

  /** One query, with what the clock, the price source and the disk do during it. */
  datatype Call = Call(
    family: string,
    attrs: map<string, string>,
    ttl: int,
    loadAt: int,
    answer: Result<Price, string>,
    storeAt: int,
    write: Write,
    order: seq<string>)

  /** A query under its cache key. */
  datatype Turn = Turn(key: string, call: Call)

  ghost function TurnOf(c: Call): Turn {
    Turn(KeyOf(c.family, c.attrs), c)
  }

  type Files = map<string, Envelope>

  function EffectiveTtl(ttl: int): int {
    if ttl <= 0 then DAY else ttl
  }

  predicate FreshHit(files: Files, key: string, ttl: int, now: int) {
    key in files && now - files[key].storedAt < ttl
  }

  function StoreIn(enabled: bool, files: Files, key: string, e: Envelope, write: Write): Files {
    if !enabled then files
    else match write
      case Written => files[key := e]
      case NotWritten => files
      case Corrupted => files - {key}
  }

  /** The price source is asked unless a fresh file answers. */
  predicate Asks(files: Files, t: Turn) {
    !FreshHit(files, t.key, EffectiveTtl(t.call.ttl), t.call.loadAt)
  }

  function AnswerTo(files: Files, t: Turn): Result<Quote, string> {
    if !Asks(files, t) then Success(files[t.key].payload)
    else match t.call.answer
      case Success(p) => Success(Quote(p, false))
      case Failure(e) => if t.key in files then Success(files[t.key].payload.(stale := true)) else Failure(e)
  }

  function FilesNext(enabled: bool, files: Files, t: Turn): Files {
    if Asks(files, t) && t.call.answer.Success? then
      StoreIn(enabled, files, t.key, Envelope(t.call.storeAt, Quote(t.call.answer.value, false)), t.call.write)
    else files
  }

  class FileCache {
    const enabled: bool
    var files: Files

    /** A disabled cache never holds anything. */
    predicate Valid()
      reads this
    {
      !enabled ==> files == map[]
    }

    constructor (enabled: bool)
      ensures Valid() && this.enabled == enabled && files == map[]
    {
      this.enabled := enabled;
      files := map[];
    }

    method Store(key: string, payload: Quote, now: int, write: Write)
      requires Valid()
      modifies this
      ensures Valid()
      ensures files == StoreIn(enabled, old(files), key, Envelope(now, payload), write)
    {
      if !enabled {
        return;
      }
      match write {
        case Written => files := files[key := Envelope(now, payload)];
        case NotWritten =>
        case Corrupted => files := files - {key};
      }
    }

    method Load(key: string, ttl: int, now: int) returns (hit: Option<(Quote, bool)>)
      requires Valid()
      ensures hit == if key in files then Some((files[key].payload, FreshHit(files, key, ttl, now))) else None
    {
      if !enabled || key !in files {
        return None;
      }
      var env := files[key];
      return Some((env.payload, now - env.storedAt < ttl));
    }
  }

  class Catalog {
    const cache: FileCache

    constructor (enabled: bool)
      ensures fresh(cache) && cache.Valid() && cache.enabled == enabled && cache.files == map[]
    {
      cache := new FileCache(enabled);
    }

    method GetQuote(c: Call) returns (r: Result<Quote, string>)
      requires Enumerates(c.order, c.attrs.Keys)
      requires cache.Valid()
      modifies cache
      ensures cache.Valid()
      ensures r == AnswerTo(old(cache.files), TurnOf(c))
      ensures cache.files == FilesNext(cache.enabled, old(cache.files), TurnOf(c))
    {
      var ttl := c.ttl;
      if ttl <= 0 {
        ttl := DAY;
      }
      var key := CacheKey(c.family, c.attrs, c.order);
      var hit := cache.Load(key, ttl, c.loadAt);
      if hit.Some? && hit.value.1 {
        return Success(hit.value.0);
      }
      match c.answer {
        case Failure(e) =>
          var again := cache.Load(key, ttl, c.loadAt);
          if again.Some? {
            return Success(again.value.0.(stale := true));
          }
          return Failure(e);
        case Success(p) =>
          cache.Store(key, Quote(p, false), c.storeAt, c.write);
          return Success(Quote(p, false));
      }
    }
  }

  // ---- Runs of queries ----

  function FilesAfter(enabled: bool, turns: seq<Turn>): Files {
    if turns == [] then map[] else
    var n := |turns| - 1;
    FilesNext(enabled, FilesAfter(enabled, turns[..n]), turns[n])
  }

  /** The `n`-th turn asked the price source and got a price. */
  predicate Answered(enabled: bool, turns: seq<Turn>, n: nat)
    requires n < |turns|
  {
    Asks(FilesAfter(enabled, turns[..n]), turns[n]) && turns[n].call.answer.Success?
  }

  /** A turn whose answer reached the file of `key`. */
  predicate Touches(files: Files, t: Turn, key: string) {
    Asks(files, t) && t.call.answer.Success? && t.key == key && t.call.write != NotWritten
  }

  /** Which turns of a run touched the file of `key`. */
  function Touched(enabled: bool, turns: seq<Turn>, key: string): (b: seq<bool>)
    ensures |b| == |turns|
  {
    if turns == [] then [] else
    var n := |turns| - 1;
    Touched(enabled, turns[..n], key) + [Touches(FilesAfter(enabled, turns[..n]), turns[n], key)]
  }

  lemma {:induction false} TouchedAt(enabled: bool, turns: seq<Turn>, key: string, j: nat)
    requires j < |turns|
    ensures Touched(enabled, turns, key)[j] == Touches(FilesAfter(enabled, turns[..j]), turns[j], key)
    decreases |turns|
  {
    var n := |turns| - 1;
    if j < n {
      TouchedAt(enabled, turns[..n], key, j);
      assert turns[..n][..j] == turns[..j];
    }
  }

  ghost predicate LastTrue(b: seq<bool>, i: nat) {
    i < |b| && b[i] && forall j :: i < j < |b| ==> !b[j]
  }

  lemma FilesStep(files: Files, t: Turn, key: string)
    requires key in FilesNext(true, files, t)
    ensures var next := FilesNext(true, files, t);
      if Touches(files, t, key) then
        t.call.write == Written && next[key] == Envelope(t.call.storeAt, Quote(t.call.answer.value, false))
      else key in files && next[key] == files[key]
  {
  }

  /** Every file in the cache holds the answer of the last turn that touched it. */
  lemma {:induction false} FileOrigin(turns: seq<Turn>, key: string) returns (i: nat)
    requires key in FilesAfter(true, turns)
    ensures LastTrue(Touched(true, turns, key), i)
    ensures turns[i].call.write == Written && turns[i].call.answer.Success?
    ensures FilesAfter(true, turns)[key] == Envelope(turns[i].call.storeAt, Quote(turns[i].call.answer.value, false))
    decreases |turns|
  {
    var n := |turns| - 1;
    var before := FilesAfter(true, turns[..n]);
    FilesStep(before, turns[n], key);
    if Touches(before, turns[n], key) {
      i := n;
    } else {
      i := FileOrigin(turns[..n], key);
    }
  }

  lemma {:induction false} DisabledStaysEmpty(turns: seq<Turn>)
    ensures FilesAfter(false, turns) == map[]
    decreases |turns|
  {
    if turns != [] {
      DisabledStaysEmpty(turns[..|turns| - 1]);
    }
  }

  ghost predicate SameQuery(a: Turn, b: Turn) {
    a.call.family == b.call.family && a.call.attrs == b.call.attrs
  }

  /** All queries of a run are clean and go by their own keys. */
  ghost predicate CleanRun(turns: seq<Turn>) {
    forall j :: 0 <= j < |turns| ==>
      turns[j] == TurnOf(turns[j].call) && Clean(turns[j].call.family, turns[j].call.attrs)
  }

  lemma SameKeyIff(turns: seq<Turn>, i: nat, j: nat)
    requires CleanRun(turns) && i < |turns| && j < |turns|
    ensures turns[i].key == turns[j].key <==> SameQuery(turns[i], turns[j])
  {
    if turns[i].key == turns[j].key {
      KeyInjective(turns[i].call.family, turns[i].call.attrs, turns[j].call.family, turns[j].call.attrs);
    }
  }

  /** Turn `i` got price `p` from the source for the query of turn `n`, and nothing has replaced it since. */
  ghost predicate EarlierAnswer(enabled: bool, turns: seq<Turn>, n: nat, i: nat, p: Price)
    requires n < |turns|
  {
    && i < n && SameQuery(turns[i], turns[n])
    && Answered(enabled, turns, i) && turns[i].call.answer.value == p
    && forall j :: i < j < n && SameQuery(turns[j], turns[n]) && Answered(enabled, turns, j) ==>
         turns[j].call.write == NotWritten
  }

  lemma TouchedInPast(enabled: bool, turns: seq<Turn>, n: nat, j: nat)
    requires CleanRun(turns) && j < n < |turns|
    ensures Touched(enabled, turns[..n], turns[n].key)[j] <==>
      Answered(enabled, turns, j) && SameQuery(turns[j], turns[n]) && turns[j].call.write != NotWritten
  {
    TouchedBefore(enabled, turns, n, turns[n].key, j);
    SameKeyIff(turns, j, n);
  }

  lemma TouchedBefore(enabled: bool, turns: seq<Turn>, n: nat, key: string, j: nat)
    requires j < n < |turns|
    ensures Touched(enabled, turns[..n], key)[j] <==>
      Answered(enabled, turns, j) && turns[j].key == key && turns[j].call.write != NotWritten
  {
    TouchedAt(enabled, turns[..n], key, j);
    assert turns[..n][..j] == turns[..j];
  }

  lemma HitIsEarlierAnswer(enabled: bool, turns: seq<Turn>, n: nat) returns (i: nat)
    requires CleanRun(turns) && n < |turns|
    requires turns[n].key in FilesAfter(enabled, turns[..n])
    ensures var e := FilesAfter(enabled, turns[..n])[turns[n].key];
      && !e.payload.stale
      && EarlierAnswer(enabled, turns, n, i, e.payload.price)
      && e.storedAt == turns[i].call.storeAt && turns[i].call.write == Written
  {
    DisabledStaysEmpty(turns[..n]);
    i := FileOrigin(turns[..n], turns[n].key);
    TouchedInPast(enabled, turns, n, i);
    forall j | i < j < n && SameQuery(turns[j], turns[n]) && Answered(enabled, turns, j)
      ensures turns[j].call.write == NotWritten
    {
      TouchedInPast(enabled, turns, n, j);
    }
  }

  /** Its answer was written to a cache that is there. */
  ghost predicate Stored(enabled: bool, turns: seq<Turn>, n: nat, i: nat, p: Price)
    requires n < |turns|
  {
    enabled && EarlierAnswer(enabled, turns, n, i, p) && turns[i].call.write == Written
  }

  /** An answer of that age counts as fresh: within the catalog's period, or a day where it sets none. */
  predicate Young(ttl: int, age: int) {
    if ttl > 0 then age < ttl else age < 86_400_000_000_000
  }

  /** A stored answer young enough for turn `n`. */
  ghost predicate YoungAnswer(enabled: bool, turns: seq<Turn>, n: nat, i: nat, p: Price)
    requires n < |turns|
  {
    Stored(enabled, turns, n, i, p) && Young(turns[n].call.ttl, turns[n].call.loadAt - turns[i].call.storeAt)
  }

  lemma {:induction false} FileKept(turns: seq<Turn>, key: string, i: nat)
    requires LastTrue(Touched(true, turns, key), i)
    requires turns[i].call.write == Written && turns[i].call.answer.Success?
    ensures key in FilesAfter(true, turns)
    ensures FilesAfter(true, turns)[key] == Envelope(turns[i].call.storeAt, Quote(turns[i].call.answer.value, false))
    decreases |turns|
  {
    var n := |turns| - 1;
    var before := FilesAfter(true, turns[..n]);
    TouchedAt(true, turns, key, n);
    if i < n {
      assert forall j :: 0 <= j < n ==> Touched(true, turns, key)[j] == Touched(true, turns[..n], key)[j];
      FileKept(turns[..n], key, i);
    }
    KeepStep(before, turns[n], key);
  }

  lemma KeepStep(files: Files, t: Turn, key: string)
    ensures var next := FilesNext(true, files, t);
      if Touches(files, t, key) then
        t.call.write == Written ==>
          key in next && next[key] == Envelope(t.call.storeAt, Quote(t.call.answer.value, false))
      else key in files ==> key in next && next[key] == files[key]
  {
  }

  lemma StoredIsOnFile(enabled: bool, turns: seq<Turn>, n: nat, i: nat, p: Price)
    requires CleanRun(turns) && n < |turns| && Stored(enabled, turns, n, i, p)
    ensures var files := FilesAfter(enabled, turns[..n]);
      turns[n].key in files && files[turns[n].key] == Envelope(turns[i].call.storeAt, Quote(p, false))
  {
    forall j | i <= j < n
      ensures Touched(true, turns[..n], turns[n].key)[j] <==> j == i
    {
      TouchedInPast(true, turns, n, j);
    }
    FileKept(turns[..n], turns[n].key, i);
  }

  lemma OnFileIsStored(enabled: bool, turns: seq<Turn>, n: nat) returns (i: nat)
    requires CleanRun(turns) && n < |turns| && turns[n].key in FilesAfter(enabled, turns[..n])
    ensures var e := FilesAfter(enabled, turns[..n])[turns[n].key];
      && !e.payload.stale && Stored(enabled, turns, n, i, e.payload.price)
      && e.storedAt == turns[i].call.storeAt
  {
    DisabledStaysEmpty(turns[..n]);
    i := HitIsEarlierAnswer(enabled, turns, n);
  }

  /** The source is asked exactly when no stored answer is young enough. */
  lemma AskedIff(enabled: bool, turns: seq<Turn>, n: nat)
    requires CleanRun(turns) && n < |turns|
    ensures Asks(FilesAfter(enabled, turns[..n]), turns[n]) <==>
      !exists i: nat, p: Price :: YoungAnswer(enabled, turns, n, i, p)
  {
    if turns[n].key in FilesAfter(enabled, turns[..n]) {
      var i := OnFileIsStored(enabled, turns, n);
      var p := FilesAfter(enabled, turns[..n])[turns[n].key].payload.price;
      assert !Asks(FilesAfter(enabled, turns[..n]), turns[n]) ==> YoungAnswer(enabled, turns, n, i, p);
    }
    forall i: nat, p: Price | YoungAnswer(enabled, turns, n, i, p)
      ensures !Asks(FilesAfter(enabled, turns[..n]), turns[n])
    {
      StoredIsOnFile(enabled, turns, n, i, p);
    }
  }

  /** A stored answer that is young enough is what the query returns, whatever the source would have said. */
  lemma YoungAnswerReturned(enabled: bool, turns: seq<Turn>, n: nat, i: nat, p: Price)
    requires CleanRun(turns) && n < |turns| && YoungAnswer(enabled, turns, n, i, p)
    ensures AnswerTo(FilesAfter(enabled, turns[..n]), turns[n]) == Success(Quote(p, false))
    ensures !Answered(enabled, turns, n)
  {
    StoredIsOnFile(enabled, turns, n, i, p);
  }

  /** What turn `n` returns, told from the answers before it. */
  ghost predicate Justified(enabled: bool, turns: seq<Turn>, n: nat, r: Result<Quote, string>)
    requires n < |turns|
  {
    if exists i: nat, p: Price :: YoungAnswer(enabled, turns, n, i, p) then
      exists i: nat, p: Price :: YoungAnswer(enabled, turns, n, i, p) && r == Success(Quote(p, false))
    else
      match turns[n].call.answer
      case Success(p) => r == Success(Quote(p, false))
      case Failure(e) =>
        if exists i: nat, p: Price :: Stored(enabled, turns, n, i, p) then
          exists i: nat, p: Price :: Stored(enabled, turns, n, i, p) && r == Success(Quote(p, true))
        else r == Failure(e)
  }

  lemma StaleOrError(enabled: bool, turns: seq<Turn>, n: nat)
    requires CleanRun(turns) && n < |turns| && turns[n].call.answer.Failure?
    requires Asks(FilesAfter(enabled, turns[..n]), turns[n])
    ensures var r := AnswerTo(FilesAfter(enabled, turns[..n]), turns[n]);
      if exists i: nat, p: Price :: Stored(enabled, turns, n, i, p) then
        exists i: nat, p: Price :: Stored(enabled, turns, n, i, p) && r == Success(Quote(p, true))
      else r == Failure(turns[n].call.answer.error)
  {
    if turns[n].key in FilesAfter(enabled, turns[..n]) {
      var i := OnFileIsStored(enabled, turns, n);
    } else {
      forall i: nat, p: Price | Stored(enabled, turns, n, i, p) ensures false {
        StoredIsOnFile(enabled, turns, n, i, p);
      }
    }
  }

  /**
   Over every run of clean queries from an empty cache, whatever the source, clock and disk do,
   a query returns the last stored answer to the same query if that is young enough; otherwise
   the source's own answer of this call; if the source fails, the stored answer of whatever age
   marked stale; and the source's error only where no answer is stored.
   */
  lemma QuoteAgreesWithSource(enabled: bool, turns: seq<Turn>, n: nat)
    requires CleanRun(turns) && n < |turns|
    ensures Justified(enabled, turns, n, AnswerTo(FilesAfter(enabled, turns[..n]), turns[n]))
  {
    AskedIff(enabled, turns, n);
    if i: nat, p: Price :| YoungAnswer(enabled, turns, n, i, p) {
      YoungAnswerReturned(enabled, turns, n, i, p);
    } else if turns[n].call.answer.Failure? {
      StaleOrError(enabled, turns, n);
    }
  }

  // ---- Foreign prices ----

  /** Right after `c`, on an empty cache, `d` is given the answer to `c`, which is not the one to `d`. */
  ghost predicate GivenForeignPrice(c: Call, d: Call) {
    && Without(c.family, '|')
    && (c.family != d.family || c.attrs != d.attrs)
    && c.answer.Success? && d.answer != c.answer
    && AnswerTo(FilesNext(true, map[], TurnOf(c)), TurnOf(d)) == Success(Quote(c.answer.value, false))
  }

  ghost predicate ForeignPricePossible(family: string, attrs: map<string, string>) {
    exists c: Call, d: Call :: d.family == family && d.attrs == attrs && GivenForeignPrice(c, d)
  }

  lemma ForeignPriceSharesKey(c: Call, d: Call)
    requires GivenForeignPrice(c, d)
    ensures TurnOf(c).key == TurnOf(d).key
  {
  }

  lemma SharedKeyGivesForeignPrice(c: Call, d: Call)
    requires TurnOf(c).key == TurnOf(d).key
    requires Without(c.family, '|') && (c.family != d.family || c.attrs != d.attrs)
    requires c.answer.Success? && d.answer.Failure? && c.write == Written
    requires d.loadAt - c.storeAt < EffectiveTtl(d.ttl)
    ensures GivenForeignPrice(c, d)
  {
  }

  lemma ForeignPriceOf(family: string, attrs: map<string, string>, f: string, a: map<string, string>)
    requires Without(f, '|') && (f != family || a != attrs) && KeyOf(f, a) == KeyOf(family, attrs)
    ensures ForeignPricePossible(family, attrs)
  {
    var c := Call(f, a, 0, 0, Success(Price(1.0, "USD", "", "")), 0, Written, []);
    var d := Call(family, attrs, 0, 0, Failure(""), 0, Written, []);
    SharedKeyGivesForeignPrice(c, d);
  }

  lemma ForeignPriceNeedsShared(family: string, attrs: map<string, string>, c: Call, d: Call)
    requires d.family == family && d.attrs == attrs && GivenForeignPrice(c, d)
    ensures KeyShared(family, attrs)
  {
    ForeignPriceSharesKey(c, d);
    assert KeyOf(c.family, c.attrs) == KeyOf(family, attrs);
  }

  /** A query can be given the price of another as its own, fresh, exactly when their keys can meet. */
  lemma ForeignPriceIff(family: string, attrs: map<string, string>)
    requires Without(family, '|')
    ensures ForeignPricePossible(family, attrs) <==> Regroupable(attrs)
  {
    KeySharedIff(family, attrs);
    if KeyShared(family, attrs) {
      var f: string, a: map<string, string> :|
        Without(f, '|') && (f != family || a != attrs) && KeyOf(f, a) == KeyOf(family, attrs);
      ForeignPriceOf(family, attrs, f, a);
    }
    if ForeignPricePossible(family, attrs) {
      var c: Call, d: Call :| d.family == family && d.attrs == attrs && GivenForeignPrice(c, d);
      ForeignPriceNeedsShared(family, attrs, c, d);
    }
  }
}
