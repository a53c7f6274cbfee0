/**
 The request signature: percent-encoding, the canonical query and the string to sign. A
 string is a sequence of bytes, each a character below 256; the keyed hash is a parameter.
 */
module Signing {
  import opened Wrappers
  import opened Sequences
  import opened StringOrder
  import opened Cutting

  ghost predicate IsBytes(s: string) {
    forall i :: 0 <= i < |s| ==> s[i] as int < 256
  }

  ghost predicate AllBytes(m: map<string, string>) {
    forall k :: k in m ==> IsBytes(k) && IsBytes(m[k])
  }

  // ---- Percent-encoding ----

  predicate Unreserved(c: char) {
    'A' <= c <= 'Z' || 'a' <= c <= 'z' || '0' <= c <= '9' || c == '-' || c == '_' || c == '.' || c == '~'
  }

  const HEX := "0123456789ABCDEF"

  function HexDigit(n: int): (c: char) {
    HEX[n % 16]
  }

  function EncodeByte(c: char): string {
    if Unreserved(c) then [c] else ['%', HexDigit(c as int / 16), HexDigit(c as int)]
  }

  function Encoded(s: string): string {
    if s == "" then "" else EncodeByte(s[0]) + Encoded(s[1..])
  }

  lemma EncodedStep(s: string, i: nat, before: string)
    requires i < |s|
    ensures before + Encoded(s[i..]) == (before + EncodeByte(s[i])) + Encoded(s[i + 1..])
  {
    assert s[i..][1..] == s[i + 1..];
  }

  method PopEncode(s: string) returns (out: string)
    ensures out == Encoded(s)
  {
    out := "";
    var i := 0;
    while i < |s|
      invariant 0 <= i <= |s|
      invariant out + Encoded(s[i..]) == Encoded(s)
    {
      EncodedStep(s, i, out);
      ghost var piece := EncodeByte(s[i]);
      if Unreserved(s[i]) {
        assert piece == [s[i]];
        out := out + [s[i]];
      } else {
        assert piece == ['%', HexDigit(s[i] as int / 16), HexDigit(s[i] as int)];
        out := out + ['%', HexDigit(s[i] as int / 16), HexDigit(s[i] as int)];
      }
      i := i + 1;
    }
    assert s[i..] == "";
  }

  /** The value of an upper-case hexadecimal digit. */
  function DigitValue(c: char): Option<nat> {
    if '0' <= c <= '9' then Some(c as int - '0' as int)
    else if 'A' <= c <= 'F' then Some(c as int - 'A' as int + 10)
    else None
  }

  /** Percent-decoding, as in sections 2.1 and 2.3 of RFC 3986; `None` for what no encoding yields. */
  function Decoded(t: string): Option<string>
    decreases |t|
  {
    if t == "" then Some("")
    else if Unreserved(t[0]) then
      match Decoded(t[1..]) { case None => None case Some(rest) => Some([t[0]] + rest) }
    else if t[0] == '%' && |t| >= 3 && DigitValue(t[1]).Some? && DigitValue(t[2]).Some? then
      var c := (16 * DigitValue(t[1]).value + DigitValue(t[2]).value) as char;
      match Decoded(t[3..]) { case None => None case Some(rest) => Some([c] + rest) }
    else None
  }

  lemma DigitRoundTrip(n: int)
    requires 0 <= n
    ensures DigitValue(HexDigit(n)) == Some(n % 16)
  {
    var d := n % 16;
    assert 0 <= d < 16;
    assert HEX[d] == if d < 10 then ('0' as int + d) as char else ('A' as int + d - 10) as char;
  }

  /** Decoding undoes encoding on every byte string. */
  lemma {:induction false} DecodeEncode(s: string)
    requires IsBytes(s)
    ensures Decoded(Encoded(s)) == Some(s)
  {
    if s == "" {
    } else {
      DecodeEncode(s[1..]);
      var rest := Encoded(s[1..]);
      if Unreserved(s[0]) {
        assert Encoded(s)[1..] == rest;
      } else {
        DecodeEscape(s[0], rest);
      }
      assert [s[0]] + s[1..] == s;
    }
  }

  lemma DecodeHex(high: char, low: char, n: nat, rest: string)
    requires n < 256 && DigitValue(high) == Some(n / 16) && DigitValue(low) == Some(n % 16)
    ensures Decoded(['%', high, low] + rest) ==
      match Decoded(rest) { case None => None case Some(r) => Some([n as char] + r) }
  {
    var t := ['%', high, low] + rest;
    assert t[3..] == rest && t[0] == '%' && t[1] == high && t[2] == low;
    assert 16 * (n / 16) + n % 16 == n;
  }

  lemma HexDigits(n: nat)
    requires n < 256
    ensures DigitValue(HexDigit(n / 16)) == Some(n / 16) && DigitValue(HexDigit(n)) == Some(n % 16)
  {
    DigitRoundTrip(n / 16);
    DigitRoundTrip(n);
  }

  lemma DecodeEscape(c: char, rest: string)
    requires c as int < 256 && !Unreserved(c) && Decoded(rest).Some?
    ensures Decoded(EncodeByte(c) + rest) == Some([c] + Decoded(rest).value)
  {
    HexDigits(c as int);
    DecodeHex(HexDigit(c as int / 16), HexDigit(c as int), c as int, rest);
  }

  predicate Plain(c: char) {
    Unreserved(c) || c == '%'
  }

  /** An encoding holds unreserved characters and percent signs only: neither `&` nor `=`. */
  lemma {:induction false} EncodedIsPlain(s: string)
    ensures forall i :: 0 <= i < |Encoded(s)| ==> Plain(Encoded(s)[i])
  {
    if s == "" {
    } else {
      EncodedIsPlain(s[1..]);
      HexIsPlain(s[0] as int / 16);
      HexIsPlain(s[0] as int);
    }
  }

  lemma HexIsPlain(n: int)
    ensures Unreserved(HexDigit(n))
  {
  }

  lemma EncodedCons(c: char, s: string)
    ensures Encoded([c] + s) == EncodeByte(c) + Encoded(s)
  {
    hide EncodeByte;
    assert ([c] + s)[1..] == s && ([c] + s)[0] == c;
  }

  lemma Regroup(a: string, b: string, c: string)
    ensures a + b + c == a + (b + c)
  {
  }

  lemma {:induction false} EncodedAppend(a: string, b: string)
    ensures Encoded(a + b) == Encoded(a) + Encoded(b)
  {
    hide *;
    if a == "" {
      assert a + b == b;
      EncodedEmpty();
    } else {
      var c, rest := a[0], a[1..];
      EncodedAppend(rest, b);
      assert a == [c] + rest;
      Regroup([c], rest, b);
      EncodedCons(c, rest);
      EncodedCons(c, rest + b);
      Regroup(EncodeByte(c), Encoded(rest), Encoded(b));
    }
  }

  lemma EncodedEmpty()
    ensures Encoded("") == ""
  {
  }

  /** The digit of a value below sixteen. */
  function Hex(d: nat): char
    requires d < 16
  {
    if d < 10 then (48 + d) as char else (55 + d) as char
  }

  /** Letters, digits, hyphen, underscore, period and tilde. */
  predicate Kept(n: nat) {
    65 <= n <= 90 || 97 <= n <= 122 || 48 <= n <= 57 || n == 45 || n == 95 || n == 46 || n == 126
  }

  /** A byte that stands for itself, or a percent sign and its two upper-case hexadecimal digits. */
  function Written(c: char): string
    requires c as int < 256
  {
    var n := c as int;
    if Kept(n) then [c] else ['%', Hex(n / 16), Hex(n % 16)]
  }

  lemma KeptIff(c: char)
    ensures Unreserved(c) <==> Kept(c as int)
  {
  }

  lemma OneByteWritten(c: char)
    requires c as int < 256
    ensures EncodeByte(c) == Written(c)
  {
    KeptIff(c);
    HexIsDigit(c as int / 16);
    HexIsDigit(c as int);
    hide Unreserved, Kept, HexDigit, Hex;
  }

  /** Encoding writes every byte of a string so, wherever it stands. */
  lemma EncodedBytes(a: string, c: char, b: string)
    requires c as int < 256
    ensures Encoded(a + [c] + b) == Encoded(a) + Written(c) + Encoded(b)
  {
    EncodedAppend(a + [c], b);
    EncodedAppend(a, [c]);
    assert [c][1..] == "";
    assert Encoded([c]) == EncodeByte(c);
    hide EncodeByte;
    OneByteWritten(c);
  }

  lemma HexIsDigit(n: nat)
    ensures HexDigit(n) == Hex(n % 16)
  {
    var d := n % 16;
    assert HEX[d] == if d < 10 then ('0' as int + d) as char else ('A' as int + d - 10) as char;
  }

  // ---- The canonical query ----

  function RawPair(k: string, v: string): string {
    k + ['='] + v
  }

  function CanonicalPair(k: string, v: string): string {
    RawPair(Encoded(k), Encoded(v))
  }

  function CanonicalPairs(m: map<string, string>, keys: seq<string>): (pairs: seq<string>)
    requires forall i :: 0 <= i < |keys| ==> keys[i] in m
    ensures |pairs| == |keys|
  {
    seq(|keys|, i requires 0 <= i < |keys| => CanonicalPair(keys[i], m[keys[i]]))
  }

  function Join(parts: seq<string>, separator: char): string {
    if parts == [] then ""
    else if |parts| == 1 then parts[0]
    else parts[0] + [separator] + Join(parts[1..], separator)
  }

  ghost function Canonical(m: map<string, string>): string {
    Join(CanonicalPairs(m, SortedKeys(m.Keys)), '&')
  }

  const PREFIX := "GET&%2F&"

  ghost function StringToSign(m: map<string, string>): string {
    PREFIX + Encoded(Canonical(m))
  }

  /** Literally: the parameters in byte order of their names, joined, encoded once more and prefixed. */
  lemma StringToSignIs(m: map<string, string>, keys: seq<string>, pairs: seq<string>)
    requires Enumerates(keys, m.Keys) && |pairs| == |keys|
    requires forall i, j :: 0 <= i < j < |keys| ==> ByteOrder(keys[i], keys[j])
    requires forall i :: 0 <= i < |keys| ==> keys[i] in m && pairs[i] == Encoded(keys[i]) + "=" + Encoded(m[keys[i]])
    ensures StringToSign(m) == "GET&%2F&" + Encoded(Join(pairs, '&'))
  {
    PairsAre(m, keys, pairs);
    SortedKeysIff(m.Keys, keys);
    hide CanonicalPairs, Join, Encoded, ByteOrder;
  }

  lemma PairsAre(m: map<string, string>, keys: seq<string>, pairs: seq<string>)
    requires |pairs| == |keys|
    requires forall i :: 0 <= i < |keys| ==> keys[i] in m && pairs[i] == Encoded(keys[i]) + "=" + Encoded(m[keys[i]])
    ensures pairs == CanonicalPairs(m, keys)
  {
    hide Encoded;
  }

  // ---- Reading it back ----

  function ParsePair(p: string): Option<(string, string)> {
    var i := IndexOf(p, '=');
    if i == |p| then None else
    match (Decoded(p[..i]), Decoded(p[i + 1..]))
    case (Some(k), Some(v)) => Some((k, v))
    case _ => None
  }

  function ParseQuery(q: string): Option<map<string, string>>
    decreases |q|
  {
    if q == "" then Some(map[]) else
    var i := IndexOf(q, '&');
    match ParsePair(q[..i])
    case None => None
    case Some((k, v)) =>
      if i == |q| then Some(map[k := v])
      else match ParseQuery(q[i + 1..])
        case None => None
        case Some(m) => Some(m[k := v])
  }

  /** The parameters a string to sign was made from. */
  function ReadBack(s: string): Option<map<string, string>> {
    if |s| < |PREFIX| then None else
    match Decoded(s[|PREFIX|..])
    case None => None
    case Some(q) => ParseQuery(q)
  }

  lemma ParsePairOf(a: string, b: string, k: string, v: string)
    requires Decoded(a) == Some(k) && Decoded(b) == Some(v)
    requires forall i :: 0 <= i < |a| ==> a[i] != '='
    ensures ParsePair(a + ['='] + b) == Some((k, v))
  {
    CutAt(a, '=', b);
  }

  lemma PairIsPlain(a: string, b: string)
    requires forall i :: 0 <= i < |a| ==> Plain(a[i])
    requires forall i :: 0 <= i < |b| ==> Plain(b[i])
    ensures var p := a + ['='] + b;
      p != "" && IsBytes(p) && forall i :: 0 <= i < |p| ==> p[i] != '&'
  {
  }

  lemma PairRoundTrip(k: string, v: string)
    requires IsBytes(k) && IsBytes(v)
    ensures var p := CanonicalPair(k, v);
      && ParsePair(p) == Some((k, v))
      && p != "" && IsBytes(p) && (forall i :: 0 <= i < |p| ==> p[i] != '&')
  {
    var a, b := Encoded(k), Encoded(v);
    EncodedIsPlain(k);
    EncodedIsPlain(v);
    DecodeEncode(k);
    DecodeEncode(v);
    ParsePairOf(a, b, k, v);
    PairIsPlain(a, b);
  }

  lemma ParseQueryStep(p: string, rest: string, k: string, v: string)
    requires p != "" && ParsePair(p) == Some((k, v))
    requires forall i :: 0 <= i < |p| ==> p[i] != '&'
    ensures ParseQuery(p) == Some(map[k := v])
    ensures ParseQuery(rest).Some? ==> ParseQuery(p + ['&'] + rest) == Some(ParseQuery(rest).value[k := v])
  {
    CutAt(p, '&', rest);
    assert p[..|p|] == p;
    var q := p + ['&'] + rest;
    assert q != "";
  }

  /** Later pairs give way to earlier ones. */
  function FromPairs(kvs: seq<(string, string)>): map<string, string> {
    if kvs == [] then map[] else FromPairs(kvs[1..])[kvs[0].0 := kvs[0].1]
  }

  ghost predicate Parses(p: string, kv: (string, string)) {
    p != "" && ParsePair(p) == Some(kv) && forall i :: 0 <= i < |p| ==> p[i] != '&'
  }

  lemma {:induction false} JoinedParses(parts: seq<string>, kvs: seq<(string, string)>)
    requires |parts| == |kvs| && forall i :: 0 <= i < |parts| ==> Parses(parts[i], kvs[i])
    ensures ParseQuery(Join(parts, '&')) == Some(FromPairs(kvs))
  {
    if parts == [] {
    } else {
      assert Parses(parts[0], kvs[0]);
      JoinedParses(parts[1..], kvs[1..]);
      ParseQueryStep(parts[0], Join(parts[1..], '&'), kvs[0].0, kvs[0].1);
      if |parts| == 1 {
        assert kvs[1..] == [];
      }
    }
  }

  lemma {:induction false} JoinedBytes(parts: seq<string>)
    requires forall i :: 0 <= i < |parts| ==> IsBytes(parts[i])
    ensures IsBytes(Join(parts, '&'))
  {
    if |parts| > 1 {
      JoinedBytes(parts[1..]);
    }
  }

  function PairsUnder(m: map<string, string>, keys: seq<string>): (kvs: seq<(string, string)>)
    requires forall i :: 0 <= i < |keys| ==> keys[i] in m
    ensures |kvs| == |keys|
  {
    seq(|keys|, i requires 0 <= i < |keys| => (keys[i], m[keys[i]]))
  }

  lemma {:induction false} QueryRoundTrip(m: map<string, string>, keys: seq<string>)
    requires AllBytes(m)
    requires forall i :: 0 <= i < |keys| ==> keys[i] in m
    ensures ParseQuery(Join(CanonicalPairs(m, keys), '&')) == Some(FromPairs(PairsUnder(m, keys)))
    ensures IsBytes(Join(CanonicalPairs(m, keys), '&'))
  {
    var parts, kvs := CanonicalPairs(m, keys), PairsUnder(m, keys);
    forall i | 0 <= i < |parts| ensures Parses(parts[i], kvs[i]) && IsBytes(parts[i]) {
      PairRoundTrip(keys[i], m[keys[i]]);
    }
    JoinedParses(parts, kvs);
    JoinedBytes(parts);
  }

  lemma {:induction false} FromPairsIs(m: map<string, string>, keys: seq<string>)
    requires forall i :: 0 <= i < |keys| ==> keys[i] in m
    ensures var r := FromPairs(PairsUnder(m, keys));
      && (forall k :: k in r ==> k in m && r[k] == m[k])
      && (forall i :: 0 <= i < |keys| ==> keys[i] in r)
  {
    if keys != [] {
      FromPairsIs(m, keys[1..]);
      assert PairsUnder(m, keys)[1..] == PairsUnder(m, keys[1..]);
      assert forall i :: 1 <= i < |keys| ==> keys[1..][i - 1] == keys[i];
    }
  }

  /** Every parameter map can be read back from its string to sign. */
  lemma {:induction false} StringToSignReadsBack(m: map<string, string>)
    requires AllBytes(m)
    ensures ReadBack(StringToSign(m)) == Some(m)
  {
    var keys := SortedKeys(m.Keys);
    QueryRoundTrip(m, keys);
    ReadBackOf(Canonical(m));
    FromPairsIsAll(m, keys);
  }

  lemma FromPairsIsAll(m: map<string, string>, keys: seq<string>)
    requires Enumerates(keys, m.Keys) && forall i :: 0 <= i < |keys| ==> keys[i] in m
    ensures FromPairs(PairsUnder(m, keys)) == m
  {
    FromPairsIs(m, keys);
    var r := FromPairs(PairsUnder(m, keys));
    forall k | k in m ensures k in r {
      EnumerationCovers(keys, m.Keys, k);
    }
    assert r.Keys == m.Keys;
  }

  lemma ReadBackOf(q: string)
    requires IsBytes(q)
    ensures ReadBack(PREFIX + Encoded(q)) == ParseQuery(q)
  {
    DecodeEncode(q);
    assert (PREFIX + Encoded(q))[|PREFIX|..] == Encoded(q);
  }

  /** So different parameters never share a string to sign. */
  lemma {:induction false} StringToSignInjective(m: map<string, string>, m': map<string, string>)
    requires AllBytes(m) && AllBytes(m')
    requires StringToSign(m) == StringToSign(m')
    ensures m == m'
  {
    StringToSignReadsBack(m);
    StringToSignReadsBack(m');
  }

  // ---- The signed parameters ----

  const SIGNATURE := "Signature"

  function QueryPairs(m: map<string, string>, keys: seq<string>): (pairs: seq<string>)
    requires forall i :: 0 <= i < |keys| ==> keys[i] in m
    ensures |pairs| == |keys|
  {
    seq(|keys|, i requires 0 <= i < |keys| => RawPair(keys[i], Encoded(m[keys[i]])))
  }

  function AllPairs(m: map<string, string>, keys: seq<string>, sig: string): (pairs: seq<string>)
    requires forall i :: 0 <= i < |keys| ==> keys[i] in m
    ensures |pairs| == |keys| + 1
  {
    QueryPairs(m, keys) + [RawPair(SIGNATURE, Encoded(sig))]
  }

  ghost predicate Separable(pairs: seq<string>) {
    forall i :: 0 <= i < |pairs| ==> IndexOf(pairs[i], '=') < |pairs[i]|
  }

  /** Each pair cut at its first `=`, later pairs replacing earlier ones. */
  ghost function CutPairs(pairs: seq<string>): map<string, string>
    requires Separable(pairs)
  {
    if pairs == [] then map[] else
    var p := pairs[|pairs| - 1];
    var i := IndexOf(p, '=');
    CutPairs(pairs[..|pairs| - 1])[p[..i] := p[i + 1..]]
  }

  lemma HasSeparator(k: string, v: string)
    ensures IndexOf(RawPair(k, v), '=') < |RawPair(k, v)|
  {
    assert RawPair(k, v)[|k|] == '=';
  }

  lemma AllSeparable(m: map<string, string>, keys: seq<string>, sig: string)
    requires forall i :: 0 <= i < |keys| ==> keys[i] in m
    ensures Separable(AllPairs(m, keys, sig))
    ensures Separable(QueryPairs(m, keys))
  {
    forall i | 0 <= i < |keys| ensures IndexOf(QueryPairs(m, keys)[i], '=') < |QueryPairs(m, keys)[i]| {
      HasSeparator(keys[i], Encoded(m[keys[i]]));
    }
    HasSeparator(SIGNATURE, Encoded(sig));
  }

  ghost function Signed(m: map<string, string>, sig: string): map<string, string> {
    AllSeparable(m, SortedKeys(m.Keys), sig);
    CutPairs(AllPairs(m, SortedKeys(m.Keys), sig))
  }

  /**
   Signs `params`; `order` is the order the map happens to be iterated in, and has no
   influence on the result.
   */
  method RpcSign(params: map<string, string>, secret: string, mac: (string, string) -> string, order: seq<string>)
    returns (out: map<string, string>)
    requires Enumerates(order, params.Keys)
    ensures out == Signed(params, mac(secret + "&", StringToSign(params)))
  {
    var keys := Sort(order);
    SortForgetsOrder(order, params.Keys);
    EnumerationWithin(keys, params.Keys);
    var pairs, canonical := BuildPairs(params, keys);
    var query := PopEncode(Join(canonical, '&'));
    var sig := mac(secret + "&", PREFIX + query);
    var encodedSig := PopEncode(sig);
    pairs := pairs + [RawPair(SIGNATURE, encodedSig)];
    AllSeparable(params, keys, sig);
    out := CutAll(pairs);
  }

  /** The loop over the sorted keys. */
  method BuildPairs(params: map<string, string>, keys: seq<string>) returns (pairs: seq<string>, canonical: seq<string>)
    requires forall i :: 0 <= i < |keys| ==> keys[i] in params
    ensures pairs == QueryPairs(params, keys)
    ensures canonical == CanonicalPairs(params, keys)
  {
    pairs, canonical := [], [];
    var i := 0;
    while i < |keys|
      invariant 0 <= i <= |keys|
      invariant pairs == QueryPairs(params, keys)[..i]
      invariant canonical == CanonicalPairs(params, keys)[..i]
    {
      var k := keys[i];
      var ek := PopEncode(k);
      var ev := PopEncode(params[k]);
      TakeOneMore(QueryPairs(params, keys), i);
      TakeOneMore(CanonicalPairs(params, keys), i);
      pairs := pairs + [RawPair(k, ev)];
      canonical := canonical + [RawPair(ek, ev)];
      i := i + 1;
    }
    TakeAll(pairs, QueryPairs(params, keys));
    TakeAll(canonical, CanonicalPairs(params, keys));
  }

  /** The loop over the pairs. */
  method CutAll(pairs: seq<string>) returns (out: map<string, string>)
    requires Separable(pairs)
    ensures out == CutPairs(pairs)
  {
    out := map[];
    var i := 0;
    while i < |pairs|
      invariant 0 <= i <= |pairs|
      invariant out == CutPairs(pairs[..i])
    {
      assert pairs[..i + 1][..i] == pairs[..i];
      var cut := IndexOf(pairs[i], '=');
      out := out[pairs[i][..cut] := pairs[i][cut + 1..]];
      i := i + 1;
    }
    assert pairs[..i] == pairs;
  }

  predicate HasNoEquals(k: string) {
    forall i :: 0 <= i < |k| ==> k[i] != '='
  }

  lemma {:induction false} CutKeysHaveNoEquals(pairs: seq<string>, k: string)
    requires Separable(pairs)
    requires k in CutPairs(pairs)
    ensures HasNoEquals(k)
  {
    var n := |pairs| - 1;
    if k != pairs[n][..IndexOf(pairs[n], '=')] {
      CutKeysHaveNoEquals(pairs[..n], k);
    }
  }

  lemma CutOneMore(pairs: seq<string>, k: string, v: string)
    requires Separable(pairs) && HasNoEquals(k)
    ensures Separable(pairs + [RawPair(k, v)])
    ensures CutPairs(pairs + [RawPair(k, v)]) == CutPairs(pairs)[k := v]
  {
    CutAt(k, '=', v);
    assert (pairs + [RawPair(k, v)])[..|pairs|] == pairs;
  }

  lemma QueryPairsStep(m: map<string, string>, keys: seq<string>)
    requires keys != [] && forall i :: 0 <= i < |keys| ==> keys[i] in m
    ensures var n := |keys| - 1;
      QueryPairs(m, keys) == QueryPairs(m, keys[..n]) + [RawPair(keys[n], Encoded(m[keys[n]]))]
  {
  }

  /** The encoded values of `m` under `keys`. */
  function EncodedUnder(m: map<string, string>, keys: seq<string>): map<string, string>
    requires forall i :: 0 <= i < |keys| ==> keys[i] in m
  {
    if keys == [] then map[] else
    var k := keys[|keys| - 1];
    EncodedUnder(m, keys[..|keys| - 1])[k := Encoded(m[k])]
  }

  lemma {:induction false} EncodedUnderIs(m: map<string, string>, keys: seq<string>)
    requires forall i :: 0 <= i < |keys| ==> keys[i] in m
    ensures forall i :: 0 <= i < |keys| ==> keys[i] in EncodedUnder(m, keys)
    ensures forall k :: k in EncodedUnder(m, keys) ==> k in m && EncodedUnder(m, keys)[k] == Encoded(m[k])
  {
    if keys != [] {
      var n := |keys| - 1;
      EncodedUnderIs(m, keys[..n]);
      assert forall i :: 0 <= i < n ==> keys[..n][i] == keys[i];
    }
  }

  lemma {:induction false} CutQueryPairs(m: map<string, string>, keys: seq<string>)
    requires forall i :: 0 <= i < |keys| ==> keys[i] in m && HasNoEquals(keys[i])
    ensures Separable(QueryPairs(m, keys))
    ensures CutPairs(QueryPairs(m, keys)) == EncodedUnder(m, keys)
  {
    if keys == [] {
    } else {
      var n := |keys| - 1;
      CutQueryPairs(m, keys[..n]);
      QueryPairsStep(m, keys);
      CutOneMore(QueryPairs(m, keys[..n]), keys[n], Encoded(m[keys[n]]));
    }
  }

  lemma SignedParts(m: map<string, string>, sig: string)
    requires NamesHaveNoEquals(m)
    ensures Signed(m, sig) == (map k | k in m :: Encoded(m[k]))[SIGNATURE := Encoded(sig)]
  {
    var keys := SortedKeys(m.Keys);
    CutsToAll(m, keys);
    CutOneMore(QueryPairs(m, keys), SIGNATURE, Encoded(sig));
  }

  lemma CutsToAll(m: map<string, string>, keys: seq<string>)
    requires Enumerates(keys, m.Keys)
    requires forall i :: 0 <= i < |keys| ==> keys[i] in m && HasNoEquals(keys[i])
    ensures Separable(QueryPairs(m, keys))
    ensures CutPairs(QueryPairs(m, keys)) == map k | k in m :: Encoded(m[k])
  {
    CutQueryPairs(m, keys);
    EncodedUnderIs(m, keys);
    var cut := EncodedUnder(m, keys);
    forall k | k in m ensures k in cut {
      EnumerationCovers(keys, m.Keys, k);
    }
  }

  ghost predicate NamesHaveNoEquals(m: map<string, string>) {
    forall k :: k in m ==> HasNoEquals(k)
  }

  /** Every parameter comes out encoded under its own name. */
  ghost predicate ParametersKept(m: map<string, string>, sig: string) {
    forall k :: k in m ==> k in Signed(m, sig) && Signed(m, sig)[k] == Encoded(m[k])
  }

  /** No parameter the signature would replace by something else. */
  predicate SignatureFree(m: map<string, string>, sig: string) {
    SIGNATURE in m ==> Encoded(m[SIGNATURE]) == Encoded(sig)
  }

  lemma KeptWithoutEquals(m: map<string, string>, sig: string)
    requires NamesHaveNoEquals(m)
    ensures ParametersKept(m, sig) <==> SignatureFree(m, sig)
    ensures Signed(m, sig).Keys == m.Keys + {SIGNATURE} && Signed(m, sig)[SIGNATURE] == Encoded(sig)
  {
    SignedParts(m, sig);
    AddedSignature(m, Signed(m, sig), Encoded(sig));
  }

  lemma AddedSignature(m: map<string, string>, r: map<string, string>, s: string)
    requires r == (map k | k in m :: Encoded(m[k]))[SIGNATURE := s]
    ensures r.Keys == m.Keys + {SIGNATURE} && r[SIGNATURE] == s
    ensures forall k :: k in m && k != SIGNATURE ==> k in r && r[k] == Encoded(m[k])
  {
  }

  /**
   Every parameter is kept exactly when no parameter name holds an equals sign and none is
   named like the signature; the signature is then the only addition.
   */
  lemma ParametersKeptIff(m: map<string, string>, sig: string)
    ensures ParametersKept(m, sig) <==> NamesHaveNoEquals(m) && SignatureFree(m, sig)
    ensures NamesHaveNoEquals(m) ==>
      Signed(m, sig).Keys == m.Keys + {"Signature"} && Signed(m, sig)["Signature"] == Encoded(sig)
  {
    if NamesHaveNoEquals(m) {
      KeptWithoutEquals(m, sig);
    } else {
      var k :| k in m && !HasNoEquals(k);
      NameWithEqualsLost(m, sig, k);
    }
  }

  lemma NameWithEqualsLost(m: map<string, string>, sig: string, k: string)
    requires !HasNoEquals(k)
    ensures k !in Signed(m, sig)
  {
    var keys := SortedKeys(m.Keys);
    AllSeparable(m, keys, sig);
    if k in Signed(m, sig) {
      CutKeysHaveNoEquals(AllPairs(m, keys, sig), k);
    }
  }
}
