/** The request signature of the SMS gateway client (AliSmsSender.Sign in
    sms/sms_sender.go): the parameter names in ascending byte order, each
    followed by its first value, the whole wrapped in the application secret,
    digested with MD5 and printed as upper-case hex.  MD5 of the string's
    UTF-8 bytes is a parameter `md5`, an opaque function of the string. */
module SmsSender {

  type Byte = b: int | 0 <= b < 256

  /** url.Values: each parameter name with the values added under it, in order. */
  type Values = map<string, seq<string>>

  datatype AliSmsSender = AliSmsSender(
    appKey: string, appSecret: string, format: string, version: string,
    apiMethod: string, signMethod: string, smsFreeSignName: string)

  /** url.Values.Get: the first value of the parameter, or "". */
  function Get(data: Values, key: string): (v: string)
    ensures key in data && |data[key]| > 0 ==> v == data[key][0]
    ensures key !in data || data[key] == [] ==> v == ""
  {
    if key in data && |data[key]| > 0 then data[key][0] else ""
  }

  // ------------------------------------------------------------ byte order

  /** Go's `<` on strings: lexicographic on bytes.  UTF-8 preserves the order
      of code points, so comparing characters gives the same order. */
  predicate Less(a: string, b: string) {
    if a == [] then b != []
    else b != [] && (a[0] < b[0] || (a[0] == b[0] && Less(a[1..], b[1..])))
  }

  lemma {:induction false} LessIrreflexive(a: string)
    ensures !Less(a, a)
  {
    if a != [] {
      LessIrreflexive(a[1..]);
    }
  }

  lemma {:induction false} LessAsymmetric(a: string, b: string)
    requires Less(a, b)
    ensures !Less(b, a)
  {
    if a != [] && a[0] == b[0] {
      LessAsymmetric(a[1..], b[1..]);
    }
  }

  lemma {:induction false} LessTransitive(a: string, b: string, c: string)
    requires Less(a, b) && Less(b, c)
    ensures Less(a, c)
  {
    if a != [] && a[0] == b[0] && b[0] == c[0] {
      LessTransitive(a[1..], b[1..], c[1..]);
    }
  }

  lemma {:induction false} LessTotal(a: string, b: string)
    requires a != b
    ensures Less(a, b) || Less(b, a)
  {
    if a != [] && b != [] && a[0] == b[0] {
      assert a == [a[0]] + a[1..] && b == [b[0]] + b[1..];
      LessTotal(a[1..], b[1..]);
    }
  }

  /** "Not after" is transitive too. */
  lemma NotLessTransitive(a: string, b: string, c: string)
    requires !Less(b, a) && !Less(c, b)
    ensures !Less(c, a)
  {
    if a != b && b != c {
      LessTotal(a, b);
      LessTotal(b, c);
      LessTransitive(a, b, c);
      LessAsymmetric(a, c);
    }
  }

  /** Ascending: no element comes after a later one. */
  predicate Sorted(s: seq<string>) {
    forall i, j :: 0 <= i < j < |s| ==> !Less(s[j], s[i])
  }

  lemma {:induction false} MinimumExists(keys: set<string>)
    requires keys != {}
    ensures exists m :: m in keys && forall x :: x in keys ==> !Less(x, m)
  {
    var y :| y in keys;
    if keys == {y} {
      LessIrreflexive(y);
    } else {
      MinimumExists(keys - {y});
      var m :| m in keys - {y} && forall x :: x in keys - {y} ==> !Less(x, m);
      if Less(y, m) {
        forall x | x in keys
          ensures !Less(x, y)
        {
          if x == y {
            LessIrreflexive(y);
          } else if Less(x, y) {
            LessTransitive(x, y, m);
          }
        }
      } else {
        assert forall x :: x in keys ==> !Less(x, m);
      }
    }
  }

  /** The parameter names in ascending order, each exactly once. */
  ghost function SortedKeys(keys: set<string>): (r: seq<string>)
    ensures Sorted(r) && multiset(r) == multiset(keys)
    decreases |keys|
  {
    if keys == {} then []
    else
      MinimumExists(keys);
      var m :| m in keys && forall x :: x in keys ==> !Less(x, m);
      var rest := SortedKeys(keys - {m});
      MinimumFirst(keys, m, rest);
      [m] + rest
  }

  /** A minimum followed by the rest in ascending order is in ascending order
      and holds the same elements. */
  lemma MinimumFirst(keys: set<string>, m: string, rest: seq<string>)
    requires m in keys && forall x :: x in keys ==> !Less(x, m)
    requires Sorted(rest) && multiset(rest) == multiset(keys - {m})
    ensures Sorted([m] + rest) && multiset([m] + rest) == multiset(keys)
  {
    forall x | x in rest
      ensures x in keys
    {
      assert x in multiset(rest);
    }
    MinimumFirstSorted(keys, m, rest);
    RemoveAddBack(keys, m);
  }

  lemma MinimumFirstSorted(keys: set<string>, m: string, rest: seq<string>)
    requires forall x :: x in keys ==> !Less(x, m)
    requires Sorted(rest) && forall x :: x in rest ==> x in keys
    ensures Sorted([m] + rest)
  {
    var r := [m] + rest;
    forall i, j | 0 <= i < j < |r|
      ensures !Less(r[j], r[i])
    {
      assert r[j] == rest[j - 1];
      if i > 0 {
        assert r[i] == rest[i - 1];
      }
    }
  }

  lemma RemoveAddBack(keys: set<string>, m: string)
    requires m in keys
    ensures multiset(keys) == multiset{m} + multiset(keys - {m})
  {
    assert keys == (keys - {m}) + {m};
  }

  /** Ascending sequences with the same elements start with the same element. */
  lemma SameFirst(s: seq<string>, t: seq<string>)
    requires Sorted(s) && Sorted(t) && multiset(s) == multiset(t) && |s| > 0
    ensures |t| > 0 && s[0] == t[0]
  {
    assert s[0] in multiset(t);
    var j :| 0 <= j < |t| && t[j] == s[0];
    assert t[0] in multiset(s);
    var i :| 0 <= i < |s| && s[i] == t[0];
    if s[0] != t[0] {
      assert i > 0 && j > 0;
      assert !Less(s[0], t[0]) && !Less(t[0], s[0]);
      LessTotal(s[0], t[0]);
    }
  }

  /** Dropping an equal first element keeps the multisets equal. */
  lemma SameRest(s: seq<string>, t: seq<string>)
    requires multiset(s) == multiset(t) && |s| > 0 && |t| > 0 && s[0] == t[0]
    ensures multiset(s[1..]) == multiset(t[1..])
  {
    assert s == [s[0]] + s[1..] && t == [t[0]] + t[1..];
    assert multiset(s) == multiset{s[0]} + multiset(s[1..]);
    assert multiset(t) == multiset{t[0]} + multiset(t[1..]);
    assert multiset(s[1..]) == multiset(s) - multiset{s[0]};
  }

  /** Two ascending sequences with the same elements are the same sequence. */
  lemma {:induction false} SortedUnique(s: seq<string>, t: seq<string>)
    requires Sorted(s) && Sorted(t) && multiset(s) == multiset(t)
    ensures s == t
  {
    if s == [] {
      assert |t| == |multiset(t)| == 0;
    } else {
      SameFirst(s, t);
      SameRest(s, t);
      assert Sorted(s[1..]) && Sorted(t[1..]);
      SortedUnique(s[1..], t[1..]);
      assert s == [s[0]] + s[1..] && t == [t[0]] + t[1..];
    }
  }

  // ------------------------------------------------------------ the string

  /** Each name followed by its first value, in the order given. */
  function Canonical(keys: seq<string>, data: Values): string {
    if keys == [] then ""
    else Canonical(keys[..|keys| - 1], data) + (keys[|keys| - 1] + Get(data, keys[|keys| - 1]))
  }

  /** The string the digest is taken of. */
  ghost function SignInput(appSecret: string, data: Values): string {
    appSecret + Canonical(SortedKeys(data.Keys), data) + appSecret
  }

  const LowerHexDigits: string := "0123456789abcdef"
  const UpperHexDigits: string := "0123456789ABCDEF"

  /** hex.EncodeToString: two lower-case digits per byte, high nibble first. */
  function HexEncode(d: seq<Byte>): (s: string)
    ensures |s| == 2 * |d|
  {
    if d == [] then ""
    else [LowerHexDigits[d[0] / 16], LowerHexDigits[d[0] % 16]] + HexEncode(d[1..])
  }

  function UpperChar(c: char): char {
    if 'a' <= c <= 'z' then (c as int - 32) as char else c
  }

  /** strings.ToUpper on ASCII text. */
  function ToUpper(s: string): (r: string)
    ensures |r| == |s|
  {
    seq(|s|, i requires 0 <= i < |s| => UpperChar(s[i]))
  }

  /** The printed signature: hex of the digest, upper-cased. */
  function UpperHex(d: seq<Byte>): string {
    ToUpper(HexEncode(d))
  }

  /** Hex written directly with the upper-case alphabet. */
  function UpperHexEncode(d: seq<Byte>): (s: string)
    ensures |s| == 2 * |d|
  {
    if d == [] then ""
    else [UpperHexDigits[d[0] / 16], UpperHexDigits[d[0] % 16]] + UpperHexEncode(d[1..])
  }

  lemma ToUpperConcat(x: string, y: string)
    ensures ToUpper(x + y) == ToUpper(x) + ToUpper(y)
  {
  }

  lemma UpperOfLowerHexDigit(k: nat)
    requires k < 16
    ensures UpperChar(LowerHexDigits[k]) == UpperHexDigits[k]
  {
  }

  /** Upper-casing the lower-case hex gives the upper-case hex. */
  lemma {:induction false} UpperHexIsUpperHexEncode(d: seq<Byte>)
    ensures UpperHex(d) == UpperHexEncode(d)
  {
    if d != [] {
      var pair := [LowerHexDigits[d[0] / 16], LowerHexDigits[d[0] % 16]];
      ToUpperConcat(pair, HexEncode(d[1..]));
      UpperOfLowerHexDigit(d[0] / 16);
      UpperOfLowerHexDigit(d[0] % 16);
      UpperHexIsUpperHexEncode(d[1..]);
    }
  }

  /** Every character of upper-case hex is one of 0-9A-F. */
  lemma {:induction false} UpperHexEncodeAlphabet(d: seq<Byte>)
    ensures forall i :: 0 <= i < |UpperHexEncode(d)| ==> UpperHexEncode(d)[i] in UpperHexDigits
  {
    if d != [] {
      UpperHexEncodeAlphabet(d[1..]);
      var s := UpperHexEncode(d);
      forall i | 0 <= i < |s|
        ensures s[i] in UpperHexDigits
      {
        if i >= 2 {
          assert s[i] == UpperHexEncode(d[1..])[i - 2];
        }
      }
    }
  }

  /** The signature has twice as many characters as the digest has bytes,
      each one of 0-9A-F. */
  lemma SignatureIsUpperHex(d: seq<Byte>)
    ensures |UpperHex(d)| == 2 * |d|
    ensures forall i :: 0 <= i < |UpperHex(d)| ==> UpperHex(d)[i] in UpperHexDigits
  {
    UpperHexIsUpperHexEncode(d);
    UpperHexEncodeAlphabet(d);
  }

  // ------------------------------------------------------------ the method

  method Swap(a: array<string>, i: int, j: int)
    requires 0 <= i < a.Length && 0 <= j < a.Length
    modifies a
    ensures a[i] == old(a[j]) && a[j] == old(a[i])
    ensures forall k :: 0 <= k < a.Length && k != i && k != j ==> a[k] == old(a[k])
    ensures multiset(a[..]) == old(multiset(a[..]))
  {
    a[i], a[j] := a[j], a[i];
  }

  /** sort.Sort(sort.StringSlice(keys)), as an insertion sort. */
  method SortStrings(a: array<string>)
    modifies a
    ensures Sorted(a[..])
    ensures multiset(a[..]) == old(multiset(a[..]))
  {
    var i := 0;
    while i < a.Length
      invariant 0 <= i <= a.Length
      invariant forall p, q :: 0 <= p < q < i ==> !Less(a[q], a[p])
      invariant multiset(a[..]) == old(multiset(a[..]))
    {
      var j := i;
      while j > 0 && Less(a[j], a[j - 1])
        invariant 0 <= j <= i
        invariant forall p, q :: 0 <= p < q <= i && p != j && q != j ==> !Less(a[q], a[p])
        invariant forall q :: j < q <= i ==> !Less(a[q], a[j])
        invariant multiset(a[..]) == old(multiset(a[..]))
      {
        LessAsymmetric(a[j], a[j - 1]);
        Swap(a, j - 1, j);
        j := j - 1;
      }
      if j > 0 {
        forall p | 0 <= p < j
          ensures !Less(a[j], a[p])
        {
          LessIrreflexive(a[p]);
          NotLessTransitive(a[p], a[j - 1], a[j]);
        }
      }
      i := i + 1;
    }
  }

  /** The parameter names, each once, in whatever order the map yields them. */
  method CollectKeys(data: Values) returns (keys: seq<string>)
    ensures multiset(keys) == multiset(data.Keys)
  {
    keys := [];
    var rest := data.Keys;
    while rest != {}
      invariant rest <= data.Keys
      invariant multiset(keys) + multiset(rest) == multiset(data.Keys)
      decreases |rest|
    {
      var k :| k in rest;
      keys := keys + [k];
      RemoveAddBack(rest, k);
      rest := rest - {k};
    }
  }

  /** Sign: collect the parameter names (in whatever order the map yields
      them), sort them, concatenate name and first value, wrap in the secret,
      digest and print. */
  method Sign(sender: AliSmsSender, data: Values, md5: string -> seq<Byte>) returns (sign: string)
    ensures sign == UpperHex(md5(SignInput(sender.appSecret, data)))
  {
    var keys := CollectKeys(data);
    var sorted := new string[|keys|](i => if 0 <= i < |keys| then keys[i] else "");
    assert sorted[..] == keys;
    SortStrings(sorted);
    var str := "";
    var i := 0;
    while i < sorted.Length
      invariant 0 <= i <= sorted.Length
      invariant str == Canonical(sorted[..i], data)
    {
      assert sorted[..i + 1][..i] == sorted[..i];
      str := str + (sorted[i] + Get(data, sorted[i]));
      i := i + 1;
    }
    SortedUnique(sorted[..], SortedKeys(data.Keys));
    assert sorted[..sorted.Length] == sorted[..];
    str := sender.appSecret + str + sender.appSecret;
    sign := ToUpper(HexEncode(md5(str)));
  }

  // ------------------------------------------------------------ properties

  lemma {:induction false} CanonicalOfSameFirstValues(keys: seq<string>, d1: Values, d2: Values)
    requires forall k :: k in keys ==> Get(d1, k) == Get(d2, k)
    ensures Canonical(keys, d1) == Canonical(keys, d2)
  {
    if keys != [] {
      CanonicalOfSameFirstValues(keys[..|keys| - 1], d1, d2);
    }
  }

  /** Only the names and the first value of each parameter enter the
      signature: values added later under the same name do not. */
  lemma SignInputUsesFirstValues(appSecret: string, d1: Values, d2: Values)
    requires d1.Keys == d2.Keys
    requires forall k :: k in d1 ==> Get(d1, k) == Get(d2, k)
    ensures SignInput(appSecret, d1) == SignInput(appSecret, d2)
  {
    var keys := SortedKeys(d1.Keys);
    forall k | k in keys
      ensures Get(d1, k) == Get(d2, k)
    {
      assert k in multiset(keys);
    }
    CanonicalOfSameFirstValues(keys, d1, d2);
  }

  /** The parameters of the gateway client's test (sms/sms_sender_test.go). */
  function TestCallParams(): Values {
    map["app_key" := ["12345678"],
        "fields" := ["num_iid,title,nick,price,num"],
        "format" := ["json"],
        "method" := ["taobao.item.seller.get"],
        "num_iid" := ["11223344"],
        "session" := ["test"],
        "sign_method" := ["md5"],
        "timestamp" := ["2016-01-01 12:00:00"],
        "v" := ["2.0"]]
  }

  /** A sequence whose neighbours are in strictly ascending order is sorted. */
  lemma {:induction false} SortedFromNeighbours(s: seq<string>)
    requires forall i :: 0 < i < |s| ==> Less(s[i - 1], s[i])
    ensures Sorted(s)
    ensures forall i, j :: 0 <= i < j < |s| ==> s[i] != s[j]
  {
    if |s| > 1 {
      var t := s[..|s| - 1];
      SortedFromNeighbours(t);
      forall i | 0 <= i < |s| - 1
        ensures Less(s[i], s[|s| - 1])
      {
        var k := i;
        while k < |s| - 2
          invariant i <= k <= |s| - 2
          invariant Less(s[i], s[k + 1])
        {
          LessTransitive(s[i], s[k + 1], s[k + 2]);
          k := k + 1;
        }
      }
      forall i, j | 0 <= i < j < |s|
        ensures !Less(s[j], s[i]) && s[i] != s[j]
      {
        if j == |s| - 1 {
          LessAsymmetric(s[i], s[j]);
          LessIrreflexive(s[i]);
        } else {
          assert t[i] == s[i] && t[j] == s[j];
        }
      }
    }
  }

  /** The test's parameter names in ascending order. */
  function TestCallKeys(): seq<string> {
    ["app_key", "fields", "format", "method", "num_iid", "session", "sign_method", "timestamp", "v"]
  }

  lemma TestCallKeysAscending()
    ensures Sorted(TestCallKeys())
  {
    var ks := TestCallKeys();
    assert Less("app_key", "fields") && Less("fields", "format") && Less("format", "method");
    assert Less("method", "num_iid") && Less("num_iid", "session") && Less("session", "sign_method");
    assert Less("sign_method", "timestamp") && Less("timestamp", "v");
    SortedFromNeighbours(ks);
  }

  lemma TestCallKeysDistinct()
    ensures forall i, j :: 0 <= i < j < |TestCallKeys()| ==> TestCallKeys()[i] != TestCallKeys()[j]
  {
    var ks := TestCallKeys();
    assert Less("app_key", "fields") && Less("fields", "format") && Less("format", "method");
    assert Less("method", "num_iid") && Less("num_iid", "session") && Less("session", "sign_method");
    assert Less("sign_method", "timestamp") && Less("timestamp", "v");
    SortedFromNeighbours(ks);
  }

  /** Distinct elements: the multiset of a sequence is that of its set. */
  lemma {:induction false} DistinctMultiset(s: seq<string>)
    requires forall i, j :: 0 <= i < j < |s| ==> s[i] != s[j]
    ensures multiset(s) == multiset(set k | k in s)
  {
    if s != [] {
      DistinctMultiset(s[1..]);
      var rest := set k | k in s[1..];
      var all := set k | k in s;
      assert s[0] !in rest;
      assert all - {s[0]} == rest;
      RemoveAddBack(all, s[0]);
      assert s == [s[0]] + s[1..];
    }
  }

  lemma TestCallKeysComplete()
    ensures multiset(TestCallKeys()) == multiset(TestCallParams().Keys)
  {
    var ks := TestCallKeys();
    assert TestCallParams().Keys == {"app_key", "fields", "format", "method", "num_iid", "session", "sign_method", "timestamp", "v"};
    assert TestCallParams().Keys == set k | k in ks;
    TestCallKeysDistinct();
    DistinctMultiset(ks);
  }

  lemma TestCallKeysSorted()
    ensures SortedKeys(TestCallParams().Keys) == TestCallKeys()
  {
    TestCallKeysAscending();
    TestCallKeysComplete();
    SortedUnique(TestCallKeys(), SortedKeys(TestCallParams().Keys));
  }

  lemma {:induction false} CanonicalAppend(xs: seq<string>, ys: seq<string>, data: Values)
    ensures Canonical(xs + ys, data) == Canonical(xs, data) + Canonical(ys, data)
    decreases |ys|
  {
    if ys == [] {
      assert xs + ys == xs;
    } else {
      var init := ys[..|ys| - 1];
      var last := ys[|ys| - 1];
      assert (xs + ys)[..|xs + ys| - 1] == xs + init;
      assert (xs + ys)[|xs + ys| - 1] == last;
      CanonicalAppend(xs, init, data);
    }
  }

  /** One more key: its name and first value follow what came before. */
  lemma CanonicalStep(ks: seq<string>, d: Values, prefix: string, k: string, v: string)
    requires |ks| > 0 && Canonical(ks[..|ks| - 1], d) == prefix
    requires ks[|ks| - 1] == k && Get(d, k) == v
    ensures Canonical(ks, d) == prefix + k + v
  {
  }

  lemma TestCallValuesFirst(d: Values)
    requires d == TestCallParams()
    ensures Get(d, "app_key") == "12345678" && Get(d, "fields") == "num_iid,title,nick,price,num"
    ensures Get(d, "format") == "json" && Get(d, "method") == "taobao.item.seller.get"
  {
  }

  lemma TestCallValuesSecond(d: Values)
    requires d == TestCallParams()
    ensures Get(d, "num_iid") == "11223344" && Get(d, "session") == "test" && Get(d, "sign_method") == "md5"
    ensures Get(d, "timestamp") == "2016-01-01 12:00:00" && Get(d, "v") == "2.0"
  {
  }

  lemma TestCallCanonicalFirst(ks: seq<string>, d: Values)
    requires ks == ["app_key", "fields", "format", "method"]
    requires Get(d, "app_key") == "12345678" && Get(d, "fields") == "num_iid,title,nick,price,num"
    requires Get(d, "format") == "json" && Get(d, "method") == "taobao.item.seller.get"
    ensures Canonical(ks, d) == TestCallFirstPairs()
  {
    assert ks[..1][..0] == [];
    CanonicalStep(ks[..1], d, "", "app_key", "12345678");
    assert ks[..2][..1] == ks[..1];
    CanonicalStep(ks[..2], d, "" + "app_key" + "12345678", "fields", "num_iid,title,nick,price,num");
    assert ks[..3][..2] == ks[..2];
    CanonicalStep(ks[..3], d, "" + "app_key" + "12345678" + "fields" + "num_iid,title,nick,price,num",
      "format", "json");
    assert ks[..4] == ks;
    CanonicalStep(ks, d, "" + "app_key" + "12345678" + "fields" + "num_iid,title,nick,price,num"
      + "format" + "json", "method", "taobao.item.seller.get");
  }

  lemma TestCallCanonicalSecond(ks: seq<string>, d: Values)
    requires ks == ["num_iid", "session", "sign_method", "timestamp", "v"]
    requires Get(d, "num_iid") == "11223344" && Get(d, "session") == "test" && Get(d, "sign_method") == "md5"
    requires Get(d, "timestamp") == "2016-01-01 12:00:00" && Get(d, "v") == "2.0"
    ensures Canonical(ks, d) == TestCallSecondPairs()
  {
    assert ks[..1][..0] == [];
    CanonicalStep(ks[..1], d, "", "num_iid", "11223344");
    assert ks[..2][..1] == ks[..1];
    CanonicalStep(ks[..2], d, "" + "num_iid" + "11223344", "session", "test");
    assert ks[..3][..2] == ks[..2];
    CanonicalStep(ks[..3], d, "" + "num_iid" + "11223344" + "session" + "test", "sign_method", "md5");
    assert ks[..4][..3] == ks[..3];
    CanonicalStep(ks[..4], d, "" + "num_iid" + "11223344" + "session" + "test" + "sign_method" + "md5",
      "timestamp", "2016-01-01 12:00:00");
    assert ks[..5] == ks;
    CanonicalStep(ks, d, "" + "num_iid" + "11223344" + "session" + "test" + "sign_method" + "md5"
      + "timestamp" + "2016-01-01 12:00:00", "v", "2.0");
  }

  /** The first four name-value pairs of the test, in the order they are
      concatenated. */
  function TestCallFirstPairs(): string {
    "" + "app_key" + "12345678" + "fields" + "num_iid,title,nick,price,num"
    + "format" + "json" + "method" + "taobao.item.seller.get"
  }

  /** The remaining five name-value pairs of the test. */
  function TestCallSecondPairs(): string {
    "" + "num_iid" + "11223344" + "session" + "test" + "sign_method" + "md5"
    + "timestamp" + "2016-01-01 12:00:00" + "v" + "2.0"
  }

  lemma TestCallCanonical()
    ensures Canonical(TestCallKeys(), TestCallParams()) == TestCallFirstPairs() + TestCallSecondPairs()
  {
    var ks := TestCallKeys();
    var d := TestCallParams();
    assert ks == ks[..4] + ks[4..];
    assert ks[..4] == ["app_key", "fields", "format", "method"];
    assert ks[4..] == ["num_iid", "session", "sign_method", "timestamp", "v"];
    CanonicalAppend(ks[..4], ks[4..], d);
    TestCallValuesFirst(d);
    TestCallValuesSecond(d);
    TestCallCanonicalFirst(ks[..4], d);
    TestCallCanonicalSecond(ks[4..], d);
  }

  /** For the test's parameters and secret, the string digested is exactly
      the one the test's expected signature was computed from. */
  lemma TestCallSignInput()
    ensures SignInput("helloworld", TestCallParams()) ==
      "helloworld" + (TestCallFirstPairs() + TestCallSecondPairs()) + "helloworld"
  {
    TestCallKeysSorted();
    TestCallCanonical();
  }
}
