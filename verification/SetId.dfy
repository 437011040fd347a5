/** Set ids: the digest input that newSetID computes for a list of htlc keys. */
module SetId {
  import opened Types
  import opened ByteOrder

  /** A set id, represented by the bytes fed to the digest. */
  type SetID = seq<byte>

  const RECORD_SIZE: nat := 49

  /** bytes.Compare(a, b) == -1 */
  predicate BytesLess(a: seq<byte>, b: seq<byte>) {
    if a == [] || b == [] then |a| < |b|
    else a[0] < b[0] || (a[0] == b[0] && BytesLess(a[1..], b[1..]))
  }

  lemma {:induction false} BytesLessTotal(a: seq<byte>, b: seq<byte>)
    ensures a == b || BytesLess(a, b) || BytesLess(b, a)
    ensures !(BytesLess(a, b) && BytesLess(b, a))
    ensures !BytesLess(a, a)
  {
    if a != [] {
      BytesLessTotal(a[1..], if b == [] then [] else b[1..]);
      assert b != [] && a[0] == b[0] && a[1..] == b[1..] ==> a == [a[0]] + a[1..] && b == [b[0]] + b[1..];
    }
  }

  lemma {:induction false} BytesLessTransitive(a: seq<byte>, b: seq<byte>, c: seq<byte>)
    requires BytesLess(a, b) && BytesLess(b, c)
    ensures BytesLess(a, c)
  {
    if a != [] && a[0] == b[0] == c[0] {
      BytesLessTransitive(a[1..], b[1..], c[1..]);
    }
  }

  /** The comparison function passed to sort.Slice. */
  predicate KeyLess(a: HtlcKey, b: HtlcKey) {
    if a.node != b.node then BytesLess(a.node, b.node)
    else if a.chanID != b.chanID then a.chanID < b.chanID
    else a.htlcID < b.htlcID
  }

  lemma KeyLessTotal(a: HtlcKey, b: HtlcKey)
    ensures a == b || KeyLess(a, b) || KeyLess(b, a)
    ensures !(KeyLess(a, b) && KeyLess(b, a))
  {
    BytesLessTotal(a.node, b.node);
  }

  lemma KeyLessTransitive(a: HtlcKey, b: HtlcKey, c: HtlcKey)
    requires !KeyLess(b, a) && !KeyLess(c, b)
    ensures !KeyLess(c, a)
  {
    BytesLessTotal(a.node, b.node);
    BytesLessTotal(b.node, c.node);
    BytesLessTotal(a.node, c.node);
    if a.node != b.node && b.node != c.node {
      BytesLessTransitive(a.node, b.node, c.node);
    }
  }

  ghost predicate SortedKeys(s: seq<HtlcKey>) {
    forall i, j :: 0 <= i < j < |s| ==> !KeyLess(s[j], s[i])
  }

  function Insert(k: HtlcKey, s: seq<HtlcKey>): (r: seq<HtlcKey>)
    ensures multiset(r) == multiset([k]) + multiset(s)
  {
    if s == [] || !KeyLess(s[0], k) then [k] + s
    else
      assert s == [s[0]] + s[1..];
      [s[0]] + Insert(k, s[1..])
  }

  lemma {:induction false} InsertSorted(k: HtlcKey, s: seq<HtlcKey>)
    requires SortedKeys(s)
    ensures SortedKeys(Insert(k, s))
  {
    var r := Insert(k, s);
    if s == [] {
    } else if !KeyLess(s[0], k) {
      forall j | 1 <= j < |r| ensures !KeyLess(r[j], r[0]) {
        if j > 1 {
          KeyLessTransitive(k, s[0], s[j - 1]);
        }
      }
    } else {
      InsertSorted(k, s[1..]);
      forall j | 1 <= j < |r| ensures !KeyLess(r[j], r[0]) {
        assert r[j] in multiset(Insert(k, s[1..]));
        KeyLessTotal(s[0], k);
        if r[j] != k {
          assert r[j] in s[1..];
        }
      }
    }
  }

  /** sort.Slice with KeyLess: a library call, represented by insertion sort. */
  function Sort(s: seq<HtlcKey>): (r: seq<HtlcKey>)
    ensures multiset(r) == multiset(s)
  {
    if s == [] then []
    else
      assert s == [s[0]] + s[1..];
      Insert(s[0], Sort(s[1..]))
  }

  lemma {:induction false} SortSorted(s: seq<HtlcKey>)
    ensures SortedKeys(Sort(s))
  {
    if s != [] {
      SortSorted(s[1..]);
      InsertSorted(s[0], Sort(s[1..]));
    }
  }

  lemma SortedHeadUnique(a: seq<HtlcKey>, b: seq<HtlcKey>)
    requires SortedKeys(a) && SortedKeys(b) && a != [] && b != []
    requires a[0] in b && b[0] in a
    ensures a[0] == b[0]
  {
    hide BytesLess;
    KeyLessTotal(a[0], b[0]);
  }

  lemma TailMultiset(s: seq<HtlcKey>)
    requires s != []
    ensures multiset(s[1..]) == multiset(s) - multiset{s[0]}
  {
    assert s == [s[0]] + s[1..];
  }

  /** A sorted list is determined by its elements. */
  lemma {:induction false} SortedUnique(a: seq<HtlcKey>, b: seq<HtlcKey>)
    requires SortedKeys(a) && SortedKeys(b)
    requires multiset(a) == multiset(b)
    ensures a == b
  {
    hide KeyLess, BytesLess;
    if a == [] {
      assert |multiset(b)| == 0;
    } else {
      assert a[0] in multiset(b);
      assert b[0] in multiset(a);
      SortedHeadUnique(a, b);
      TailMultiset(a);
      TailMultiset(b);
      SortedUnique(a[1..], b[1..]);
      assert a == [a[0]] + a[1..] && b == [b[0]] + b[1..];
    }
  }

  /** What newSetID writes to the digest for one key. */
  function Record(k: HtlcKey): (b: seq<byte>)
    ensures |b| == RECORD_SIZE
  {
    k.node + PutUint64(k.chanID) + PutUint64(k.htlcID)
  }

  /** The node, then the channel and the htlc index, most significant byte first. */
  lemma RecordLayout(k: HtlcKey)
    ensures Record(k)[..33] == k.node
    ensures forall i :: 0 <= i < 8 ==>
              && Record(k)[33 + i] == ByteOf(k.chanID, i)
              && Record(k)[41 + i] == ByteOf(k.htlcID, i)
  {
    forall i | 0 <= i < 8
      ensures Record(k)[33 + i] == ByteOf(k.chanID, i)
      ensures Record(k)[41 + i] == ByteOf(k.htlcID, i)
    {
      PutUint64Bytes(k.chanID, i);
      PutUint64Bytes(k.htlcID, i);
    }
  }

  lemma {:induction false} BytesLessConcat(a: seq<byte>, b: seq<byte>, a': seq<byte>, b': seq<byte>)
    requires |a| == |a'|
    ensures BytesLess(a + b, a' + b') <==> BytesLess(a, a') || (a == a' && BytesLess(b, b'))
  {
    if a == [] {
      assert a + b == b && a' + b' == b';
      BytesLessTotal(b, b');
    } else {
      assert (a + b)[1..] == a[1..] + b && (a' + b')[1..] == a'[1..] + b';
      BytesLessConcat(a[1..], b, a'[1..], b');
      assert a == [a[0]] + a[1..] && a' == [a'[0]] + a'[1..];
    }
  }

  /** Big-endian numbers are ordered like their bytes. */
  lemma {:induction false} BigEndianOrder(m: nat, n: nat, width: nat)
    requires m < Pow256(width) && n < Pow256(width)
    ensures BytesLess(BigEndian(m, width), BigEndian(n, width)) <==> m < n
  {
    if width > 0 {
      BigEndianOrder(m / 256, n / 256, width - 1);
      DecodeEncode(m / 256, width - 1);
      DecodeEncode(n / 256, width - 1);
      BytesLessConcat(BigEndian(m / 256, width - 1), [m % 256], BigEndian(n / 256, width - 1), [n % 256]);
      OneByteOrder(m % 256, n % 256);
    }
  }

  lemma OneByteOrder(a: byte, b: byte)
    ensures BytesLess([a], [b]) <==> a < b
  {
    assert [a][1..] == [] && [b][1..] == [];
  }

  /** The comparison function passed to sort.Slice is the order of the records as byte strings: the
      digest is fed with the records in increasing order. */
  lemma KeyOrderIsByteOrder(a: HtlcKey, b: HtlcKey)
    ensures KeyLess(a, b) <==> BytesLess(Record(a), Record(b))
  {
    Pow256Of8();
    var x, y := PutUint64(a.chanID), PutUint64(b.chanID);
    var x', y' := PutUint64(a.htlcID), PutUint64(b.htlcID);
    assert Record(a) == a.node + (x + x') && Record(b) == b.node + (y + y');
    BytesLessConcat(a.node, x + x', b.node, y + y');
    BytesLessConcat(x, x', y, y');
    BigEndianOrder(a.chanID, b.chanID, 8);
    BigEndianOrder(a.htlcID, b.htlcID, 8);
    BytesLessTotal(a.node, a.node);
    Uint64RoundTrip(a.chanID, x);
    Uint64RoundTrip(b.chanID, y);
  }

  lemma RecordInjective(a: HtlcKey, b: HtlcKey)
    requires Record(a) == Record(b)
    ensures a == b
  {
    var x, y := Record(a), Record(b);
    assert x[..33] == a.node && y[..33] == b.node;
    assert x[33..41] == PutUint64(a.chanID) && y[33..41] == PutUint64(b.chanID);
    assert x[41..] == PutUint64(a.htlcID) && y[41..] == PutUint64(b.htlcID);
    Uint64RoundTrip(a.chanID, x[33..41]);
    Uint64RoundTrip(b.chanID, x[33..41]);
    Uint64RoundTrip(a.htlcID, x[41..]);
    Uint64RoundTrip(b.htlcID, x[41..]);
  }

  function Records(keys: seq<HtlcKey>): (b: seq<byte>)
    ensures |b| == RECORD_SIZE * |keys|
  {
    if keys == [] then [] else Records(keys[..|keys| - 1]) + Record(keys[|keys| - 1])
  }

  /** Fixed-width records are parsed unambiguously. */
  lemma {:induction false} RecordsInjective(a: seq<HtlcKey>, b: seq<HtlcKey>)
    requires Records(a) == Records(b)
    ensures a == b
  {
    assert |a| == |b|;
    if a != [] {
      var n := |a| - 1;
      var x := Records(a);
      assert x[..RECORD_SIZE * n] == Records(a[..n]) == Records(b[..n]);
      assert x[RECORD_SIZE * n..] == Record(a[n]) == Record(b[n]);
      RecordsInjective(a[..n], b[..n]);
      RecordInjective(a[n], b[n]);
      assert a == a[..n] + [a[n]] && b == b[..n] + [b[n]];
    }
  }

  /** The digest input for a list of keys. */
  function DigestInput(keys: seq<HtlcKey>): SetID {
    Records(Sort(keys))
  }

  /** Two lists have the same set id exactly when they hold the same keys, equally often. */
  lemma SetIdCanonical(a: seq<HtlcKey>, b: seq<HtlcKey>)
    ensures DigestInput(a) == DigestInput(b) <==> multiset(a) == multiset(b)
  {
    SortSorted(a);
    SortSorted(b);
    if multiset(a) == multiset(b) {
      SortedUnique(Sort(a), Sort(b));
    }
    if DigestInput(a) == DigestInput(b) {
      RecordsInjective(Sort(a), Sort(b));
    }
  }

  /** newSetID: sort a copy of the keys and write them to a running digest. */
  method NewSetID(keys: seq<HtlcKey>) returns (id: SetID)
    ensures id == DigestInput(keys)
    ensures |id| == RECORD_SIZE * |keys|
  {
    var sortedKeys := Sort(keys);
    var digest: seq<byte> := [];
    var i := 0;
    while i < |sortedKeys|
      invariant 0 <= i <= |sortedKeys|
      invariant digest == Records(sortedKeys[..i])
    {
      var key := sortedKeys[i];
      assert sortedKeys[..i + 1][..i] == sortedKeys[..i];
      digest := digest + key.node;
      var scratch := PutUint64(key.chanID);
      digest := digest + scratch;
      scratch := PutUint64(key.htlcID);
      digest := digest + scratch;
      i := i + 1;
      assert digest == Records(sortedKeys[..i - 1]) + Record(key);
    }
    assert sortedKeys[..i] == sortedKeys;
    assert |multiset(sortedKeys)| == |multiset(keys)|;
    id := digest;
  }

  lemma {:induction false} DuplicateFreeMultiset(s: seq<HtlcKey>)
    requires NoDuplicates(s)
    ensures forall k :: multiset(s)[k] == (if k in s then 1 else 0)
  {
    if s != [] {
      assert s == [s[0]] + s[1..];
      DuplicateFreeMultiset(s[1..]);
    }
  }

  /** The set id of a set of keys: the iteration order of the Go map does not matter. */
  ghost function SetIdOf(keys: set<HtlcKey>): SetID {
    DigestInput(Enumerate(keys))
  }

  lemma SetIdOfEnumeration(s: seq<HtlcKey>, keys: set<HtlcKey>)
    requires Enumerates(s, keys)
    ensures DigestInput(s) == SetIdOf(keys)
  {
    var t := Enumerate(keys);
    DuplicateFreeMultiset(s);
    DuplicateFreeMultiset(t);
    assert multiset(s) == multiset(t);
    SetIdCanonical(s, t);
  }

  /** Set ids identify sets of keys. */
  lemma SetIdOfInjective(a: set<HtlcKey>, b: set<HtlcKey>)
    ensures SetIdOf(a) == SetIdOf(b) <==> a == b
  {
    var s, t := Enumerate(a), Enumerate(b);
    SetIdCanonical(s, t);
    if SetIdOf(a) == SetIdOf(b) {
      assert multiset(s) == multiset(t);
      forall k ensures k in a <==> k in b {
        assert k in s <==> k in multiset(s);
        assert k in t <==> k in multiset(t);
      }
    }
  }
}
