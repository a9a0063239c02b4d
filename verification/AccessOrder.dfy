/** The access index of the chunk store: its keys, their order, and what a cursor over it selects. */
module AccessOrder {
  import opened Basics
  import opened Bytes
  import opened CheckSums
  import opened KeyOrder

  datatype AccessKey = AccessKey(time: u64, cs: CheckSum)

  function EncodeKey(k: AccessKey): (s: seq<byte>)
    ensures |s| == 48
  {
    WordCapacities();
    ToBE(k.time, 8) + Encode(k.cs)
  }

  function DecodeKey(s: seq<byte>): Option<AccessKey> {
    WordCapacities();
    if |s| != 48 then None else Some(AccessKey(FromBE(s[..8]), Decode(s[8..])))
  }

  lemma AccessKeyRoundTrip(k: AccessKey)
    ensures DecodeKey(EncodeKey(k)) == Some(k)
  {
    WordCapacities();
    FromToBE(k.time, 8);
    CheckSumRoundTrip(k.cs);
    assert EncodeKey(k)[..8] == ToBE(k.time, 8) && EncodeKey(k)[8..] == Encode(k.cs);
  }

  lemma AccessKeysInjective()
    ensures Injective(EncodeKey)
  {
    forall a, b | EncodeKey(a) == EncodeKey(b) ensures a == b {
      AccessKeyRoundTrip(a);
      AccessKeyRoundTrip(b);
    }
  }

  /** The order of the key bytes is first that of the access times. */
  lemma KeyOrderRefinesTime(a: AccessKey, b: AccessKey)
    ensures LexLess(EncodeKey(a), EncodeKey(b))
            <==> a.time < b.time || (a.time == b.time && LexLess(Encode(a.cs), Encode(b.cs)))
  {
    WordCapacities();
    LexConcat(ToBE(a.time, 8), ToBE(b.time, 8), Encode(a.cs), Encode(b.cs));
    LexOfBE(a.time, b.time, 8);
  }

  /** The order the key type declares: of two keys of one second, by hash method first. */
  predicate DeclaredLess(a: AccessKey, b: AccessKey) {
    if a.time != b.time then a.time < b.time
    else if a.cs.algo != b.cs.algo then a.cs.algo.ToByte() < b.cs.algo.ToByte()
    else LexLess(a.cs.raw, b.cs.raw)
  }

  /** It differs from the order of the bytes on exactly the pairs of one second whose methods and
      digests disagree about which comes first. */
  lemma DeclaredOrderDiffers(a: AccessKey, b: AccessKey)
    ensures (DeclaredLess(a, b) <==> LexLess(EncodeKey(a), EncodeKey(b)))
            <==> !(a.time == b.time && a.cs.raw != b.cs.raw && a.cs.algo != b.cs.algo
                   && (LexLess(a.cs.raw, b.cs.raw) <==> b.cs.algo.ToByte() < a.cs.algo.ToByte()))
  {
    KeyOrderRefinesTime(a, b);
    EncodedCheckSumOrder(a.cs, b.cs);
    LexIrreflexive(a.cs.raw);
    LexTotal(a.cs.raw, b.cs.raw);
    if LexLess(a.cs.raw, b.cs.raw) && LexLess(b.cs.raw, a.cs.raw) { LexTransitive(a.cs.raw, b.cs.raw, a.cs.raw); }
  }

  ghost function InOrder(index: set<AccessKey>): seq<AccessKey> {
    AccessKeysInjective();
    Sorted(index, EncodeKey)
  }

  method Walk(index: set<AccessKey>) returns (keys: seq<AccessKey>)
    ensures keys == InOrder(index)
  {
    AccessKeysInjective();
    keys := Cursor(index, EncodeKey);
  }

  lemma InOrderLength(index: set<AccessKey>)
    ensures |InOrder(index)| == |index|
  {
    AccessKeysInjective();
    ListsLength(InOrder(index), index, EncodeKey);
  }

  // ---- Least recently used --------------------------------------------------------------------------

  /** The `n` least recent keys, or all. */
  ghost function Oldest(index: set<AccessKey>, n: nat): (r: seq<AccessKey>)
    ensures |r| == if n <= |index| then n else |index|
  {
    InOrderLength(index);
    InOrder(index)[..MinOf(n, |index|)]
  }

  /** The selection loop of the collectors stops after the push that reaches `max`; it therefore
      takes one key even when asked for none. */
  method SelectOldest(index: set<AccessKey>, max: nat) returns (targets: seq<AccessKey>)
    ensures targets == Oldest(index, if max == 0 then 1 else max)
  {
    var keys := Walk(index);
    InOrderLength(index);
    targets := [];
    var i := 0;
    while i < |keys|
      invariant 0 <= i <= |keys| && targets == keys[..i]
      invariant i == 0 || i < max
    {
      targets := targets + [keys[i]];
      assert targets == keys[..i + 1];
      i := i + 1;
      if |targets| >= max {
        return;
      }
    }
  }

  /** None of the selected keys is more recent than a key that is kept. */
  lemma OldestAreOldest(index: set<AccessKey>, n: nat, k: AccessKey, kept: AccessKey)
    requires k in Oldest(index, n) && kept in index && kept !in Oldest(index, n)
    ensures LexLess(EncodeKey(k), EncodeKey(kept)) && k.time <= kept.time
  {
    var keys := InOrder(index);
    InOrderLength(index);
    var m := MinOf(n, |index|);
    assert kept in keys;
    var j :| 0 <= j < |keys| && keys[j] == kept;
    var i :| 0 <= i < m && keys[i] == k;
    KeyOrderRefinesTime(k, kept);
  }

  /** Selecting again after a selection is deleted continues where the first one stopped. */
  lemma OldestContinues(index: set<AccessKey>, m: nat, n: nat)
    ensures Oldest(index, m) + Oldest(index - ToSet(Oldest(index, m)), n) == Oldest(index, m + n)
  {
    var keys := InOrder(index);
    InOrderLength(index);
    var c := MinOf(m, |keys|);
    OldestIsPrefix(index, keys, m);
    OldestIsPrefix(index, keys, m + n);
    OldestOfRest(index, keys, c, n);
    PrefixOfSuffix(keys, c, MinOf(n, |keys| - c));
  }

  lemma OldestOfRest(index: set<AccessKey>, keys: seq<AccessKey>, c: nat, n: nat)
    requires keys == InOrder(index) && c <= |keys|
    ensures Oldest(index - ToSet(keys[..c]), n) == keys[c..][..MinOf(n, |keys| - c)]
  {
    InOrderAfter(index, c);
    OldestIsPrefix(index - ToSet(keys[..c]), keys[c..], n);
  }

  lemma OldestIsPrefix(index: set<AccessKey>, keys: seq<AccessKey>, n: nat)
    requires keys == InOrder(index)
    ensures Oldest(index, n) == keys[..MinOf(n, |keys|)]
  {
    InOrderLength(index);
  }

  lemma PrefixOfSuffix<T>(s: seq<T>, c: nat, d: nat)
    requires c + d <= |s|
    ensures s[..c] + s[c..][..d] == s[..c + d]
  {
  }

  lemma InOrderAfter(index: set<AccessKey>, c: nat)
    requires c <= |InOrder(index)|
    ensures InOrder(index - ToSet(InOrder(index)[..c])) == InOrder(index)[c..]
  {
    var keys := InOrder(index);
    var rest := index - ToSet(keys[..c]);
    AfterPrefix(keys, c, index);
    ListsUnique(InOrder(rest), keys[c..], rest, EncodeKey);
  }

  lemma AfterPrefix(keys: seq<AccessKey>, m: nat, index: set<AccessKey>)
    requires m <= |keys| && Lists(keys, index, EncodeKey)
    ensures Lists(keys[m..], index - ToSet(keys[..m]), EncodeKey)
  {
    forall k ensures k in keys[m..] <==> k in index - ToSet(keys[..m]) {
      if k in keys[m..] && k in keys[..m] {
        var i :| 0 <= i < m && keys[i] == k;
        var j :| m <= j < |keys| && keys[j] == k;
        LexIrreflexive(EncodeKey(k));
      }
      if k in keys && k !in keys[..m] {
        var j :| 0 <= j < |keys| && keys[j] == k;
        assert keys[m..][j - m] == k;
      }
    }
  }

  // ---- Expiry ------------------------------------------------------------------------------------------

  /** The scan of `gc_expired`: it stops at the first key that is recent enough. */
  method SelectExpired(index: set<AccessKey>, cutoff: nat) returns (expired: seq<AccessKey>)
    ensures ToSet(expired) == set k | k in index && k.time < cutoff
    ensures |expired| == |ToSet(expired)|
  {
    var keys := Walk(index);
    expired := [];
    var i := 0;
    while i < |keys|
      invariant 0 <= i <= |keys| && expired == keys[..i]
      invariant forall j :: 0 <= j < i ==> keys[j].time < cutoff
    {
      if keys[i].time >= cutoff {
        break;
      }
      expired := expired + [keys[i]];
      i := i + 1;
      assert expired == keys[..i];
    }
    ExpiredIsPrefix(keys, i, index, cutoff);
    PrefixDistinct(keys, i, index);
  }

  lemma ExpiredIsPrefix(keys: seq<AccessKey>, i: nat, index: set<AccessKey>, cutoff: nat)
    requires i <= |keys| && Lists(keys, index, EncodeKey)
    requires forall j :: 0 <= j < i ==> keys[j].time < cutoff
    requires i < |keys| ==> keys[i].time >= cutoff
    ensures ToSet(keys[..i]) == set k | k in index && k.time < cutoff
  {
    forall k ensures k in keys[..i] <==> k in index && k.time < cutoff {
      if k in index {
        assert k in keys;
        var j :| 0 <= j < |keys| && keys[j] == k;
        if i < j { KeyOrderRefinesTime(keys[i], keys[j]); }
      }
    }
  }

  lemma PrefixDistinct(keys: seq<AccessKey>, m: nat, index: set<AccessKey>)
    requires m <= |keys| && Lists(keys, index, EncodeKey)
    ensures |ToSet(keys[..m])| == m
  {
    var p := keys[..m];
    assert Ascending(p, EncodeKey);
    ListsLength(p, ToSet(p), EncodeKey);
  }
}
