/** The range index: which slice of which blob is stored under which checksum. */
module IndexDb {
  import opened Basics
  import opened Bytes
  import opened CheckSums
  import opened KeyOrder

  datatype DedupRange = DedupRange(id: Raw, start: u64, end: u64)

  datatype DedupInfo = DedupInfo(off: u64, len: u32, cs: CheckSum) {
    function End(): nat {
      off + len
    }
  }

  type Records = map<DedupRange, DedupInfo>

  /** The key bytes: id, end, start, the numbers big-endian. */
  function EncodeRange(r: DedupRange): (s: seq<byte>)
    ensures |s| == 48
  {
    WordCapacities();
    r.id + ToBE(r.end, 8) + ToBE(r.start, 8)
  }

  function DecodeRange(s: seq<byte>): Option<DedupRange> {
    WordCapacities();
    if |s| != 48 then None else Some(DedupRange(s[..32], FromBE(s[40..]), FromBE(s[32..40])))
  }

  lemma RangeRoundTrip(r: DedupRange)
    ensures DecodeRange(EncodeRange(r)) == Some(r)
  {
    WordCapacities();
    var s := EncodeRange(r);
    assert s[..32] == r.id && s[32..40] == ToBE(r.end, 8) && s[40..] == ToBE(r.start, 8);
    FromToBE(r.end, 8);
    FromToBE(r.start, 8);
  }

  /** And every key that decodes at all is the encoding of what it decodes to. */
  lemma RangeDecodesUniquely(s: seq<byte>)
    ensures DecodeRange(s).Some? <==> |s| == 48
    ensures DecodeRange(s).Some? ==> EncodeRange(DecodeRange(s).value) == s
  {
    if |s| == 48 {
      WordCapacities();
      ToFromBE(s[32..40]);
      ToFromBE(s[40..]);
      assert s == s[..32] + s[32..40] + s[40..];
    }
  }

  lemma RangeKeysInjective()
    ensures Injective(EncodeRange)
  {
    forall a, b | EncodeRange(a) == EncodeRange(b) ensures a == b {
      RangeRoundTrip(a);
      RangeRoundTrip(b);
    }
  }

  /** The order in which the index database hands out its keys. */
  predicate KeyLess(a: DedupRange, b: DedupRange) {
    LexLess(a.id, b.id) || (a.id == b.id && (a.end < b.end || (a.end == b.end && a.start < b.start)))
  }

  lemma RangeKeyOrder(a: DedupRange, b: DedupRange)
    ensures LexLess(EncodeRange(a), EncodeRange(b)) <==> KeyLess(a, b)
  {
    WordCapacities();
    assert EncodeRange(a) == a.id + (ToBE(a.end, 8) + ToBE(a.start, 8));
    assert EncodeRange(b) == b.id + (ToBE(b.end, 8) + ToBE(b.start, 8));
    LexConcat(a.id, b.id, ToBE(a.end, 8) + ToBE(a.start, 8), ToBE(b.end, 8) + ToBE(b.start, 8));
    LexConcat(ToBE(a.end, 8), ToBE(b.end, 8), ToBE(a.start, 8), ToBE(b.start, 8));
    LexOfBE(a.end, b.end, 8);
    LexOfBE(a.start, b.start, 8);
  }

  /** The comparison the type itself declares: of two ranges with one end, the longer first. */
  predicate DeclaredLess(a: DedupRange, b: DedupRange) {
    if a.id != b.id then LexLess(a.id, b.id)
    else if a.end != b.end then a.end < b.end
    else b.start < a.start
  }

  /** The two orders disagree on exactly the pairs that share blob and end but not start. */
  lemma DeclaredOrderDiffersFromKeyOrder(a: DedupRange, b: DedupRange)
    ensures (DeclaredLess(a, b) <==> LexLess(EncodeRange(a), EncodeRange(b)))
            <==> !(a.id == b.id && a.end == b.end && a.start != b.start)
  {
    RangeKeyOrder(a, b);
    LexIrreflexive(a.id);
  }
}
