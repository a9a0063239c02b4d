/** Checksums, their database encoding, and what is assumed of the hash functions. */
module CheckSums {
  import opened Bytes

  type Raw = s: seq<byte> | |s| == 32 witness Zeros(32)

  datatype HashMethod = Sha256 | Blake3 | Unknown {
    function ToByte(): (b: byte) {
      match this
      case Sha256 => 0
      case Blake3 => 1
      case Unknown => 2
    }

    static function FromByte(b: byte): HashMethod {
      if b == 0 then Sha256 else if b == 1 then Blake3 else Unknown
    }
  }

  datatype CheckSum = CheckSum(raw: Raw, algo: HashMethod) {
    predicate IsValid() {
      algo.ToByte() < 2
    }
  }

  /** Data under its checksum. */
  type Chunk = (CheckSum, seq<byte>)

  const EMPTY: CheckSum := CheckSum(Zeros(32), Unknown)

  /** The two hash functions, as values: nothing about them is assumed but what a lemma states. */
  datatype Hasher = Hasher(sha256: seq<byte> -> Raw, blake3: seq<byte> -> Raw) {
    function Of(data: seq<byte>, algo: HashMethod): CheckSum {
      CheckSum(if algo == Sha256 then sha256(data) else blake3(data), algo)
    }
  }

  /** The string `d` has the checksum of the slice `b[lo..hi]`. */
  ghost predicate HashesLike(h: Hasher, d: seq<byte>, b: seq<byte>, lo: nat, hi: nat, algo: HashMethod)
    requires lo <= hi <= |b|
  {
    h.Of(d, algo) == h.Of(b[lo..hi], algo)
  }

  /** `d` hashes like a slice of `b` only when it is that slice. */
  ghost predicate NoCollision(h: Hasher, d: seq<byte>, b: seq<byte>) {
    forall lo: nat, hi: nat, algo: HashMethod ::
      lo <= hi <= |b| && HashesLike(h, d, b, lo, hi, algo) ==> d == b[lo..hi]
  }

  /** `CheckSumOnDisk`: raw digest, method byte, seven reserved zero bytes. */
  function Encode(cs: CheckSum): (s: seq<byte>)
    ensures |s| == 40
  {
    cs.raw + [cs.algo.ToByte()] + Zeros(7)
  }

  /** The reserved bytes are not looked at. */
  function Decode(s: seq<byte>): CheckSum
    requires |s| == 40
  {
    CheckSum(s[..32], HashMethod.FromByte(s[32]))
  }

  lemma CheckSumRoundTrip(cs: CheckSum)
    ensures Decode(Encode(cs)) == cs
  {
    assert Encode(cs)[..32] == cs.raw;
  }

  lemma EncodeInjective(a: CheckSum, b: CheckSum)
    requires Encode(a) == Encode(b)
    ensures a == b
  {
    CheckSumRoundTrip(a);
    CheckSumRoundTrip(b);
  }

  /** Keys are ordered by digest first; the type's own comparison puts the method first. */
  lemma EncodedCheckSumOrder(a: CheckSum, b: CheckSum)
    ensures LexLess(Encode(a), Encode(b)) <==>
            LexLess(a.raw, b.raw) || (a.raw == b.raw && a.algo.ToByte() < b.algo.ToByte())
  {
    LexConcat(a.raw, b.raw, [a.algo.ToByte()] + Zeros(7), [b.algo.ToByte()] + Zeros(7));
    LexConcat([a.algo.ToByte()], [b.algo.ToByte()], Zeros(7), Zeros(7));
    LexIrreflexive(Zeros(7));
    assert Encode(a) == a.raw + ([a.algo.ToByte()] + Zeros(7));
    assert Encode(b) == b.raw + ([b.algo.ToByte()] + Zeros(7));
  }
}
