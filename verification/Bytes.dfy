/** Byte strings: big-endian integers and the order in which LMDB keeps its keys. */
module Bytes {

  type byte = x: int | 0 <= x < 256

  type u64 = x: int | 0 <= x < 0x1_0000_0000_0000_0000
  type u32 = x: int | 0 <= x < 0x1_0000_0000

  /** The number of values that fit in `width` bytes. */
  function Capacity(width: nat): (c: nat)
    ensures c > 0
  {
    if width == 0 then 1 else 256 * Capacity(width - 1)
  }

  lemma WordCapacities()
    ensures Capacity(4) == 0x1_0000_0000
    ensures Capacity(8) == 0x1_0000_0000_0000_0000
  {
    assert Capacity(1) == 256 && Capacity(2) == 0x1_0000 && Capacity(3) == 0x100_0000;
    assert Capacity(4) == 0x1_0000_0000 && Capacity(5) == 0x100_0000_0000;
    assert Capacity(6) == 0x1_0000_0000_0000 && Capacity(7) == 0x100_0000_0000_0000;
  }

  /** `to_be_bytes` of an unsigned integer of `width` bytes. */
  function ToBE(n: nat, width: nat): (s: seq<byte>)
    requires n < Capacity(width)
    ensures |s| == width
  {
    if width == 0 then [] else ToBE(n / 256, width - 1) + [n % 256]
  }

  /** `from_be_bytes`. */
  function FromBE(s: seq<byte>): (n: nat)
    ensures n < Capacity(|s|)
  {
    if s == [] then 0 else FromBE(s[..|s| - 1]) * 256 + s[|s| - 1]
  }

  lemma {:induction false} FromToBE(n: nat, width: nat)
    requires n < Capacity(width)
    ensures FromBE(ToBE(n, width)) == n
  {
    if width > 0 {
      FromToBE(n / 256, width - 1);
      var s := ToBE(n, width);
      assert s[..|s| - 1] == ToBE(n / 256, width - 1);
    }
  }

  lemma {:induction false} ToFromBE(s: seq<byte>)
    ensures ToBE(FromBE(s), |s|) == s
  {
    if s != [] {
      ToFromBE(s[..|s| - 1]);
      var n := FromBE(s);
      assert n / 256 == FromBE(s[..|s| - 1]) && n % 256 == s[|s| - 1];
    }
  }

  /** LMDB's default key comparison: `memcmp`, a proper prefix first. */
  predicate LexLess(a: seq<byte>, b: seq<byte>)
  {
    if b == [] then false
    else if a == [] then true
    else a[0] < b[0] || (a[0] == b[0] && LexLess(a[1..], b[1..]))
  }

  lemma {:induction false} LexIrreflexive(a: seq<byte>)
    ensures !LexLess(a, a)
  {
    if a != [] { LexIrreflexive(a[1..]); }
  }

  lemma {:induction false} LexTransitive(a: seq<byte>, b: seq<byte>, c: seq<byte>)
    requires LexLess(a, b) && LexLess(b, c)
    ensures LexLess(a, c)
  {
    if a != [] && a[0] == b[0] == c[0] { LexTransitive(a[1..], b[1..], c[1..]); }
  }

  lemma {:induction false} LexTotal(a: seq<byte>, b: seq<byte>)
    ensures LexLess(a, b) || a == b || LexLess(b, a)
  {
    if a != [] && b != [] && a[0] == b[0] {
      LexTotal(a[1..], b[1..]);
      assert a == [a[0]] + a[1..] && b == [b[0]] + b[1..];
    }
  }

  /** Fields laid out one after another compare field by field. */
  lemma {:induction false} LexConcat(a: seq<byte>, b: seq<byte>, x: seq<byte>, y: seq<byte>)
    requires |a| == |b|
    ensures LexLess(a + x, b + y) <==> LexLess(a, b) || (a == b && LexLess(x, y))
  {
    if a == [] {
      assert a + x == x && b + y == y;
    } else {
      LexConcat(a[1..], b[1..], x, y);
      assert (a + x)[1..] == a[1..] + x && (b + y)[1..] == b[1..] + y;
      assert a == [a[0]] + a[1..] && b == [b[0]] + b[1..];
      if a[0] == b[0] && a[1..] == b[1..] {
        LexIrreflexive(a[1..]);
      }
    }
  }

  /** Big-endian integers compare as numbers. */
  lemma {:induction false} LexOfBE(m: nat, n: nat, width: nat)
    requires m < Capacity(width) && n < Capacity(width)
    ensures LexLess(ToBE(m, width), ToBE(n, width)) <==> m < n
    ensures ToBE(m, width) == ToBE(n, width) <==> m == n
  {
    FromToBE(m, width);
    FromToBE(n, width);
    if width > 0 {
      LexOfBE(m / 256, n / 256, width - 1);
      LexConcat(ToBE(m / 256, width - 1), ToBE(n / 256, width - 1), [m % 256], [n % 256]);
    }
  }

  function Zeros(n: nat): (s: seq<byte>)
    ensures |s| == n && forall i :: 0 <= i < n ==> s[i] == 0
  {
    seq(n, _ => 0)
  }

  function MinOf(a: int, b: int): int {
    if a <= b then a else b
  }
}
