/** What an LMDB cursor shows: the keys of a database in the order of their encodings. */
module KeyOrder {
  import opened Bytes

  ghost predicate Injective<K(!new)>(enc: K -> seq<byte>) {
    forall a, b :: enc(a) == enc(b) ==> a == b
  }

  ghost predicate Ascending<K>(r: seq<K>, enc: K -> seq<byte>) {
    forall i, j :: 0 <= i < j < |r| ==> LexLess(enc(r[i]), enc(r[j]))
  }

  /** `r` lists the keys of `s`, each once, in key order. */
  ghost predicate Lists<K(!new)>(r: seq<K>, s: set<K>, enc: K -> seq<byte>) {
    Ascending(r, enc) && forall k :: k in r <==> k in s
  }

  function Insert<K>(x: K, r: seq<K>, enc: K -> seq<byte>): (r': seq<K>)
    ensures |r'| == |r| + 1
  {
    if r == [] then [x]
    else if LexLess(enc(x), enc(r[0])) then [x] + r
    else [r[0]] + Insert(x, r[1..], enc)
  }

  lemma {:induction false} InsertLists<K(!new)>(x: K, r: seq<K>, s: set<K>, enc: K -> seq<byte>)
    requires Injective(enc) && Lists(r, s, enc) && x !in s
    ensures Lists(Insert(x, r, enc), s + {x}, enc)
  {
    if r == [] {
    } else if LexLess(enc(x), enc(r[0])) {
      var r' := [x] + r;
      forall j | 0 < j < |r'| ensures LexLess(enc(x), enc(r'[j])) {
        if j > 1 { LexTransitive(enc(x), enc(r[0]), enc(r[j - 1])); }
      }
      assert forall k :: k in r' <==> k == x || k in r;
    } else {
      var s' := s - {r[0]};
      forall k ensures k in r[1..] <==> k in s' {
        LexIrreflexive(enc(r[0]));
      }
      InsertLists(x, r[1..], s', enc);
      LexTotal(enc(x), enc(r[0]));
      var t := Insert(x, r[1..], enc);
      var r' := [r[0]] + t;
      forall j | 0 < j < |r'| ensures LexLess(enc(r[0]), enc(r'[j])) {
        assert r'[j] in t;
        assert r'[j] in s' + {x};
        if r'[j] != x {
          var i :| 0 <= i < |r[1..]| && r[1..][i] == r'[j];
        }
      }
      forall k ensures k in r' <==> k in s + {x} {
        assert k in r' <==> k == r[0] || k in t;
      }
    }
  }

  /** The keys of `s` in cursor order. */
  ghost function Sorted<K(!new)>(s: set<K>, enc: K -> seq<byte>): (r: seq<K>)
    requires Injective(enc)
    ensures Lists(r, s, enc)
  {
    if s == {} then [] else
      var x :| x in s;
      InsertLists(x, Sorted(s - {x}, enc), s - {x}, enc);
      assert (s - {x}) + {x} == s;
      Insert(x, Sorted(s - {x}, enc), enc)
  }

  lemma {:induction false} ListsLength<K(!new)>(r: seq<K>, s: set<K>, enc: K -> seq<byte>)
    requires Lists(r, s, enc)
    ensures |r| == |s|
  {
    if r == [] {
      assert s == {};
    } else {
      var s' := s - {r[0]};
      forall k ensures k in r[1..] <==> k in s' {
        LexIrreflexive(enc(r[0]));
      }
      ListsLength(r[1..], s', enc);
    }
  }

  /** A cursor order is unique. */
  lemma {:induction false} ListsUnique<K(!new)>(p: seq<K>, q: seq<K>, s: set<K>, enc: K -> seq<byte>)
    requires Lists(p, s, enc) && Lists(q, s, enc)
    ensures p == q
  {
    ListsLength(p, s, enc);
    ListsLength(q, s, enc);
    if p != [] {
      assert p[0] in q && q[0] in p;
      if p[0] != q[0] {
        LexTransitive(enc(p[0]), enc(q[0]), enc(p[0]));
        LexIrreflexive(enc(p[0]));
      }
      var s' := s - {p[0]};
      forall k ensures (k in p[1..] <==> k in s') && (k in q[1..] <==> k in s') {
        LexIrreflexive(enc(p[0]));
      }
      ListsUnique(p[1..], q[1..], s', enc);
      assert p == [p[0]] + p[1..] && q == [q[0]] + q[1..];
    }
  }

  /** Walking a database with a cursor. */
  method Cursor<K(!new, ==)>(s: set<K>, enc: K -> seq<byte>) returns (r: seq<K>)
    requires Injective(enc)
    ensures r == Sorted(s, enc)
  {
    r := [];
    var rest := s;
    while rest != {}
      invariant rest <= s
      invariant Lists(r, s - rest, enc)
      decreases rest
    {
      var x :| x in rest;
      InsertLists(x, r, s - rest, enc);
      r := Insert(x, r, enc);
      assert (s - rest) + {x} == s - (rest - {x});
      rest := rest - {x};
    }
    assert s - rest == s;
    ListsUnique(r, Sorted(s, enc), s, enc);
  }
}
