/** Walking all chunks of the store with a cursor, batch by batch, while the store changes. */
module Enumeration {
  import opened Basics
  import opened Bytes
  import opened CheckSums
  import opened KeyOrder

  predicate After(cs: CheckSum, cursor: Option<CheckSum>) {
    cursor.None? || LexLess(Encode(cursor.value), Encode(cs))
  }

  function KeysAfter(keys: set<CheckSum>, cursor: Option<CheckSum>): set<CheckSum> {
    set cs | cs in keys && After(cs, cursor)
  }

  function AtLeastOne(n: nat): nat {
    if n == 0 then 1 else n
  }

  /** `batch` is the next batch: valid keys after the cursor, in order, none left out before its end,
      and short of the batch size only when there are no more. */
  ghost predicate IsNextBatch(keys: set<CheckSum>, cursor: Option<CheckSum>, size: nat, batch: seq<CheckSum>) {
    && |batch| <= AtLeastOne(size)
    && Ascending(batch, Encode)
    && (forall cs :: cs in batch ==> cs in keys && cs.IsValid() && After(cs, cursor))
    && (forall cs :: cs in keys && cs.IsValid() && After(cs, cursor) && cs !in batch ==>
          |batch| == AtLeastOne(size) && LexLess(Encode(batch[|batch| - 1]), Encode(cs)))
  }

  lemma KeysInjective()
    ensures Injective(Encode)
  {
    forall a, b | Encode(a) == Encode(b) ensures a == b {
      EncodeInjective(a, b);
    }
  }

  /** The valid ones among the first `i` keys shown. */
  ghost predicate Collected(shown: seq<CheckSum>, i: nat, batch: seq<CheckSum>) {
    i <= |shown| && Ascending(batch, Encode) && forall cs :: cs in batch <==> cs in shown[..i] && cs.IsValid()
  }

  lemma CollectOne(shown: seq<CheckSum>, i: nat, batch: seq<CheckSum>)
    requires Ascending(shown, Encode) && i < |shown| && Collected(shown, i, batch)
    ensures Collected(shown, i + 1, if shown[i].IsValid() then batch + [shown[i]] else batch)
  {
    assert shown[..i + 1] == shown[..i] + [shown[i]];
    forall b | b in batch ensures LexLess(Encode(b), Encode(shown[i])) {
      assert b in shown[..i];
    }
  }

  lemma FullBatch(keys: set<CheckSum>, cursor: Option<CheckSum>, size: nat,
                  shown: seq<CheckSum>, i: nat, batch: seq<CheckSum>)
    requires Lists(shown, KeysAfter(keys, cursor), Encode)
    requires Collected(shown, i, batch) && |batch| <= AtLeastOne(size)
    requires i == |shown| || (0 < i && |batch| == AtLeastOne(size) && batch[|batch| - 1] == shown[i - 1])
    ensures IsNextBatch(keys, cursor, size, batch)
  {
    var range := KeysAfter(keys, cursor);
    assert forall cs :: cs in batch ==> cs in shown[..i] && cs in shown && cs in range;
    if i == |shown| {
      assert shown[..i] == shown;
    } else {
      RestComesLater(shown, range, i - 1);
    }
  }

  method Show(keys: set<CheckSum>, cursor: Option<CheckSum>) returns (shown: seq<CheckSum>)
    ensures Lists(shown, KeysAfter(keys, cursor), Encode)
  {
    KeysInjective();
    shown := Cursor(KeysAfter(keys, cursor), Encode);
  }

  /** `next_chunk_batch`. */
  method NextChunkBatch(keys: set<CheckSum>, cursor: Option<CheckSum>, size: nat) returns (batch: seq<CheckSum>)
    ensures IsNextBatch(keys, cursor, size, batch)
    ensures |batch| <= size || |batch| <= 1
  {
    var shown := Show(keys, cursor);
    batch := [];
    var i := 0;
    while i < |shown|
      invariant 0 <= i <= |shown| && |batch| < AtLeastOne(size) && Collected(shown, i, batch)
    {
      CollectOne(shown, i, batch);
      i := i + 1;
      if shown[i - 1].IsValid() {
        batch := batch + [shown[i - 1]];
        if |batch| >= AtLeastOne(size) {
          break;
        }
      }
    }
    FullBatch(keys, cursor, size, shown, i, batch);
  }

  lemma RestComesLater(shown: seq<CheckSum>, range: set<CheckSum>, i: nat)
    requires Lists(shown, range, Encode) && i < |shown|
    ensures forall cs :: cs in range && cs !in shown[..i + 1] ==> LexLess(Encode(shown[i]), Encode(cs))
  {
    forall cs | cs in range && cs !in shown[..i + 1] ensures LexLess(Encode(shown[i]), Encode(cs)) {
      assert cs in shown;
      var j :| 0 <= j < |shown| && shown[j] == cs;
    }
  }

  /** A valid chunk that is there in each of the states. */
  ghost predicate Stable(states: seq<set<CheckSum>>, cs: CheckSum) {
    cs.IsValid() && forall i :: 0 <= i < |states| ==> cs in states[i]
  }

  ghost predicate Occurs(states: seq<set<CheckSum>>, cs: CheckSum) {
    cs.IsValid() && exists i :: 0 <= i < |states| && cs in states[i]
  }

  /** The loop of `sync`, of the fallback of `refresh` and of a cycle of `repair`: batch after batch,
      the cursor at the last key seen. `states[i]` is the store as the i-th call finds it, for others
      add and delete in between. Nothing is visited twice; once the walk is over, after `calls` calls,
      every valid chunk that was there throughout has been visited; and it is over in at most one call
      more than there are chunks that ever appear (`universe`). */
  method VisitAll(states: seq<set<CheckSum>>, size: nat, ghost universe: set<CheckSum>)
      returns (visited: seq<CheckSum>, over: bool, calls: nat)
    requires forall i :: 0 <= i < |states| ==> states[i] <= universe
    ensures calls <= |states| && calls <= |universe| + 1 && (!over ==> calls == |states|)
    ensures forall i, j :: 0 <= i < j < |visited| ==> visited[i] != visited[j]
    ensures forall cs :: cs in visited ==> Occurs(states[..calls], cs)
    ensures over ==> forall cs :: Stable(states[..calls], cs) ==> cs in visited
    ensures |states| > |universe| ==> over
  {
    visited, over, calls := [], false, 0;
    var cursor := None;
    while calls < |states|
      invariant calls <= |states| && !over && |visited| >= calls
      invariant Visited(visited, cursor)
      invariant forall cs :: cs in visited ==> Occurs(states[..calls], cs) && cs in universe
      invariant forall cs :: Stable(states[..calls], cs) && !After(cs, cursor) ==> cs in visited
    {
      var batch := NextChunkBatch(states[calls], cursor, size);
      AscendingDistinct(visited, universe);
      OneCallMore(states, calls, cursor, size, batch, visited);
      calls := calls + 1;
      if |batch| == 0 {
        over := true;
        return;
      }
      VisitedThen(visited, cursor, batch);
      visited := visited + batch;
      cursor := Some(batch[|batch| - 1]);
    }
    AscendingDistinct(visited, universe);
  }

  lemma OneCallMore(states: seq<set<CheckSum>>, i: nat, cursor: Option<CheckSum>, size: nat, batch: seq<CheckSum>,
                    visited: seq<CheckSum>)
    requires i < |states| && IsNextBatch(states[i], cursor, size, batch)
    requires forall cs :: cs in visited ==> Occurs(states[..i], cs)
    requires forall cs :: Stable(states[..i], cs) && !After(cs, cursor) ==> cs in visited
    ensures forall cs :: cs in visited + batch ==> Occurs(states[..i + 1], cs)
    ensures forall cs :: Stable(states[..i + 1], cs) && (batch == [] || !After(cs, Some(batch[|batch| - 1])))
                         ==> cs in visited + batch
  {
    var now := states[..i + 1];
    assert now[i] == states[i];
    forall cs | cs in visited + batch ensures Occurs(now, cs) {
      if cs in batch {
        assert cs in now[i];
      } else {
        var k :| 0 <= k < |states[..i]| && cs in states[..i][k];
        assert cs in now[k];
      }
    }
    forall cs | Stable(now, cs) && (batch == [] || !After(cs, Some(batch[|batch| - 1])))
      ensures cs in visited + batch
    {
      assert forall k :: 0 <= k < |states[..i]| ==> states[..i][k] == now[k];
      assert Stable(states[..i], cs);
      assert cs in states[i];
    }
  }

  /** The keys seen so far ascend up to the cursor. */
  ghost predicate Visited(visited: seq<CheckSum>, cursor: Option<CheckSum>) {
    Ascending(visited, Encode) && cursor == if visited == [] then None else Some(visited[|visited| - 1])
  }

  lemma VisitedThen(visited: seq<CheckSum>, cursor: Option<CheckSum>, batch: seq<CheckSum>)
    requires Visited(visited, cursor) && batch != [] && Ascending(batch, Encode)
    requires forall cs :: cs in batch ==> After(cs, cursor)
    ensures Visited(visited + batch, Some(batch[|batch| - 1]))
  {
    var all := visited + batch;
    forall i, j | 0 <= i < j < |all| ensures LexLess(Encode(all[i]), Encode(all[j])) {
      if i < |visited| <= j {
        assert all[j] in batch;
        if i < |visited| - 1 {
          LexTransitive(Encode(all[i]), Encode(visited[|visited| - 1]), Encode(all[j]));
        }
      }
    }
  }

  lemma AscendingDistinct(s: seq<CheckSum>, universe: set<CheckSum>)
    requires Ascending(s, Encode) && forall cs :: cs in s ==> cs in universe
    ensures forall i, j :: 0 <= i < j < |s| ==> s[i] != s[j]
    ensures |s| <= |universe|
  {
    forall i, j | 0 <= i < j < |s| ensures s[i] != s[j] {
      LexIrreflexive(Encode(s[i]));
    }
    var seen := set cs | cs in s;
    ListsLength(s, seen, Encode);
    assert universe == seen + (universe - seen);
  }
}
