/** Garbage collection of the chunk store: by age, by use, and the worker that combines them. */
module Collectors {
  import opened AccessOrder
  import opened Basics
  import opened Bytes
  import opened CheckSums
  import opened ChunkStore
  import opened Writer

  function Cutoff(now: nat, timeout: nat): nat {
    if timeout <= now then now - timeout else 0
  }

  function GcBatches(n: nat): nat {
    (n + GC_BATCH - 1) / GC_BATCH
  }

  lemma OneBatchMore(i: nat, end: nat)
    requires i % GC_BATCH == 0 && i < end <= i + GC_BATCH
    ensures GcBatches(end) == GcBatches(i) + 1
  {
    var q := i / GC_BATCH;
    assert (i + GC_BATCH - 1) / GC_BATCH == q && (end + GC_BATCH - 1) / GC_BATCH == q + 1;
  }

  lemma PrefixWithin(keys: seq<AccessKey>, i: nat)
    requires i <= |keys| && |ToSet(keys)| == |keys|
    ensures (forall k :: k in keys[..i] ==> k in ToSet(keys)) && |ToSet(keys[..i])| == i
  {
    var a, b := keys[..i], keys[i..];
    assert keys == a + b;
    assert ToSet(keys) == ToSet(a) + ToSet(b);
    NoMoreThan(a);
    NoMoreThan(b);
  }

  lemma {:induction false} NoMoreThan<T>(s: seq<T>)
    ensures |ToSet(s)| <= |s|
  {
    if s != [] {
      NoMoreThan(s[1..]);
      assert ToSet(s) == {s[0]} + ToSet(s[1..]);
    }
  }

  /** `gc_expired`: with nothing else going on, exactly the entries not used for longer than the timeout go,
      each with its data, in batches, up to the first batch whose transaction fails. `keys` are those gone. */
  method GcExpired(w: WriterThread, now: nat, timeout: nat) returns (ok: bool, removed: nat, ghost keys: seq<AccessKey>)
    modifies w`data, w`access, w`index, w`turn
    ensures w.GetDb() == Delete(old(w.GetDb()), keys) && |ToSet(keys)| == |keys|
    ensures forall k :: k in keys ==> k in old(w.index) && k.time + timeout < now
    ensures ok ==> forall k :: k in old(w.index) ==> (k in w.index <==> k.time + timeout >= now)
    ensures ok ==> removed == |keys| && w.turn == old(w.turn) + GcBatches(|keys|)
                   && forall i :: old(w.turn) <= i < w.turn ==> w.disk(i).Good?
    ensures !ok ==> w.turn == old(w.turn) + GcBatches(|keys|) + 1 && !w.disk(w.turn - 1).Good? && |keys| % GC_BATCH == 0
  {
    var expired := SelectExpired(w.index, Cutoff(now, timeout));
    removed := 0;
    var i := 0;
    assert expired[..0] == [];
    DeleteNothing(w.GetDb());
    while i < |expired|
      invariant 0 <= i == removed <= |expired| && (i == |expired| || i % GC_BATCH == 0)
      invariant w.GetDb() == Delete(old(w.GetDb()), expired[..i])
      invariant w.turn == old(w.turn) + GcBatches(i) && forall t :: old(w.turn) <= t < w.turn ==> w.disk(t).Good?
    {
      var end := if i + GC_BATCH <= |expired| then i + GC_BATCH else |expired|;
      var r;
      ok, r := w.DoDeleteKeys(expired[i..end]);
      if !ok {
        PrefixWithin(expired, i);
        return false, removed, expired[..i];
      }
      OneBatchMore(i, end);
      DeleteTwice(old(w.GetDb()), expired[..i], expired[i..end]);
      assert expired[..i] + expired[i..end] == expired[..end];
      removed := removed + r.removed;
      i := end;
    }
    PrefixWithin(expired, i);
    assert expired[..i] == expired;
    return true, removed, expired;
  }

  /** What the worker deletes it has read earlier, and other threads may have used the store since. Whatever
      they did, the chunks that go are exactly those that had expired when the keys were read, even if they
      have been used again. */
  lemma LateDeletionIff(scanned: Db, keys: seq<AccessKey>, now: nat, timeout: nat, later: Db, cs: CheckSum)
    requires Mirrored(scanned) && cs in later.data
    requires forall k :: k in ToSet(keys) <==> k in scanned.index && k.time + timeout < now
    ensures cs !in Delete(later, keys).data <==> cs in scanned.access && scanned.access[cs] + timeout < now
  {
    if cs in scanned.access && scanned.access[cs] + timeout < now {
      assert AccessKey(scanned.access[cs], cs) in ToSet(keys);
    }
    if cs in SumsOf(keys) {
      var k :| k in keys && k.cs == cs;
      assert k in ToSet(keys);
    }
  }

  /** `gc_lru`: the `max` least recently used entries go (one, when asked for none), or none if the
      transaction fails. */
  method GcLru(w: WriterThread, max: nat) returns (ok: bool, removed: nat)
    modifies w`data, w`access, w`index, w`turn
    ensures var n := if max == 0 then 1 else max;
            && ok == (old(w.index) == {} || w.disk(old(w.turn)).Good?)
            && w.turn == old(w.turn) + (if old(w.index) == {} then 0 else 1)
            && w.GetDb() == (if ok then Evict(old(w.GetDb()), n) else old(w.GetDb()))
            && removed == MinOf(n, |old(w.index)|)
  {
    var targets := SelectOldest(w.index, max);
    assert targets == [] <==> w.index == {};
    var r;
    ok, r := w.DoDeleteKeys(targets);
    removed := r.removed;
  }

  /** What is left of the index after `gc_lru` is the most recently used part of it. */
  lemma LruLeavesMostRecent(db: Db, n: nat)
    ensures |Evict(db, n).index| == |db.index| - MinOf(n, |db.index|)
    ensures forall k, kept :: k in db.index - Evict(db, n).index && kept in Evict(db, n).index ==> k.time <= kept.time
  {
    EvictKeeps(db, n);
    OldestInIndex(db.index, n);
    InOrderLength(db.index);
    OldestDistinct(db.index, n);
    var gone := ToSet(Oldest(db.index, n));
    assert db.index == (db.index - gone) + gone;
  }

  lemma OldestDistinct(index: set<AccessKey>, n: nat)
    ensures |ToSet(Oldest(index, n))| == |Oldest(index, n)|
  {
    AccessKeysInjective();
    InOrderLength(index);
    PrefixDistinct(InOrder(index), MinOf(n, |index|), index);
  }

  // ---- The loop of the worker, as a function of the readings it makes ------------------------------------------

  /** The i-th reading of how full the map is, or an error. */
  type Usage = nat -> Option<real>

  /** How the loop ends: with what result, in which state, and the numbers of the next transaction and
      the next reading. */
  datatype LoopEnd = LoopEnd(ok: bool, db: Db, turn: nat, asked: nat)

  datatype Gc = Gc(disk: Disk, usage: Usage, high: real, low: real)

  /** One round: it ends the loop, or leads to the next. */
  datatype RoundEnd = Over(end: LoopEnd) | More(db: Db, turn: nat, asked: nat)

  ghost function Round(g: Gc, db: Db, turn: nat, asked: nat): (r: RoundEnd)
    ensures r.More? ==> |r.db.index| < |db.index| && r == More(Evict(db, GC_BATCH), turn + 1, asked + 2)
  {
    match g.usage(asked)
    case None => Over(LoopEnd(false, db, turn, asked + 1))
    case Some(u) =>
      if u <= g.high || db.index == {} then Over(LoopEnd(true, db, turn, asked + 1))
      else if !g.disk(turn).Good? then Over(LoopEnd(false, db, turn + 1, asked + 1))
      else
        EvictionShrinks(db.index, GC_BATCH);
        SecondReading(g, Evict(db, GC_BATCH), turn + 1, asked + 1)
  }

  /** The second reading of a round, and what it leads to. */
  ghost function SecondReading(g: Gc, db: Db, turn: nat, asked: nat): RoundEnd {
    match g.usage(asked)
    case None => Over(LoopEnd(false, db, turn, asked + 1))
    case Some(u) => if u <= g.low then Over(LoopEnd(true, db, turn, asked + 1)) else More(db, turn, asked + 1)
  }

  lemma RoundOnFullMap(g: Gc, db: Db, turn: nat, asked: nat)
    requires g.usage(asked).Some? && g.usage(asked).value > g.high
    ensures var r := Round(g, db, turn, asked);
            if db.index == {} then r == Over(LoopEnd(true, db, turn, asked + 1))
            else if !g.disk(turn).Good? then r == Over(LoopEnd(false, db, turn + 1, asked + 1))
            else r == SecondReading(g, Evict(db, GC_BATCH), turn + 1, asked + 1)
  {
  }

  ghost function GcLoop(g: Gc, db: Db, turn: nat, asked: nat): LoopEnd
    decreases |db.index|
  {
    match Round(g, db, turn, asked)
    case Over(end) => end
    case More(db', turn', asked') => GcLoop(g, db', turn', asked')
  }

  /** From transaction `turn` and reading `asked` up to `turn'` and `asked'`, the loop goes through its rounds:
      each reads too much, evicts a batch, and reads that this is not enough. `gone` entries are evicted for
      that, or all there are. */
  predicate WentOn(g: Gc, turn: nat, asked: nat, turn': nat, asked': nat, gone: nat)
    decreases gone
  {
    if gone == 0 then turn' == turn && asked' == asked
    else
      && g.usage(asked).Some? && g.usage(asked).value > g.high && g.disk(turn).Good?
      && g.usage(asked + 1).Some? && g.usage(asked + 1).value > g.low
      && gone >= GC_BATCH && WentOn(g, turn + 1, asked + 2, turn', asked', gone - GC_BATCH)
  }

  /** The round that ends the loop: if its first reading is not above the high watermark, or nothing is left,
      it evicts nothing; else it evicts a batch, unless that fails, and has read that this is enough. A
      reading that fails ends it as well. */
  ghost predicate StopsWith(g: Gc, db: Db, turn: nat, asked: nat, end: LoopEnd) {
    if g.usage(asked).None? then end == LoopEnd(false, db, turn, asked + 1)
    else if g.usage(asked).value <= g.high || db.index == {} then end == LoopEnd(true, db, turn, asked + 1)
    else if !g.disk(turn).Good? then end == LoopEnd(false, db, turn + 1, asked + 1)
    else
      && end == LoopEnd(g.usage(asked + 1).Some?, Evict(db, GC_BATCH), turn + 1, asked + 2)
      && (g.usage(asked + 1).Some? ==> g.usage(asked + 1).value <= g.low)
  }

  lemma RoundStops(g: Gc, db: Db, turn: nat, asked: nat, r: RoundEnd)
    requires r == Round(g, db, turn, asked)
    ensures r.Over? ==> StopsWith(g, db, turn, asked, r.end)
    ensures r.More? ==>
              && g.usage(asked).Some? && g.usage(asked).value > g.high && g.disk(turn).Good?
              && g.usage(asked + 1).Some? && g.usage(asked + 1).value > g.low
              && r.db == Evict(db, GC_BATCH) && r.turn == turn + 1 && r.asked == asked + 2
  {
  }

  lemma LoopUnfolds(g: Gc, db: Db, turn: nat, asked: nat, end: LoopEnd)
    requires end == GcLoop(g, db, turn, asked)
    ensures var r := Round(g, db, turn, asked);
            if r.Over? then end == r.end else end == GcLoop(g, r.db, r.turn, r.asked)
  {
  }

  lemma EvictedThen(db: Db, e: Db, gone: nat, left: Db)
    requires e == Evict(db, GC_BATCH) && left == Evict(e, gone)
    ensures left == Evict(db, GC_BATCH + gone)
  {
    EvictMore(db, GC_BATCH, gone);
  }

  /** The loop, for any readings and any endings of its transactions: it evicts a batch in each round that
      goes on, and one more if the last has. */
  lemma {:induction false} GcLoopTrace(g: Gc, db: Db, turn: nat, asked: nat, end: LoopEnd)
    returns (turn': nat, asked': nat, gone: nat, left: Db)
    requires end == GcLoop(g, db, turn, asked)
    ensures WentOn(g, turn, asked, turn', asked', gone) && left == Evict(db, gone)
    ensures StopsWith(g, left, turn', asked', end)
    decreases |db.index|
  {
    var r := Round(g, db, turn, asked);
    RoundStops(g, db, turn, asked, r);
    LoopUnfolds(g, db, turn, asked, end);
    if r.Over? {
      turn', asked', gone, left := turn, asked, 0, db;
      EvictNone(db);
    } else {
      var rest;
      turn', asked', rest, left := GcLoopTrace(g, r.db, r.turn, r.asked, end);
      gone := GC_BATCH + rest;
      EvictedThen(db, r.db, rest, left);
    }
  }

  /** The last reading the loop has made. */
  function LastReading(g: Gc, end: LoopEnd): Option<real>
  {
    if end.asked == 0 then None else g.usage(end.asked - 1)
  }

  ghost predicate EndsWell(g: Gc, asked: nat, end: LoopEnd) {
    end.ok ==> end.asked > asked && LastReading(g, end).Some?
               && (LastReading(g, end).value <= g.high || end.db.index == {})
  }

  lemma RoundEndsWell(g: Gc, db: Db, turn: nat, asked: nat)
    requires g.low <= g.high && Round(g, db, turn, asked).Over?
    ensures EndsWell(g, asked, Round(g, db, turn, asked).end)
  {
  }

  /** A successful loop ends with a reading of at most the high watermark, or with nothing left. */
  lemma {:induction false} EndsBelowHigh(g: Gc, db: Db, turn: nat, asked: nat)
    requires g.low <= g.high
    ensures EndsWell(g, asked, GcLoop(g, db, turn, asked))
    decreases |db.index|
  {
    match Round(g, db, turn, asked)
    case Over(_) => RoundEndsWell(g, db, turn, asked);
    case More(db', turn', asked') => EndsBelowHigh(g, db', turn', asked');
  }

  /** The loop comes to its head for the k-th time with entries left, and reads a usage between the
      watermarks: every usage it has read there before was above the high one, and every usage it has
      read after a batch above the low one. `n` is the number of entries at the start. */
  ghost predicate ReadsBetween(g: Gc, n: int, asked: nat, k: nat) {
    && GC_BATCH * k < n
    && (forall i {:trigger Head(g, asked, i)} :: 0 <= i < k ==>
        Head(g, asked, i) > g.high && AfterBatch(g, asked, i) > g.low)
    && g.low < Head(g, asked, k) <= g.high
  }

  function Value(r: Option<real>): real {
    if r.Some? then r.value else 0.0
  }

  function Head(g: Gc, asked: nat, i: nat): real {
    Value(g.usage(asked + 2 * i))
  }

  function AfterBatch(g: Gc, asked: nat, i: nat): real {
    Value(g.usage(asked + 2 * i + 1))
  }

  /** The documentation says that collection goes on until usage is down to the low watermark. A
      successful loop ends above it, with entries left, exactly when it reads a usage between the
      watermarks at its head, after batches that have not brought it down to the low one. */
  lemma {:induction false} EndsAboveLowIff(g: Gc, db: Db, turn: nat, asked: nat)
    requires 0.0 <= g.low <= g.high && GcLoop(g, db, turn, asked).ok
    ensures EndsAboveLow(g, GcLoop(g, db, turn, asked)) <==> exists k: nat :: ReadsBetween(g, |db.index|, asked, k)
    decreases |db.index|
  {
    match Round(g, db, turn, asked)
    case Over(end) => BetweenNow(g, db, turn, asked);
    case More(e, turn', later) =>
      EndsAboveLowIff(g, e, turn', later);
      LruLeavesMostRecent(db, GC_BATCH);
      RoundReadings(g, db, turn, asked);
      BetweenLater(g, |db.index|, |e.index|, asked, later);
  }

  ghost predicate EndsAboveLow(g: Gc, end: LoopEnd) {
    Value(LastReading(g, end)) > g.low && end.db.index != {}
  }

  lemma RoundReadings(g: Gc, db: Db, turn: nat, asked: nat)
    requires Round(g, db, turn, asked).More?
    ensures Head(g, asked, 0) > g.high && AfterBatch(g, asked, 0) > g.low
  {
  }

  lemma OnlyFirstRound(g: Gc, n: nat, asked: nat, k: nat)
    requires ReadsBetween(g, n, asked, k)
    ensures k == 0 || (Head(g, asked, 0) > g.high && AfterBatch(g, asked, 0) > g.low)
  {
  }

  lemma BetweenNow(g: Gc, db: Db, turn: nat, asked: nat)
    requires 0.0 <= g.low <= g.high && Round(g, db, turn, asked).Over? && Round(g, db, turn, asked).end.ok
    ensures EndsAboveLow(g, Round(g, db, turn, asked).end) <==> exists k: nat :: ReadsBetween(g, |db.index|, asked, k)
  {
    if EndsAboveLow(g, Round(g, db, turn, asked).end) {
      assert ReadsBetween(g, |db.index|, asked, 0);
    }
    if k: nat :| ReadsBetween(g, |db.index|, asked, k) {
      OnlyFirstRound(g, |db.index|, asked, k);
    }
  }

  lemma BetweenLater(g: Gc, n: nat, m: nat, asked: nat, later: nat)
    requires later == asked + 2 && m == n - MinOf(GC_BATCH, n)
              && Head(g, asked, 0) > g.high && AfterBatch(g, asked, 0) > g.low
    ensures (exists k: nat :: ReadsBetween(g, m, later, k)) <==> exists k: nat :: ReadsBetween(g, n, asked, k)
  {
    if k: nat :| ReadsBetween(g, m, later, k) {
      forall i | 0 <= i < k + 1 ensures Head(g, asked, i) > g.high && AfterBatch(g, asked, i) > g.low {
        if i > 0 { assert Head(g, later, i - 1) > g.high; }
      }
      assert Head(g, later, k) == Head(g, asked, k + 1);
      assert ReadsBetween(g, n, asked, k + 1);
    }
    if k: nat :| ReadsBetween(g, n, asked, k) {
      assert k > 0;
      forall i {:trigger Head(g, later, i)} | 0 <= i < k - 1
          ensures Head(g, later, i) > g.high && AfterBatch(g, later, i) > g.low {
        assert Head(g, asked, i + 1) > g.high;
      }
      assert Head(g, later, k - 1) == Head(g, asked, k);
      assert ReadsBetween(g, m, later, k - 1);
    }
  }

  /** Such a run: at 0.95 a batch goes, 0.85 is not yet low enough to stop, and 0.85 is read again at the
      head, where it is no longer too high. */
  lemma StopsAt85(g: Gc, db: Db)
    requires g.high == 0.9 && g.low == 0.8 && g.disk(0).Good? && |db.index| > GC_BATCH
    requires g.usage(0) == Some(0.95) && g.usage(1) == Some(0.85) && g.usage(2) == Some(0.85)
    ensures var end := GcLoop(g, db, 0, 0);
            end.ok && LastReading(g, end) == Some(0.85) && end.db.index != {} && end.db == Evict(db, GC_BATCH)
  {
    LruLeavesMostRecent(db, GC_BATCH);
    assert Round(g, db, 0, 0) == More(Evict(db, GC_BATCH), 1, 2);
    assert Round(g, Evict(db, GC_BATCH), 1, 2) == Over(LoopEnd(true, Evict(db, GC_BATCH), 1, 3));
  }

  // ---- The worker ----------------------------------------------------------------------------------------------

  datatype NewResult = Worker(worker: GcWorker) | InvalidWatermark

  /** Constructing a worker checks its watermarks. */
  method NewGcWorker(store: WriterThread, expireAfter: nat, high: real, low: real, usage: Usage) returns (r: NewResult)
    ensures r.Worker? <==> 0.0 <= low <= high <= 1.0
    ensures r.Worker? ==> r.worker.store == store && r.worker.expireAfter == expireAfter && r.worker.high == high
                          && r.worker.low == low && r.worker.usage == usage && r.worker.asked == 0
  {
    if !(0.0 <= high <= 1.0) || !(0.0 <= low <= 1.0) || low > high {
      return InvalidWatermark;
    }
    var worker := new GcWorker(store, expireAfter, high, low, usage);
    return Worker(worker);
  }

  class GcWorker {
    const store: WriterThread
    const expireAfter: nat
    const high: real
    const low: real
    /** What the environment says each time it is asked, and how often it has been. */
    const usage: Usage
    var asked: nat

    constructor (store: WriterThread, expireAfter: nat, high: real, low: real, usage: Usage)
      ensures this.store == store && this.expireAfter == expireAfter && this.high == high && this.low == low
      ensures this.usage == usage && asked == 0
    {
      this.store, this.expireAfter, this.high, this.low := store, expireAfter, high, low;
      this.usage, asked := usage, 0;
    }

    function Params(): Gc {
      Gc(store.disk, usage, high, low)
    }

    method UsageRatio() returns (r: Option<real>)
      modifies this`asked
      ensures r == usage(old(asked)) && asked == old(asked) + 1
    {
      r := usage(asked);
      asked := asked + 1;
    }

    /** A batch of the least recently used entries, if there are any. */
    method DeleteBatch() returns (r: Outcome)
      modifies store`data, store`access, store`index, store`turn
      ensures r == (if old(store.index) == {} then MapFull
                    else if store.disk(old(store.turn)).Good? then Done else Failed)
      ensures store.turn == old(store.turn) + (if old(store.index) == {} then 0 else 1)
      ensures store.GetDb() == if r.Done? then Evict(old(store.GetDb()), GC_BATCH) else old(store.GetDb())
    {
      ghost var before := store.GetDb();
      var ok, removed := GcLru(store, GC_BATCH);
      if !ok {
        return Failed;
      }
      if removed == 0 {
        EvictNothing(before);
        return MapFull;
      }
      return Done;
    }

    /** The usage once more, after an eviction. */
    method AskAgain() returns (ok: bool, again: bool)
      modifies this`asked
      ensures SecondReading(Params(), store.GetDb(), store.turn, old(asked))
           == if again then More(store.GetDb(), store.turn, asked)
               else Over(LoopEnd(ok, store.GetDb(), store.turn, asked))
    {
      var usage := UsageRatio();
      return usage.Some?, usage.Some? && usage.value > low;
    }

    /** The rest of a round, the usage at its head being above the high watermark. */
    method ShrinkFull() returns (ok: bool, again: bool)
      requires asked > 0 && usage(asked - 1).Some? && usage(asked - 1).value > high
      modifies this`asked, store`data, store`access, store`index, store`turn
      ensures Round(Params(), old(store.GetDb()), old(store.turn), old(asked) - 1)
           == if again then More(store.GetDb(), store.turn, asked)
               else Over(LoopEnd(ok, store.GetDb(), store.turn, asked))
    {
      RoundOnFullMap(Params(), store.GetDb(), store.turn, asked - 1);
      var removed := DeleteBatch();
      if !removed.Done? {
        return removed.MapFull?, false;
      }
      ghost var evicted := store.GetDb();
      ok, again := AskAgain();
      assert store.GetDb() == evicted;
    }

    /** One round of the loop below. */
    method ShrinkOnce() returns (ok: bool, again: bool)
      modifies this`asked, store`data, store`access, store`index, store`turn
      ensures Round(Params(), old(store.GetDb()), old(store.turn), old(asked))
           == if again then More(store.GetDb(), store.turn, asked)
               else Over(LoopEnd(ok, store.GetDb(), store.turn, asked))
    {
      var usage := UsageRatio();
      if usage.None? {
        return false, false;
      }
      if usage.value <= high {
        return true, false;
      }
      ok, again := ShrinkFull();
    }

    /** The loop of `run`. */
    method Shrink() returns (ok: bool)
      modifies this`asked, store`data, store`access, store`index, store`turn
      ensures LoopEnd(ok, store.GetDb(), store.turn, asked)
                == GcLoop(Params(), old(store.GetDb()), old(store.turn), old(asked))
    {
      ghost var goal := GcLoop(Params(), store.GetDb(), store.turn, asked);
      var again;
      ok, again := ShrinkOnce();
      while again
        invariant if again then GcLoop(Params(), store.GetDb(), store.turn, asked) == goal
                  else LoopEnd(ok, store.GetDb(), store.turn, asked) == goal
        decreases again, |store.index|
      {
        ok, again := ShrinkOnce();
      }
    }

    /** What a run makes of the store: the expired entries go, in batches, and then the loop runs on what
        is left; or, if the transaction of a batch fails, those of the batches before it go. `swept` is
        the number of the first transaction after the sweep. */
    ghost predicate Collected(before: Db, turn: nat, asked: nat, now: nat, expired: seq<AccessKey>,
                              swept: nat, end: LoopEnd) {
      && |ToSet(expired)| == |expired|
      && (forall k :: k in expired ==> k in before.index && k.time + expireAfter < now)
      && if swept == turn + GcBatches(|expired|) then
           && (forall k :: k in before.index && k.time + expireAfter < now ==> k in expired)
           && (forall i :: turn <= i < swept ==> store.disk(i).Good?)
           && end == GcLoop(Params(), Delete(before, expired), swept, asked)
         else
           && |expired| % GC_BATCH == 0
           && swept == turn + GcBatches(|expired|) + 1 && !store.disk(swept - 1).Good?
           && end == LoopEnd(false, Delete(before, expired), swept, asked)
    }

    lemma GoneIff(db: Db, keys: seq<AccessKey>)
      ensures forall k :: k in db.index ==> (k in Delete(db, keys).index <==> k !in keys)
    {
    }

    method Collect(now: nat) returns (ok: bool, ghost expired: seq<AccessKey>, ghost swept: nat)
      modifies this`asked, store`data, store`access, store`index, store`turn
      ensures Collected(old(store.GetDb()), old(store.turn), old(asked), now, expired, swept,
                        LoopEnd(ok, store.GetDb(), store.turn, asked))
    {
      var removed;
      ghost var before := store.GetDb();
      ok, removed, expired := GcExpired(store, now, expireAfter);
      GoneIff(before, expired);
      swept := store.turn;
      if ok {
        ok := Shrink();
      }
    }

    /** `run`. It terminates, and if it succeeds, its last reading is at most the high watermark, or no
        entry is left. */
    method Run(dryRun: bool, now: nat) returns (ok: bool, ghost expired: seq<AccessKey>, ghost swept: nat)
      requires low <= high
      modifies this`asked, store`data, store`access, store`index, store`turn
      ensures dryRun ==> ok && store.GetDb() == old(store.GetDb())
                         && store.turn == old(store.turn) && asked == old(asked)
      ensures !dryRun ==> Collected(old(store.GetDb()), old(store.turn), old(asked), now, expired, swept,
                                    LoopEnd(ok, store.GetDb(), store.turn, asked))
      ensures !dryRun ==> EndsWell(Params(), old(asked), LoopEnd(ok, store.GetDb(), store.turn, asked))
    {
      expired, swept := [], store.turn;
      if dryRun {
        return true, expired, swept;
      }
      ghost var before, turn, first := store.GetDb(), store.turn, asked;
      ok, expired, swept := Collect(now);
      CollectedEndsWell(before, turn, first, now, expired, swept, LoopEnd(ok, store.GetDb(), store.turn, asked));
    }

    lemma CollectedEndsWell(before: Db, turn: nat, asked: nat, now: nat, expired: seq<AccessKey>,
                            swept: nat, end: LoopEnd)
      requires low <= high && Collected(before, turn, asked, now, expired, swept, end)
      ensures EndsWell(Params(), asked, end)
    {
      EndsBelowHigh(Params(), Delete(before, expired), swept, asked);
    }
  }
}
