/** The chunk store: three database maps, changed in transactions, and what the transactions of its
    one writer thread make of them. */
module ChunkStore {
  import opened AccessOrder
  import opened Basics
  import opened Bytes
  import opened CheckSums

  const GC_BATCH: nat := 128
  const ACCESS_BATCH_SIZE: nat := 1024
  const ADD_CHUNKS_BATCH_SIZE: nat := 16
  const ACCESS_UPDATE_MIN_INTERVAL_SECS: nat := 60

  /** A state of the three databases. */
  datatype Db = Db(data: map<CheckSum, seq<byte>>, access: map<CheckSum, u64>, index: set<AccessKey>)

  // ---- Transactions as functions ------------------------------------------------------------------

  /** `update_access`. */
  function Touch(db: Db, cs: CheckSum, now: u64): Db {
    if cs in db.access && (now <= db.access[cs] || now - db.access[cs] < ACCESS_UPDATE_MIN_INTERVAL_SECS) then db
    else
      var index := if cs in db.access then db.index - {AccessKey(db.access[cs], cs)} else db.index;
      Db(db.data, db.access[cs := now], index + {AccessKey(now, cs)})
  }

  function TouchAll(db: Db, batch: seq<CheckSum>, now: u64): Db
    decreases |batch|
  {
    if batch == [] then db else TouchAll(Touch(db, batch[0], now), batch[1..], now)
  }

  function SumsOf(keys: seq<AccessKey>): set<CheckSum> {
    set k | k in keys :: k.cs
  }

  function Delete(db: Db, keys: seq<AccessKey>): Db {
    Db(db.data - SumsOf(keys), db.access - SumsOf(keys), db.index - ToSet(keys))
  }

  /** The store after the `n` least recently used entries have gone. */
  ghost function Evict(db: Db, n: nat): Db {
    Delete(db, Oldest(db.index, n))
  }

  function Put(data: map<CheckSum, seq<byte>>, chunk: Chunk): map<CheckSum, seq<byte>> {
    if chunk.0 in data then data else data[chunk.0 := chunk.1]
  }

  function PutAll(data: map<CheckSum, seq<byte>>, batch: seq<Chunk>): map<CheckSum, seq<byte>>
    decreases |batch|
  {
    if batch == [] then data else PutAll(Put(data, batch[0]), batch[1..])
  }

  function SumsOfChunks(batch: seq<Chunk>): set<CheckSum> {
    set c | c in batch :: c.0
  }

  // ---- Invariants of the metadata --------------------------------------------------------------------

  /** Every access time has its index entry. */
  ghost predicate Indexed(db: Db) {
    forall cs :: cs in db.access ==> AccessKey(db.access[cs], cs) in db.index
  }

  /** And every index entry is one: access times and index mirror each other. */
  ghost predicate Mirrored(db: Db) {
    Indexed(db) && forall k :: k in db.index ==> k.cs in db.access && db.access[k.cs] == k.time
  }

  /** An access time is due for renewal: there is none, or it is a minute old. */
  predicate Due(db: Db, cs: CheckSum, now: u64) {
    cs !in db.access || now >= db.access[cs] + ACCESS_UPDATE_MIN_INTERVAL_SECS
  }

  /** The chunk's time afterwards. */
  function TimeAfter(db: Db, cs: CheckSum, now: u64): u64 {
    if Due(db, cs, now) then now else db.access[cs]
  }

  /** One update: if it is due, the time is `now`, and its key replaces the old one; else nothing changes. */
  lemma TouchExact(db: Db, cs: CheckSum, now: u64)
    ensures var db' := Touch(db, cs, now);
            && db'.data == db.data
            && (!Due(db, cs, now) ==> db' == db)
            && (Due(db, cs, now) ==>
                  && db'.access == db.access[cs := now]
                  && forall k :: k in db'.index <==>
                       k == AccessKey(now, cs)
                       || (k in db.index && !(cs in db.access && k == AccessKey(db.access[cs], cs))))
  {
  }

  lemma TouchKeeps(db: Db, cs: CheckSum, now: u64)
    ensures Indexed(db) ==> Indexed(Touch(db, cs, now))
    ensures Mirrored(db) ==> Mirrored(Touch(db, cs, now))
    ensures forall c :: TimeAfter(Touch(db, cs, now), c, now) == TimeAfter(db, c, now)
  {
  }

  /** After the update of a batch each of its chunks that was due has the time `now`; no other time and
      no data has changed, and the metadata invariants are kept. */
  lemma {:induction false} TouchAllKeeps(db: Db, batch: seq<CheckSum>, now: u64)
    ensures var db' := TouchAll(db, batch, now);
            && (Indexed(db) ==> Indexed(db'))
            && (Mirrored(db) ==> Mirrored(db'))
            && db'.data == db.data
            && db'.access.Keys == db.access.Keys + ToSet(batch)
            && (forall c :: c in db'.access ==>
                  db'.access[c] == if c in batch then TimeAfter(db, c, now) else db.access[c])
    decreases |batch|
  {
    if batch != [] {
      TouchExact(db, batch[0], now);
      TouchKeeps(db, batch[0], now);
      TouchAllKeeps(Touch(db, batch[0], now), batch[1..], now);
      assert batch == [batch[0]] + batch[1..];
    }
  }

  /** Its index entries: the key of each renewed time replaces the old one, all others stay. */
  lemma {:induction false} TouchAllIndex(db: Db, batch: seq<CheckSum>, now: u64, k: AccessKey)
    ensures k in TouchAll(db, batch, now).index <==>
            if k.cs in batch && Due(db, k.cs, now) && k.time == now then true
            else k in db.index
                 && !(k.cs in batch && Due(db, k.cs, now) && k.cs in db.access && k.time == db.access[k.cs])
    decreases |batch|
  {
    if batch != [] {
      TouchExact(db, batch[0], now);
      TouchAllIndex(Touch(db, batch[0], now), batch[1..], now, k);
      assert batch == [batch[0]] + batch[1..];
    }
  }

  /** Whatever keys are deleted, stale or fresh, access times stay indexed. */
  lemma DeleteKeepsIndexed(db: Db, keys: seq<AccessKey>)
    requires Indexed(db)
    ensures Indexed(Delete(db, keys))
  {
    forall cs | cs in Delete(db, keys).access ensures AccessKey(db.access[cs], cs) in Delete(db, keys).index {
      assert AccessKey(db.access[cs], cs).cs == cs;
    }
  }

  /** With every key deleted, the chunk's current key is deleted too. */
  ghost predicate NoneStale(db: Db, keys: seq<AccessKey>) {
    forall k :: k in keys && k.cs in db.access ==> AccessKey(db.access[k.cs], k.cs) in keys
  }

  /** The mirror survives a deletion exactly when none of the keys is stale: a stale key takes the
      chunk's access time with it but leaves its current index entry behind. */
  lemma DeleteKeepsMirrorIff(db: Db, keys: seq<AccessKey>)
    requires Mirrored(db)
    ensures Mirrored(Delete(db, keys)) <==> NoneStale(db, keys)
  {
    var db' := Delete(db, keys);
    DeleteKeepsIndexed(db, keys);
    if NoneStale(db, keys) {
      forall k | k in db'.index ensures k.cs in db'.access && db'.access[k.cs] == k.time {
        assert AccessKey(db.access[k.cs], k.cs) == k;
      }
    } else {
      var k :| k in keys && k.cs in db.access && AccessKey(db.access[k.cs], k.cs) !in keys;
      assert AccessKey(db.access[k.cs], k.cs) in db'.index;
      assert k.cs in SumsOf(keys);
    }
  }

  /** It does happen: a key read before the chunk was touched again, deleted after. */
  lemma StaleKeyBreaksMirror(cs: CheckSum)
    ensures var db := Db(map[], map[cs := 100], {AccessKey(100, cs)});
            Mirrored(db) && !Mirrored(Delete(db, [AccessKey(0, cs)]))
  {
    var db := Db(map[], map[cs := 100], {AccessKey(100, cs)});
    DeleteKeepsMirrorIff(db, [AccessKey(0, cs)]);
    assert AccessKey(0, cs) in [AccessKey(0, cs)];
  }

  /** Keys the index itself shows are never stale while it mirrors the access times. */
  lemma IndexKeysFresh(db: Db, keys: seq<AccessKey>)
    requires Mirrored(db) && ToSet(keys) <= db.index
    ensures NoneStale(db, keys)
  {
    forall k | k in keys && k.cs in db.access ensures AccessKey(db.access[k.cs], k.cs) in keys {
      assert k in ToSet(keys);
    }
  }

  lemma DeleteTwice(db: Db, a: seq<AccessKey>, b: seq<AccessKey>)
    ensures Delete(Delete(db, a), b) == Delete(db, a + b)
  {
    assert ToSet(a + b) == ToSet(a) + ToSet(b);
    assert SumsOf(a + b) == SumsOf(a) + SumsOf(b);
  }

  lemma DeleteNothing(db: Db)
    ensures Delete(db, []) == db
  {
    assert SumsOf([]) == {};
  }

  lemma EvictMore(db: Db, m: nat, n: nat)
    ensures Evict(Evict(db, m), n) == Evict(db, m + n)
  {
    OldestContinues(db.index, m, n);
    DeleteTwice(db, Oldest(db.index, m), Oldest(Evict(db, m).index, n));
  }

  lemma EvictNone(db: Db)
    ensures Evict(db, 0) == db
  {
    assert Oldest(db.index, 0) == [];
    assert SumsOf([]) == {};
  }

  lemma OldestInIndex(index: set<AccessKey>, n: nat)
    ensures ToSet(Oldest(index, n)) <= index
  {
    forall k | k in Oldest(index, n) ensures k in index {
      assert k in InOrder(index);
    }
  }

  /** Eviction keeps both invariants, and takes no entry more recent than one it leaves. */
  lemma EvictKeeps(db: Db, n: nat)
    ensures Indexed(db) ==> Indexed(Evict(db, n))
    ensures Mirrored(db) ==> Mirrored(Evict(db, n))
    ensures forall k, kept :: k in db.index - Evict(db, n).index && kept in Evict(db, n).index ==> k.time <= kept.time
  {
    OldestInIndex(db.index, n);
    if Indexed(db) { DeleteKeepsIndexed(db, Oldest(db.index, n)); }
    if Mirrored(db) {
      IndexKeysFresh(db, Oldest(db.index, n));
      DeleteKeepsMirrorIff(db, Oldest(db.index, n));
    }
    forall k, kept | k in db.index - Evict(db, n).index && kept in Evict(db, n).index ensures k.time <= kept.time {
      OldestAreOldest(db.index, n, k, kept);
    }
  }

  /** A transaction of puts leaves every chunk of the batch present, and what was there unchanged. */
  lemma {:induction false} PutAllKeeps(data: map<CheckSum, seq<byte>>, batch: seq<Chunk>)
    ensures PutAll(data, batch).Keys == data.Keys + SumsOfChunks(batch)
    ensures forall cs :: cs in data ==> PutAll(data, batch)[cs] == data[cs]
    ensures forall cs :: cs in PutAll(data, batch) && cs !in data ==> (cs, PutAll(data, batch)[cs]) in batch
    decreases |batch|
  {
    if batch != [] {
      PutAllKeeps(Put(data, batch[0]), batch[1..]);
      assert batch == [batch[0]] + batch[1..];
    }
  }

  lemma {:induction false} PutAllThen(data: map<CheckSum, seq<byte>>, batch: seq<Chunk>, c: Chunk)
    ensures PutAll(data, batch + [c]) == Put(PutAll(data, batch), c)
    decreases |batch|
  {
    if batch == [] {
      assert batch + [c] == [c] && [c][1..] == [];
    } else {
      PutAllThen(Put(data, batch[0]), batch[1..], c);
      assert (batch + [c])[1..] == batch[1..] + [c];
    }
  }

  // ---- How transactions end --------------------------------------------------------------------------

  /** A write transaction commits, finds the map full, or fails otherwise; in the last two cases it
      leaves no trace. */
  datatype Ending = Good | Full | Bad

  /** The environment's part: how the i-th write transaction ends. */
  type Disk = nat -> Ending

  /** How a request to add ended. `MapFull`: no room, and nothing left to evict. */
  datatype Outcome = Done | MapFull | Failed

  /** `done`: so many chunks of the request were added; `turn`: the number of the next transaction. */
  datatype AddResult = AddResult(outcome: Outcome, db: Db, turn: nat, done: nat)

  lemma EvictionShrinks(index: set<AccessKey>, n: nat)
    requires n > 0 && index != {}
    ensures |index - ToSet(Oldest(index, n))| < |index|
  {
    OldestInIndex(index, n);
    var k := Oldest(index, n)[0];
    assert k in ToSet(Oldest(index, n)) && k in index;
    var rest := index - ToSet(Oldest(index, n));
    assert rest <= index - {k};
    SubsetSmaller(rest, index - {k});
  }

  /** One try at a sub-batch, and the eviction of a batch of the least recent entries, in a transaction
      of its own, if it finds the map full. */
  datatype Attempt = Ended(result: AddResult) | Again(db: Db, turn: nat)

  ghost function Try(disk: Disk, db: Db, batch: seq<Chunk>, turn: nat): (a: Attempt)
    ensures a.Again? ==> |a.db.index| < |db.index| && a.db == Evict(db, GC_BATCH)
  {
    match disk(turn)
    case Good => Ended(AddResult(Done, Db(PutAll(db.data, batch), db.access, db.index), turn + 1, |batch|))
    case Bad => Ended(AddResult(Failed, db, turn + 1, 0))
    case Full =>
      if db.index == {} then Ended(AddResult(MapFull, db, turn + 1, 0))
      else if !disk(turn + 1).Good? then Ended(AddResult(Failed, db, turn + 2, 0))
      else
        EvictionShrinks(db.index, GC_BATCH);
        Again(Evict(db, GC_BATCH), turn + 2)
  }

  lemma TryOnFullMap(disk: Disk, db: Db, batch: seq<Chunk>, turn: nat)
    requires disk(turn).Full?
    ensures var a := Try(disk, db, batch, turn);
            if db.index == {} then a == Ended(AddResult(MapFull, db, turn + 1, 0))
            else if !disk(turn + 1).Good? then a == Ended(AddResult(Failed, db, turn + 2, 0))
            else a == Again(Evict(db, GC_BATCH), turn + 2)
  {
  }

  /** `do_add_chunks_sub_batch`, and `do_add_chunk` for a batch of one: try until it is over. */
  ghost function AddSub(disk: Disk, db: Db, batch: seq<Chunk>, turn: nat): AddResult
    decreases |db.index|
  {
    match Try(disk, db, batch, turn)
    case Ended(result) => result
    case Again(db', turn') => AddSub(disk, db', batch, turn')
  }

  /** The last try at a sub-batch, in transaction `last`: it commits and the sub-batch is done, or it fails;
      or it finds the map full with nothing left to evict, or with an eviction that fails. */
  ghost predicate Stopped(disk: Disk, left: Db, batch: seq<Chunk>, last: nat, r: AddResult) {
    match disk(last)
    case Good => r == AddResult(Done, Db(PutAll(left.data, batch), left.access, left.index), last + 1, |batch|)
    case Bad => r == AddResult(Failed, left, last + 1, 0)
    case Full =>
      if left.index == {} then r == AddResult(MapFull, left, last + 1, 0)
      else !disk(last + 1).Good? && r == AddResult(Failed, left, last + 2, 0)
  }

  /** From transaction `turn` up to `last`, each try finds the map full and is followed by an eviction that
      commits; `gone` entries are evicted for that, or all there are. */
  predicate MadeRoom(disk: Disk, turn: nat, last: nat, gone: nat)
    decreases gone
  {
    if gone == 0 then turn == last
    else disk(turn).Full? && disk(turn + 1).Good? && gone >= GC_BATCH && MadeRoom(disk, turn + 2, last, gone - GC_BATCH)
  }

  lemma TryStops(disk: Disk, db: Db, batch: seq<Chunk>, turn: nat)
    ensures var a := Try(disk, db, batch, turn);
            if a.Ended? then Stopped(disk, db, batch, turn, a.result)
            else disk(turn).Full? && disk(turn + 1).Good? && a.db == Evict(db, GC_BATCH) && a.turn == turn + 2
  {
  }

  lemma AddSubUnfolds(disk: Disk, db: Db, batch: seq<Chunk>, turn: nat, r: AddResult)
    requires r == AddSub(disk, db, batch, turn)
    ensures var a := Try(disk, db, batch, turn);
            if a.Ended? then r == a.result else r == AddSub(disk, a.db, batch, a.turn)
  {
  }

  /** So a sub-batch goes: room is made, and then comes the last try. */
  lemma {:induction false} AddSubTrace(disk: Disk, db: Db, batch: seq<Chunk>, turn: nat, r: AddResult)
    returns (last: nat, gone: nat, left: Db)
    requires r == AddSub(disk, db, batch, turn)
    ensures last >= turn && MadeRoom(disk, turn, last, gone)
    ensures left == Evict(db, gone) && Stopped(disk, left, batch, last, r)
    decreases |db.index|
  {
    var a := Try(disk, db, batch, turn);
    TryStops(disk, db, batch, turn);
    AddSubUnfolds(disk, db, batch, turn, r);
    if a.Ended? {
      last, gone, left := turn, 0, db;
      EvictNone(db);
    } else {
      var rest;
      last, rest, left := AddSubTrace(disk, a.db, batch, a.turn, r);
      gone := GC_BATCH + rest;
      OneRoomMore(disk, db, a.db, turn, last, rest, left);
    }
  }

  lemma OneRoomMore(disk: Disk, db: Db, e: Db, turn: nat, last: nat, gone: nat, left: Db)
    requires disk(turn).Full? && disk(turn + 1).Good? && MadeRoom(disk, turn + 2, last, gone)
    requires e == Evict(db, GC_BATCH) && left == Evict(e, gone)
    ensures MadeRoom(disk, turn, last, GC_BATCH + gone) && left == Evict(db, GC_BATCH + gone)
  {
    EvictMore(db, GC_BATCH, gone);
  }

  lemma AddSubOutcome(disk: Disk, db: Db, batch: seq<Chunk>, turn: nat, r: AddResult)
    requires r == AddSub(disk, db, batch, turn)
    ensures r.turn > turn && (r.outcome.Done? <==> disk(r.turn - 1).Good?) && (r.outcome.Done? ==> r.done == |batch|)
  {
    var last, gone, left := AddSubTrace(disk, db, batch, turn, r);
    StoppedOutcome(disk, left, batch, last, r);
  }

  lemma StoppedOutcome(disk: Disk, left: Db, batch: seq<Chunk>, last: nat, r: AddResult)
    requires Stopped(disk, left, batch, last, r)
    ensures r.turn > last && (r.outcome.Done? <==> disk(r.turn - 1).Good?) && (r.outcome.Done? ==> r.done == |batch|)
  {
  }

  function FirstOf<T>(s: seq<T>, n: nat): nat {
    if |s| <= n then |s| else n
  }

  /** `do_add_chunks_batch`: sub-batch by sub-batch, up to the first that fails. */
  ghost function AddAll(disk: Disk, db: Db, chunks: seq<Chunk>, turn: nat): (r: AddResult)
    ensures r.done <= |chunks| && (r.outcome.Done? ==> r.done == |chunks|)
    decreases |chunks|
  {
    if chunks == [] then AddResult(Done, db, turn, 0)
    else
      var n := FirstOf(chunks, ADD_CHUNKS_BATCH_SIZE);
      var r := AddSub(disk, db, chunks[..n], turn);
      if !r.outcome.Done? then r.(done := 0)
      else
        var more := AddAll(disk, r.db, chunks[n..], r.turn);
        more.(done := n + more.done)
  }

  /** The access updates `s` in batches, one transaction each. */
  function Commits(disk: Disk, db: Db, s: seq<CheckSum>, now: u64, turn: nat): Db
    decreases |s|
  {
    if s == [] then db
    else
      var n := FirstOf(s, ACCESS_BATCH_SIZE);
      Commits(disk, if disk(turn).Good? then TouchAll(db, s[..n], now) else db, s[n..], now, turn + 1)
  }

  /** The updates of the batches whose transactions fail. */
  function Lost(disk: Disk, s: seq<CheckSum>, turn: nat): set<CheckSum>
    decreases |s|
  {
    if s == [] then {}
    else
      var n := FirstOf(s, ACCESS_BATCH_SIZE);
      (if disk(turn).Good? then {} else ToSet(s[..n])) + Lost(disk, s[n..], turn + 1)
  }

  function Batches(n: nat): nat {
    (n + ACCESS_BATCH_SIZE - 1) / ACCESS_BATCH_SIZE
  }

  /** The chunks whose index entries are gone. */
  function EvictedSums(before: set<AccessKey>, after: set<AccessKey>): set<CheckSum> {
    set k | k in before - after :: k.cs
  }

  /** What adding `batch` may do to the store. Entries leave the index, never enter it; the metadata
      invariants are kept; data is only ever added, as the batch has it, or evicted with its index
      entry; and what is not there of the batch has been evicted. */
  ghost predicate Added(before: Db, batch: seq<Chunk>, after: Db) {
    && after.index <= before.index
    && (Indexed(before) ==> Indexed(after)) && (Mirrored(before) ==> Mirrored(after))
    && (forall cs :: cs in before.data ==> cs in after.data || cs in EvictedSums(before.index, after.index))
    && (forall cs :: cs in after.data ==>
          (cs in before.data && after.data[cs] == before.data[cs]) || (cs, after.data[cs]) in batch)
    && (forall cs :: cs in after.data && cs in before.access ==> cs in after.access || cs in SumsOfChunks(batch))
    && (forall c :: c in batch ==> c.0 in after.data || c.0 in EvictedSums(before.index, after.index))
  }

  lemma AddedNothing(db: Db)
    ensures Added(db, [], db)
  {
  }

  lemma SubBatchAdds(before: Db, n: nat, batch: seq<Chunk>, after: Db, r: Outcome)
    requires var e := Evict(before, n); after == if r.Done? then Db(PutAll(e.data, batch), e.access, e.index) else e
    ensures Added(before, if r.Done? then batch else [], after)
    ensures r.Done? ==> SumsOfChunks(batch) <= after.data.Keys
  {
    var e := Evict(before, n);
    EvictKeeps(before, n);
    OldestInIndex(before.index, n);
    PutAllKeeps(e.data, batch);
    forall cs | cs in SumsOf(Oldest(before.index, n)) ensures cs in EvictedSums(before.index, after.index) {
      var k :| k in Oldest(before.index, n) && k.cs == cs;
      assert k in ToSet(Oldest(before.index, n)) && k in before.index - after.index;
    }
  }

  lemma AddedThen(a: Db, xs: seq<Chunk>, b: Db, ys: seq<Chunk>, c: Db)
    requires Added(a, xs, b) && Added(b, ys, c)
    ensures Added(a, xs + ys, c)
    ensures SumsOfChunks(xs + ys) == SumsOfChunks(xs) + SumsOfChunks(ys)
  {
    assert EvictedSums(a.index, c.index) == EvictedSums(a.index, b.index) + EvictedSums(b.index, c.index) by {
      assert a.index - c.index == (a.index - b.index) + (b.index - c.index);
    }
  }

  /** If what was stored was accounted for, so is what is stored now. */
  lemma AddedAccounts(before: Db, batch: seq<Chunk>, after: Db, others: set<CheckSum>)
    requires Added(before, batch, after) && before.data.Keys <= before.access.Keys + others
    ensures after.data.Keys <= after.access.Keys + others + SumsOfChunks(batch)
  {
    forall cs | cs in after.data ensures cs in after.access || cs in others || cs in SumsOfChunks(batch) {
      if !(cs in before.data) { assert (cs, after.data[cs]) in batch; }
    }
  }

  /** The add of one sub-batch has evicted the `k` least recent entries and then, if it succeeded, put
      its chunks. "Map full" means that there was nothing left to evict. */
  ghost predicate SubEffect(db: Db, batch: seq<Chunk>, r: AddResult, k: nat) {
    var e := Evict(db, k);
    && r.db == (if r.outcome.Done? then Db(PutAll(e.data, batch), e.access, e.index) else e)
    && (r.outcome.MapFull? ==> r.db.index == {})
    && (r.outcome.Done? ==> r.done == |batch|)
  }

  lemma SubEffectMore(db: Db, batch: seq<Chunk>, r: AddResult, m: nat, n: nat)
    requires SubEffect(Evict(db, m), batch, r, n)
    ensures SubEffect(db, batch, r, m + n)
  {
    EvictMore(db, m, n);
  }

  ghost predicate HasSubEffect(db: Db, batch: seq<Chunk>, r: AddResult) {
    exists k: nat :: SubEffect(db, batch, r, k)
  }

  lemma LastTry(disk: Disk, db: Db, batch: seq<Chunk>, turn: nat)
    requires Try(disk, db, batch, turn).Ended?
    ensures HasSubEffect(db, batch, Try(disk, db, batch, turn).result)
  {
    EvictNone(db);
    assert SubEffect(db, batch, Try(disk, db, batch, turn).result, 0);
  }

  lemma AfterEviction(db: Db, e: Db, batch: seq<Chunk>, r: AddResult)
    requires e == Evict(db, GC_BATCH) && HasSubEffect(e, batch, r)
    ensures HasSubEffect(db, batch, r)
  {
    var k: nat :| SubEffect(e, batch, r, k);
    SubEffectMore(db, batch, r, GC_BATCH, k);
  }

  lemma {:induction false} AddSubEffect(disk: Disk, db: Db, batch: seq<Chunk>, turn: nat)
    ensures HasSubEffect(db, batch, AddSub(disk, db, batch, turn))
    decreases |db.index|
  {
    match Try(disk, db, batch, turn)
    case Ended(result) => LastTry(disk, db, batch, turn);
    case Again(e, turn') =>
      AddSubEffect(disk, e, batch, turn');
      AfterEviction(db, e, batch, AddSub(disk, e, batch, turn'));
  }

  /** An add of any number of sub-batches: `done` chunks are added, and only the `k` least recent
      entries of the index, taken over all sub-batches, are evicted. */
  ghost predicate AllEffect(db: Db, chunks: seq<Chunk>, r: AddResult, k: nat) {
    && r.done <= |chunks| && Added(db, chunks[..r.done], r.db)
    && r.db.index == Evict(db, k).index
    && (r.outcome.MapFull? ==> r.db.index == {})
  }

  ghost predicate HasEffect(db: Db, chunks: seq<Chunk>, r: AddResult) {
    exists k: nat :: AllEffect(db, chunks, r, k)
  }

  lemma SubIsAll(db: Db, chunks: seq<Chunk>, n: nat, r: AddResult, k: nat, all: AddResult)
    requires n <= |chunks| && SubEffect(db, chunks[..n], r, k) && all == r.(done := if r.outcome.Done? then n else 0)
    ensures HasEffect(db, chunks, all)
  {
    SubBatchAdds(db, k, chunks[..n], r.db, r.outcome);
    assert chunks[..0] == [];
    assert AllEffect(db, chunks, all, k);
  }

  lemma AllEffectMore(db: Db, chunks: seq<Chunk>, n: nat, r: AddResult, m: nat, more: AddResult, k: nat, all: AddResult)
    requires n <= |chunks| && AllEffect(db, chunks, r, m) && r.done == n
    requires AllEffect(r.db, chunks[n..], more, k) && all == more.(done := n + more.done)
    ensures AllEffect(db, chunks, all, m + k)
  {
    AddedMore(db, chunks, n, r.db, more.done, more.db);
    EvictIndexMore(db, r.db, m, k);
  }

  lemma AddedMore(a: Db, chunks: seq<Chunk>, n: nat, b: Db, m: nat, c: Db)
    requires n <= |chunks| && m <= |chunks[n..]| && Added(a, chunks[..n], b) && Added(b, chunks[n..][..m], c)
    ensures n + m <= |chunks| && Added(a, chunks[..n + m], c)
  {
    AddedJoined(a, chunks, n, b, m, c);
  }

  lemma HasEffectMore(db: Db, chunks: seq<Chunk>, n: nat, r: AddResult, more: AddResult, all: AddResult)
    requires n <= |chunks| && HasEffect(db, chunks, r) && r.done == n
    requires HasEffect(r.db, chunks[n..], more) && all == more.(done := n + more.done)
    ensures HasEffect(db, chunks, all)
  {
    var m: nat :| AllEffect(db, chunks, r, m);
    var k: nat :| AllEffect(r.db, chunks[n..], more, k);
    AllEffectMore(db, chunks, n, r, m, more, k, all);
  }

  lemma SumsJoin(chunks: seq<Chunk>, i: nat, end: nat)
    requires i <= end <= |chunks|
    ensures SumsOfChunks(chunks[..i]) + SumsOfChunks(chunks[i..end]) == SumsOfChunks(chunks[..end])
  {
    assert chunks[..i] + chunks[i..end] == chunks[..end];
  }

  lemma EvictNothing(db: Db)
    requires db.index == {}
    ensures Evict(db, GC_BATCH) == db
  {
    InOrderLength({});
    DeleteNothing(db);
  }

  lemma AddedJoined(a: Db, chunks: seq<Chunk>, n: nat, b: Db, m: nat, c: Db)
    requires n + m <= |chunks| && Added(a, chunks[..n], b) && Added(b, chunks[n..][..m], c)
    ensures Added(a, chunks[..n + m], c)
  {
    AddedThen(a, chunks[..n], b, chunks[n..][..m], c);
    JoinPrefix(chunks, n, m);
  }

  lemma JoinPrefix(chunks: seq<Chunk>, n: nat, m: nat)
    requires n + m <= |chunks|
    ensures chunks[..n] + chunks[n..][..m] == chunks[..n + m]
  {
  }

  lemma EvictIndexMore(a: Db, b: Db, m: nat, n: nat)
    requires b.index == Evict(a, m).index
    ensures Evict(b, n).index == Evict(a, m + n).index
  {
    EvictMore(a, m, n);
  }

  lemma AddAllUnfolds(disk: Disk, db: Db, chunks: seq<Chunk>, turn: nat, n: nat)
    requires chunks != [] && n == FirstOf(chunks, ADD_CHUNKS_BATCH_SIZE)
    ensures var r := AddSub(disk, db, chunks[..n], turn);
            AddAll(disk, db, chunks, turn) ==
              if !r.outcome.Done? then r.(done := 0)
              else var more := AddAll(disk, r.db, chunks[n..], r.turn); more.(done := n + more.done)
  {
  }

  lemma AddFirst(disk: Disk, db: Db, chunks: seq<Chunk>, turn: nat, n: nat, all: AddResult)
    requires n <= |chunks|
    requires var r := AddSub(disk, db, chunks[..n], turn); all == r.(done := if r.outcome.Done? then n else 0)
    ensures HasEffect(db, chunks, all)
  {
    var r := AddSub(disk, db, chunks[..n], turn);
    AddSubEffect(disk, db, chunks[..n], turn);
    var k: nat :| SubEffect(db, chunks[..n], r, k);
    SubIsAll(db, chunks, n, r, k, all);
  }

  lemma NothingAdded(db: Db, r: AddResult)
    requires r.outcome.Done? && r.db == db && r.done == 0
    ensures HasEffect(db, [], r)
  {
    AddedNothing(db);
    EvictNone(db);
    assert AllEffect(db, [], r, 0);
  }

  lemma {:induction false} AddAllEffect(disk: Disk, db: Db, chunks: seq<Chunk>, turn: nat)
    ensures HasEffect(db, chunks, AddAll(disk, db, chunks, turn))
    decreases |chunks|
  {
    var all := AddAll(disk, db, chunks, turn);
    if chunks == [] {
      NothingAdded(db, all);
    } else {
      var n := FirstOf(chunks, ADD_CHUNKS_BATCH_SIZE);
      var r := AddSub(disk, db, chunks[..n], turn);
      AddAllUnfolds(disk, db, chunks, turn, n);
      AddFirst(disk, db, chunks, turn, n, r.(done := if r.outcome.Done? then n else 0));
      if r.outcome.Done? {
        AddAllEffect(disk, r.db, chunks[n..], r.turn);
        HasEffectMore(db, chunks, n, r.(done := n), AddAll(disk, r.db, chunks[n..], r.turn), all);
      }
    }
  }

  function SubBatches(n: nat): nat {
    (n + ADD_CHUNKS_BATCH_SIZE - 1) / ADD_CHUNKS_BATCH_SIZE
  }

  lemma {:induction false} PutAllBoth(data: map<CheckSum, seq<byte>>, a: seq<Chunk>, b: seq<Chunk>)
    ensures PutAll(data, a + b) == PutAll(PutAll(data, a), b)
    decreases |a|
  {
    if a == [] {
      assert a + b == b;
    } else {
      PutAllBoth(Put(data, a[0]), a[1..], b);
      assert (a + b)[1..] == a[1..] + b;
    }
  }

  /** If its transactions commit, an add takes one for each sub-batch, stores all of its chunks and evicts
      nothing. */
  lemma {:induction false} AddAllGood(disk: Disk, db: Db, chunks: seq<Chunk>, turn: nat)
    requires forall i :: turn <= i < turn + SubBatches(|chunks|) ==> disk(i).Good?
    ensures AddAll(disk, db, chunks, turn)
         == AddResult(Done, Db(PutAll(db.data, chunks), db.access, db.index), turn + SubBatches(|chunks|), |chunks|)
    decreases |chunks|
  {
    if chunks != [] {
      var n := FirstOf(chunks, ADD_CHUNKS_BATCH_SIZE);
      var first := Db(PutAll(db.data, chunks[..n]), db.access, db.index);
      AddAllUnfolds(disk, db, chunks, turn, n);
      assert AddSub(disk, db, chunks[..n], turn) == AddResult(Done, first, turn + 1, n);
      AddAllGood(disk, first, chunks[n..], turn + 1);
      PutAllBoth(db.data, chunks[..n], chunks[n..]);
      assert chunks[..n] + chunks[n..] == chunks;
    }
  }

  /** An add is done iff the last of its transactions commits. */
  lemma {:induction false} AddAllOutcome(disk: Disk, db: Db, chunks: seq<Chunk>, turn: nat, all: AddResult)
    requires chunks != [] && all == AddAll(disk, db, chunks, turn)
    ensures all.turn > turn && (all.outcome.Done? <==> disk(all.turn - 1).Good?)
    decreases |chunks|
  {
    var n := FirstOf(chunks, ADD_CHUNKS_BATCH_SIZE);
    var r := AddSub(disk, db, chunks[..n], turn);
    AddAllUnfolds(disk, db, chunks, turn, n);
    AddSubOutcome(disk, db, chunks[..n], turn, r);
    if r.outcome.Done? {
      var more := AddAll(disk, r.db, chunks[n..], r.turn);
      if chunks[n..] != [] {
        AddAllOutcome(disk, r.db, chunks[n..], r.turn, more);
      }
    }
  }

  // ---- Access updates ----------------------------------------------------------------------------------

  lemma SplitCovers(s: seq<CheckSum>, n: nat)
    requires n <= |s|
    ensures ToSet(s) == ToSet(s[..n]) + ToSet(s[n..])
  {
    assert s == s[..n] + s[n..];
  }

  /** What was to be updated is updated, or lost with a failed transaction, and nothing else is
      touched: each chunk that is not lost has a time less than the refresh interval old. */
  lemma {:induction false} CommitsAccount(disk: Disk, db: Db, s: seq<CheckSum>, now: u64, turn: nat)
    ensures var db' := Commits(disk, db, s, now, turn);
            && (Indexed(db) ==> Indexed(db')) && (Mirrored(db) ==> Mirrored(db'))
            && db'.data == db.data
            && db.access.Keys <= db'.access.Keys <= db.access.Keys + ToSet(s)
            && (forall c :: c in db'.access ==>
                  db'.access[c] == TimeAfter(db, c, now) || (c in db.access && db'.access[c] == db.access[c]))
            && (forall c :: c in s && c !in Lost(disk, s, turn) ==>
                  c in db'.access && db'.access[c] == TimeAfter(db, c, now))
            && Lost(disk, s, turn) <= ToSet(s)
    decreases |s|
  {
    if s != [] {
      var n := FirstOf(s, ACCESS_BATCH_SIZE);
      SplitCovers(s, n);
      TouchAllKeeps(db, s[..n], now);
      var next := if disk(turn).Good? then TouchAll(db, s[..n], now) else db;
      CommitsAccount(disk, next, s[n..], now, turn + 1);
      forall c | c in s && c !in Lost(disk, s, turn)
        ensures var db' := Commits(disk, db, s, now, turn);
                c in db'.access && db'.access[c] == TimeAfter(db, c, now)
      {
        assert c in ToSet(s);
        assert c in s[..n] || c in s[n..];
      }
    }
  }

  /** One batch, committed or lost. */
  function CommitOne(disk: Disk, db: Db, b: seq<CheckSum>, now: u64, turn: nat): Db {
    if disk(turn).Good? then TouchAll(db, b, now) else db
  }

  lemma CommitsFirst(disk: Disk, db: Db, s: seq<CheckSum>, now: u64, turn: nat)
    requires |s| >= ACCESS_BATCH_SIZE
    ensures var n := ACCESS_BATCH_SIZE;
            && Commits(disk, db, s, now, turn)
                == Commits(disk, CommitOne(disk, db, s[..n], now, turn), s[n..], now, turn + 1)
            && Batches(|s|) == Batches(|s| - n) + 1
  {
  }

  lemma CommitsOnly(disk: Disk, db: Db, b: seq<CheckSum>, now: u64, turn: nat)
    requires 0 < |b| <= ACCESS_BATCH_SIZE
    ensures Commits(disk, db, b, now, turn) == CommitOne(disk, db, b, now, turn) && Batches(|b|) == 1
  {
    assert b[..|b|] == b && b[|b|..] == [];
  }

  /** One batch more after any number of full ones. */
  lemma {:induction false} CommitsThen(disk: Disk, db: Db, s: seq<CheckSum>, b: seq<CheckSum>, now: u64, turn: nat)
    requires |s| % ACCESS_BATCH_SIZE == 0 && 0 < |b| <= ACCESS_BATCH_SIZE
    ensures Commits(disk, db, s + b, now, turn)
         == CommitOne(disk, Commits(disk, db, s, now, turn), b, now, turn + Batches(|s|))
    ensures Batches(|s + b|) == Batches(|s|) + 1
    decreases |s|
  {
    if s == [] {
      assert s + b == b;
      CommitsOnly(disk, db, b, now, turn);
    } else {
      var n := ACCESS_BATCH_SIZE;
      assert |s| >= n;
      assert (s + b)[..n] == s[..n] && (s + b)[n..] == s[n..] + b;
      CommitsFirst(disk, db, s, now, turn);
      CommitsFirst(disk, db, s + b, now, turn);
      CommitsThen(disk, CommitOne(disk, db, s[..n], now, turn), s[n..], b, now, turn + 1);
    }
  }
}
