/** `dedup_range`: cutting a byte range into segments with and without a stored chunk. */
module DedupQuery {
  import opened Bytes
  import opened CheckSums
  import opened IndexDb
  import opened KeyOrder

  const CHUNK_SIZE: nat := 0x40_0000

  /** The next `len` bytes: `info.cs` names the chunk holding them, or is invalid. */
  datatype Segment = Segment(info: DedupInfo, len: nat)

  function Gap(off: u64, len: nat): Segment {
    Segment(DedupInfo(off, len % 0x1_0000_0000, EMPTY), len)
  }

  type Entry = (DedupRange, DedupInfo)

  /** The first key the cursor may show. */
  function LowerBound(id: Raw, off: nat): DedupRange
    requires off + 1 < 0x1_0000_0000_0000_0000
  {
    DedupRange(id, off, off + 1)
  }

  function KeysFrom(records: Records, lo: DedupRange): set<DedupRange> {
    set k | k in records.Keys && !LexLess(EncodeRange(k), EncodeRange(lo))
  }

  function WithValues(keys: seq<DedupRange>, records: Records): seq<Entry>
    requires forall k :: k in keys ==> k in records
  {
    seq(|keys|, i requires 0 <= i < |keys| => (keys[i], records[keys[i]]))
  }

  ghost function Entries(records: Records, id: Raw, off: nat): seq<Entry>
    requires off + 1 < 0x1_0000_0000_0000_0000
  {
    RangeKeysInjective();
    WithValues(Sorted(KeysFrom(records, LowerBound(id, off)), EncodeRange), records)
  }

  /** The segment one entry contributes. */
  function Piece(v: DedupInfo, off: u64, len: nat): (s: Segment)
    requires v.End() > off && len > 0
    ensures 0 < s.len <= len
  {
    if v.off > off then Gap(off, MinOf(v.off - off, len)) else Segment(v, MinOf(v.End() - off, len))
  }

  /** The segments of `[off, off+len)` against the index entries still to be shown. */
  function Walk(es: seq<Entry>, id: Raw, off: nat, len: nat): seq<Segment>
    requires off + len < 0x1_0000_0000_0000_0000
    decreases |es|
  {
    if len == 0 then []
    else if es == [] || es[0].0.id != id then [Gap(off, len)]
    else
      var v := es[0].1;
      if v.End() <= off then Walk(es[1..], id, off, len)
      else
        var s := Piece(v, off, len);
        [s] + Walk(es[1..], id, off + s.len, len - s.len)
  }

  ghost function Query(records: Records, id: Raw, off: nat, len: nat): seq<Segment>
    requires off + len < 0x1_0000_0000_0000_0000
  {
    if len == 0 then [] else Walk(Entries(records, id, off), id, off, len)
  }

  /** What is left to emit once the entries before `i` have been seen. */
  ghost predicate Emits(segs: seq<Segment>, es: seq<Entry>, i: nat, id: Raw, off: int, len: int, goal: seq<Segment>) {
    && i <= |es| && 0 <= off && 0 <= len && off + len < 0x1_0000_0000_0000_0000
    && segs + Walk(es[i..], id, off, len) == goal
  }

  lemma EmitsLast(segs: seq<Segment>, es: seq<Entry>, i: nat, id: Raw, off: nat, len: nat, goal: seq<Segment>)
    requires Emits(segs, es, i, id, off, len, goal) && (len == 0 || i == |es| || es[i].0.id != id)
    ensures goal == if len == 0 then segs else segs + [Gap(off, len)]
  {
  }

  /** One turn of the walk, as the loop below makes it. */
  lemma EmitsStep(segs: seq<Segment>, es: seq<Entry>, i: nat, id: Raw, off: nat, len: nat, goal: seq<Segment>)
    requires Emits(segs, es, i, id, off, len, goal) && len > 0 && i < |es| && es[i].0.id == id
    ensures var v := es[i].1;
            if v.End() <= off then Emits(segs, es, i + 1, id, off, len, goal)
            else
              var s := Piece(v, off, len);
              Emits(segs + [s], es, i + 1, id, off + s.len, len - s.len, goal)
  {
    assert es[i..][0] == es[i] && es[i..][1..] == es[i + 1..];
  }

  /** `storage.range(lo..)`: the entries a cursor shows from a key on. */
  method Range(records: Records, id: Raw, off: nat) returns (es: seq<Entry>)
    requires off + 1 < 0x1_0000_0000_0000_0000
    ensures es == Entries(records, id, off)
  {
    RangeKeysInjective();
    var keys := Cursor(KeysFrom(records, LowerBound(id, off)), EncodeRange);
    es := WithValues(keys, records);
  }

  method DedupRangeQuery(records: Records, id: Raw, off: nat, len: nat) returns (segs: seq<Segment>)
    requires off + len < 0x1_0000_0000_0000_0000
    ensures segs == Query(records, id, off, len)
  {
    if len == 0 {
      return [];
    }
    var es := Range(records, id, off);
    segs := WalkEntries(es, id, off, len);
  }

  /** The loop of `dedup_range`. */
  method WalkEntries(es: seq<Entry>, id: Raw, start: nat, length: nat) returns (segs: seq<Segment>)
    requires 0 < length && start + length < 0x1_0000_0000_0000_0000
    ensures segs == Walk(es, id, start, length)
  {
    var off: nat, len: nat := start, length;
    segs := [];
    ghost var goal := Walk(es, id, start, length);
    assert Emits([], es, 0, id, off, len, goal) by { assert es[0..] == es; }
    var i := 0;
    ghost var seen := 0;
    while i < |es|
      invariant i == seen <= |es| && len > 0
      invariant Emits(segs, es, seen, id, off, len, goal)
    {
      var (k, v) := es[i];
      if k.id != id {
        break;
      }
      EmitsStep(segs, es, i, id, off, len, goal);
      seen := i + 1;
      if v.End() <= off {
        i := i + 1;
        continue;
      }
      var piece := Piece(v, off, len);
      segs := segs + [piece];
      off := off + piece.len;
      len := len - piece.len;
      if len == 0 || v.off >= off + len {
        assert len == 0;
        break;
      }
      i := i + 1;
    }
    EmitsLast(segs, es, seen, id, off, len, goal);
    if len != 0 {
      segs := segs + [Gap(off, len)];
    }
  }

  // ---- Tiling and soundness, for any records at all -------------------------------------------

  /** A gap at `off`, or a piece of a stored record of blob `id` that contains it. */
  ghost predicate SegmentOk(s: Segment, off: nat, records: Records, id: Raw) {
    || (off < 0x1_0000_0000_0000_0000 && s == Gap(off, s.len))
    || (s.info.off <= off && off + s.len <= s.info.End()
        && exists k :: k in records && k.id == id && records[k] == s.info)
  }

  /** The segments are non-empty, sound, and cover `[off, off+len)` in order. */
  ghost predicate Tiles(segs: seq<Segment>, off: nat, len: nat, records: Records, id: Raw) {
    if segs == [] then len == 0
    else
      && 0 < segs[0].len <= len
      && SegmentOk(segs[0], off, records, id)
      && Tiles(segs[1..], off + segs[0].len, len - segs[0].len, records, id)
  }

  lemma {:induction false} WalkTiles(es: seq<Entry>, id: Raw, off: nat, len: nat, records: Records)
    requires off + len < 0x1_0000_0000_0000_0000
    requires forall e :: e in es ==> e.0 in records && records[e.0] == e.1
    ensures Tiles(Walk(es, id, off, len), off, len, records, id)
    decreases |es|
  {
    if len == 0 {
    } else if es == [] || es[0].0.id != id {
      assert [Gap(off, len)][1..] == [];
    } else {
      var v := es[0].1;
      assert es[0] in es;
      if v.End() <= off {
        WalkTiles(es[1..], id, off, len, records);
      } else {
        var s := Piece(v, off, len);
        WalkTiles(es[1..], id, off + s.len, len - s.len, records);
        assert Walk(es, id, off, len)[1..] == Walk(es[1..], id, off + s.len, len - s.len);
        assert SegmentOk(s, off, records, id);
      }
    }
  }

  lemma EntriesInRecords(keys: seq<DedupRange>, records: Records)
    requires forall k :: k in keys ==> k in records
    ensures forall e :: e in WithValues(keys, records) ==> e.0 in records && records[e.0] == e.1
  {
    var es := WithValues(keys, records);
    forall e | e in es ensures e.0 in records && records[e.0] == e.1 {
      var i :| 0 <= i < |es| && es[i] == e;
      assert keys[i] in keys;
    }
  }

  lemma QueryTiles(records: Records, id: Raw, off: nat, len: nat)
    requires off + len < 0x1_0000_0000_0000_0000
    ensures Tiles(Query(records, id, off, len), off, len, records, id)
  {
    if len > 0 {
      RangeKeysInjective();
      EntriesInRecords(Sorted(KeysFrom(records, LowerBound(id, off)), EncodeRange), records);
      WalkTiles(Entries(records, id, off), id, off, len, records);
    }
  }

  /** Where segment `i` begins. */
  function StartOf(segs: seq<Segment>, off: nat, i: nat): (p: nat)
    requires i <= |segs|
    ensures p >= off
  {
    if i == 0 then off else StartOf(segs[1..], off + segs[0].len, i - 1)
  }

  /** Tiling, said of bytes: each byte of the range lies in exactly one segment. */
  lemma {:induction false} TilesCoverEachByteOnce(segs: seq<Segment>, off: nat, len: nat,
                                                  records: Records, id: Raw, p: nat)
    requires Tiles(segs, off, len, records, id) && off <= p < off + len
    ensures exists i :: 0 <= i < |segs| && StartOf(segs, off, i) <= p < StartOf(segs, off, i) + segs[i].len
    ensures forall i, j :: 0 <= i < j < |segs| ==> StartOf(segs, off, i) + segs[i].len <= StartOf(segs, off, j)
  {
    TilesOrdered(segs, off, len, records, id);
    if p < off + segs[0].len {
      assert StartOf(segs, off, 0) <= p < StartOf(segs, off, 0) + segs[0].len;
    } else {
      TilesCoverEachByteOnce(segs[1..], off + segs[0].len, len - segs[0].len, records, id, p);
      var i :| 0 <= i < |segs[1..]| && StartOf(segs[1..], off + segs[0].len, i) <= p
               < StartOf(segs[1..], off + segs[0].len, i) + segs[1..][i].len;
      assert StartOf(segs, off, i + 1) == StartOf(segs[1..], off + segs[0].len, i);
    }
  }

  lemma {:induction false} TilesOrdered(segs: seq<Segment>, off: nat, len: nat, records: Records, id: Raw)
    requires Tiles(segs, off, len, records, id)
    ensures forall i, j :: 0 <= i < j < |segs| ==> StartOf(segs, off, i) + segs[i].len <= StartOf(segs, off, j)
  {
    if segs != [] {
      TilesOrdered(segs[1..], off + segs[0].len, len - segs[0].len, records, id);
      forall i, j | 0 <= i < j < |segs|
        ensures StartOf(segs, off, i) + segs[i].len <= StartOf(segs, off, j)
      {
        if i > 0 {
          assert segs[i] == segs[1..][i - 1];
          assert StartOf(segs, off, i) == StartOf(segs[1..], off + segs[0].len, i - 1);
        }
        assert StartOf(segs, off, j) == StartOf(segs[1..], off + segs[0].len, j - 1);
      }
    }
  }

  // ---- Exactness, for the records the dedup worker writes -------------------------------------

  function ChunkEnd(size: nat, i: nat): nat {
    MinOf((i + 1) * CHUNK_SIZE, size)
  }

  /** The key of chunk `i` of a blob of `size` bytes. */
  function ChunkKey(id: Raw, size: u64, i: nat): DedupRange
    requires i * CHUNK_SIZE < size
  {
    DedupRange(id, i * CHUNK_SIZE, ChunkEnd(size, i))
  }

  predicate Recorded(records: Records, id: Raw, size: u64, i: nat) {
    i * CHUNK_SIZE < size && ChunkKey(id, size, i) in records
  }

  /** Every record of the blob is that of one chunk, clipped at the end of the blob. */
  ghost predicate ChunkShaped(records: Records, id: Raw, size: u64) {
    forall k :: k in records && k.id == id ==> IsChunkEntry(k, records[k], id, size)
  }

  ghost predicate IsChunkEntry(k: DedupRange, v: DedupInfo, id: Raw, size: u64) {
    && v.off % CHUNK_SIZE == 0 && v.off < size
    && k == ChunkKey(id, size, v.off / CHUNK_SIZE)
    && v.End() == k.end
    && v.cs.IsValid()
  }

  /** The recorded chunks of a blob. */
  ghost function RecordedChunks(records: Records, id: Raw, size: u64): iset<nat> {
    iset i: nat | Recorded(records, id, size, i)
  }

  ghost predicate AllIn(chunks: iset<nat>, lo: nat, hi: nat) {
    forall i :: lo <= i <= hi ==> i in chunks
  }

  /** The entries of blob `id` in `es`, up to the next blob, are the chunks of `chunks` from `j` on. */
  ghost predicate ListsChunks(es: seq<Entry>, chunks: iset<nat>, id: Raw, size: u64, j: nat) {
    if es == [] || es[0].0.id != id then forall i :: i in chunks ==> i < j
    else
      var c := es[0].1.off / CHUNK_SIZE;
      && IsChunkEntry(es[0].0, es[0].1, id, size)
      && j <= c && c in chunks
      && (forall i :: i in chunks ==> i < j || c <= i)
      && ListsChunks(es[1..], chunks, id, size, c + 1)
  }

  /** The key's own view of which chunk it is for. */
  function ChunkOf(k: DedupRange): nat {
    k.start / CHUNK_SIZE
  }

  lemma ChunkKeyOrder(records: Records, id: Raw, size: u64, a: DedupRange, b: DedupRange)
    requires ChunkShaped(records, id, size) && a in records && b in records && a.id == b.id == id
    ensures ChunkOf(a) in RecordedChunks(records, id, size) && a == ChunkKey(id, size, ChunkOf(a))
    ensures LexLess(EncodeRange(a), EncodeRange(b)) <==> ChunkOf(a) < ChunkOf(b)
  {
    RangeKeyOrder(a, b);
    LexIrreflexive(id);
    assert IsChunkEntry(a, records[a], id, size) && IsChunkEntry(b, records[b], id, size);
  }

  lemma {:induction false} SortedListsChunks(keys: seq<DedupRange>, records: Records, id: Raw, size: u64, j: nat)
    requires ChunkShaped(records, id, size) && Ascending(keys, EncodeRange)
    requires forall k :: k in keys ==> k in records && (k.id == id || LexLess(id, k.id))
    requires forall k :: k in keys && k.id == id ==> j <= ChunkOf(k)
    requires forall i :: i in RecordedChunks(records, id, size) && i >= j ==> ChunkKey(id, size, i) in keys
    ensures ListsChunks(WithValues(keys, records), RecordedChunks(records, id, size), id, size, j)
    decreases |keys|
  {
    var es := WithValues(keys, records);
    var chunks := RecordedChunks(records, id, size);
    if keys == [] {
      assert es == [];
    } else if keys[0].id != id {
      forall i | i in chunks ensures i < j {
        if i >= j { NoLaterKeyOfBlob(keys, id, ChunkKey(id, size, i)); }
      }
    } else {
      var k := keys[0];
      assert k in keys && k in records;
      assert IsChunkEntry(k, records[k], id, size);
      var c := ChunkOf(k);
      ChunkKeyOrder(records, id, size, k, k);
      forall k' | k' in keys[1..] && k'.id == id ensures c + 1 <= ChunkOf(k') {
        ChunkKeyOrder(records, id, size, k, k');
      }
      forall i | i in chunks && i >= j
        ensures c <= i && (i > c ==> ChunkKey(id, size, i) in keys[1..])
      {
        var k' := ChunkKey(id, size, i);
        assert k' in keys;
        assert k' == k || k' in keys[1..];
        assert ChunkOf(k') == i;
      }
      SortedListsChunks(keys[1..], records, id, size, c + 1);
      assert es[1..] == WithValues(keys[1..], records);
    }
  }

  /** Keys of one blob are contiguous: past a later blob there are none. */
  lemma NoLaterKeyOfBlob(keys: seq<DedupRange>, id: Raw, k: DedupRange)
    requires Ascending(keys, EncodeRange) && keys != [] && LexLess(id, keys[0].id) && k.id == id
    ensures k !in keys
  {
    if k in keys {
      var n :| 0 <= n < |keys| && keys[n] == k;
      LexIrreflexive(id);
      RangeKeyOrder(keys[0], keys[n]);
      LexTransitive(id, keys[0].id, id);
    }
  }

  /** The cursor starts past chunk `off / CHUNK_SIZE` when `off` is its last byte but not its first:
      among keys with one end, a smaller start sorts first. */
  predicate SkipsFirst(off: nat, size: nat) {
    off + 1 == ChunkEnd(size, off / CHUNK_SIZE) && off % CHUNK_SIZE != 0
  }

  /** The first chunk whose record the cursor can show. */
  function FirstSeen(off: nat, size: nat): nat {
    if SkipsFirst(off, size) then off / CHUNK_SIZE + 1 else off / CHUNK_SIZE
  }

  lemma ChunkKeyAboveBound(id: Raw, size: u64, off: nat, i: nat)
    requires off < size < 0x8000_0000_0000_0000 && i * CHUNK_SIZE < size
    ensures LexLess(EncodeRange(ChunkKey(id, size, i)), EncodeRange(LowerBound(id, off))) <==> i < FirstSeen(off, size)
  {
    RangeKeyOrder(ChunkKey(id, size, i), LowerBound(id, off));
    LexIrreflexive(id);
  }

  lemma EntriesListChunks(records: Records, id: Raw, size: u64, off: nat)
    requires ChunkShaped(records, id, size) && off < size < 0x8000_0000_0000_0000
    ensures ListsChunks(Entries(records, id, off), RecordedChunks(records, id, size), id, size, FirstSeen(off, size))
  {
    var lo := LowerBound(id, off);
    RangeKeysInjective();
    var keys := Sorted(KeysFrom(records, lo), EncodeRange);
    forall k | k in keys
      ensures k in records && (k.id == id || LexLess(id, k.id))
      ensures k.id == id ==> FirstSeen(off, size) <= ChunkOf(k)
    {
      assert k in KeysFrom(records, lo);
      RangeKeyOrder(k, lo);
      LexTotal(k.id, id);
      if k.id == id {
        ChunkKeyOrder(records, id, size, k, k);
        ChunkKeyAboveBound(id, size, off, ChunkOf(k));
      }
    }
    forall i | i in RecordedChunks(records, id, size) && i >= FirstSeen(off, size)
      ensures ChunkKey(id, size, i) in keys
    {
      ChunkKeyAboveBound(id, size, off, i);
      assert ChunkKey(id, size, i) in KeysFrom(records, lo);
    }
    SortedListsChunks(keys, records, id, size, FirstSeen(off, size));
  }

  /** Is byte `p` served from a stored chunk? */
  predicate ValidAt(segs: seq<Segment>, off: nat, p: nat) {
    segs != [] && if p < off + segs[0].len then segs[0].info.cs.IsValid()
                  else ValidAt(segs[1..], off + segs[0].len, p)
  }

  /** Once the walk is behind the next record, everything left is a gap. */
  lemma {:induction false} NothingValidAfterGap(es: seq<Entry>, chunks: iset<nat>, id: Raw, size: u64, j: nat,
                                                off: nat, len: nat, p: nat)
    requires off + len < 0x1_0000_0000_0000_0000
    requires ListsChunks(es, chunks, id, size, j) && off < j * CHUNK_SIZE
    ensures !ValidAt(Walk(es, id, off, len), off, p)
    decreases |es|
  {
    var segs := Walk(es, id, off, len);
    if len == 0 {
    } else if es == [] || es[0].0.id != id {
      assert segs == [Gap(off, len)] && segs[1..] == [];
    } else {
      var v := es[0].1;
      var c := v.off / CHUNK_SIZE;
      assert v.off == c * CHUNK_SIZE > off;
      var n := MinOf(v.off - off, len);
      NothingValidAfterGap(es[1..], chunks, id, size, c + 1, off + n, len - n, p);
      assert segs[0] == Gap(off, n) && segs[1..] == Walk(es[1..], id, off + n, len - n);
    }
  }

  /** `off` is a byte of chunk `j`, or the end of the blob. */
  predicate InChunk(off: nat, j: nat, size: nat) {
    j * CHUNK_SIZE <= off < (j + 1) * CHUNK_SIZE && (off < size || off == j * CHUNK_SIZE)
  }

  /** While no gap has been met, a byte is served if all chunks up to its own are recorded ... */
  lemma {:induction false} ValidUpToFirstGap(es: seq<Entry>, chunks: iset<nat>, id: Raw, size: u64, j: nat,
                                             off: nat, len: nat, p: nat, q: nat)
    requires off + len < 0x1_0000_0000_0000_0000 && off <= p < off + len
    requires ListsChunks(es, chunks, id, size, j)
    requires InChunk(off, j, size) && InChunk(p, q, size) && p < size && AllIn(chunks, j, q)
    ensures ValidAt(Walk(es, id, off, len), off, p)
    decreases |es|
  {
    ChunkIsFirst(es, chunks, id, size, j, off);
    var next := es[0].1.End();
    if p < next {
      ServedByFirst(es, id, off, len, p);
    } else {
      ServedByLater(es, id, off, len, p);
      ValidUpToFirstGap(es[1..], chunks, id, size, j + 1, next, off + len - next, p, q);
    }
  }

  /** ... and only then. */
  lemma {:induction false} ValidOnlyUpToFirstGap(es: seq<Entry>, chunks: iset<nat>, id: Raw, size: u64, j: nat,
                                                 off: nat, len: nat, p: nat, q: nat)
    requires off + len < 0x1_0000_0000_0000_0000 && off <= p < off + len
    requires ListsChunks(es, chunks, id, size, j)
    requires InChunk(off, j, size) && q == p / CHUNK_SIZE
    requires ValidAt(Walk(es, id, off, len), off, p)
    ensures p < size && AllIn(chunks, j, q)
    decreases |es|
  {
    if j !in chunks {
      SkipTo(es, chunks, id, size, j);
      NothingValidAfterGap(es, chunks, id, size, j + 1, off, len, p);
    } else {
      ChunkIsFirst(es, chunks, id, size, j, off);
      var next := es[0].1.End();
      if p >= next {
        var rest: nat := off + len - next;
        ServedByLater(es, id, off, len, p);
        if next < (j + 1) * CHUNK_SIZE {
          NothingValidAfterGap(es[1..], chunks, id, size, j + 1, next, rest, p);
        } else {
          ValidOnlyUpToFirstGap(es[1..], chunks, id, size, j + 1, next, rest, p, q);
        }
      }
    }
  }

  /** A byte in the record that holds `off` is served from it. */
  lemma ServedByFirst(es: seq<Entry>, id: Raw, off: nat, len: nat, p: nat)
    requires off + len < 0x1_0000_0000_0000_0000 && off <= p < off + len
    requires es != [] && es[0].0.id == id && es[0].1.off <= off < es[0].1.End() && es[0].1.cs.IsValid()
    requires p < es[0].1.End()
    ensures ValidAt(Walk(es, id, off, len), off, p)
  {
  }

  lemma ServedByLater(es: seq<Entry>, id: Raw, off: nat, len: nat, p: nat)
    requires off + len < 0x1_0000_0000_0000_0000 && off <= p < off + len
    requires es != [] && es[0].0.id == id && es[0].1.off <= off < es[0].1.End() <= p
    ensures var next := es[0].1.End();
            ValidAt(Walk(es, id, off, len), off, p) == ValidAt(Walk(es[1..], id, next, off + len - next), next, p)
  {
    var segs, next := Walk(es, id, off, len), es[0].1.End();
    assert segs[0].len == next - off && segs[1..] == Walk(es[1..], id, next, off + len - next);
  }

  lemma ChunkIsFirst(es: seq<Entry>, chunks: iset<nat>, id: Raw, size: u64, j: nat, off: nat)
    requires ListsChunks(es, chunks, id, size, j) && j in chunks
    requires InChunk(off, j, size)
    ensures es != [] && es[0].0.id == id && es[0].1.cs.IsValid() && ListsChunks(es[1..], chunks, id, size, j + 1)
    ensures es[0].1.off == j * CHUNK_SIZE <= off < es[0].1.End() == ChunkEnd(size, j)
  {
    assert es[0].1.off / CHUNK_SIZE == j;
  }

  lemma SkipTo(es: seq<Entry>, chunks: iset<nat>, id: Raw, size: u64, j: nat)
    requires ListsChunks(es, chunks, id, size, j) && j !in chunks
    ensures ListsChunks(es, chunks, id, size, j + 1)
  {
  }

  /** Exactly which bytes a query serves from stored chunks. */
  lemma QueryExact(records: Records, id: Raw, size: u64, off: nat, len: nat, p: nat)
    requires ChunkShaped(records, id, size) && off < size < 0x8000_0000_0000_0000
    requires len < 0x8000_0000_0000_0000 && off <= p < off + len
    ensures ValidAt(Query(records, id, off, len), off, p)
            <==> !SkipsFirst(off, size) && p < size
                 && AllIn(RecordedChunks(records, id, size), off / CHUNK_SIZE, p / CHUNK_SIZE)
  {
    EntriesListChunks(records, id, size, off);
    var es := Entries(records, id, off);
    var chunks := RecordedChunks(records, id, size);
    if SkipsFirst(off, size) {
      NothingValidAfterGap(es, chunks, id, size, off / CHUNK_SIZE + 1, off, len, p);
    } else {
      if ValidAt(Walk(es, id, off, len), off, p) {
        ValidOnlyUpToFirstGap(es, chunks, id, size, off / CHUNK_SIZE, off, len, p, p / CHUNK_SIZE);
      }
      if p < size && AllIn(chunks, off / CHUNK_SIZE, p / CHUNK_SIZE) {
        ValidUpToFirstGap(es, chunks, id, size, off / CHUNK_SIZE, off, len, p, p / CHUNK_SIZE);
      }
    }
  }

  /** Every recorded byte of the range is served. */
  ghost predicate Complete(records: Records, id: Raw, size: u64, off: nat, len: nat)
    requires off + len < 0x1_0000_0000_0000_0000
  {
    forall p :: off <= p < MinOf(off + len, size) && p / CHUNK_SIZE in RecordedChunks(records, id, size)
                ==> ValidAt(Query(records, id, off, len), off, p)
  }

  /** No recorded chunk of the range comes after an unrecorded one, and no recorded one is skipped. */
  ghost predicate NoRecordBehindGap(records: Records, id: Raw, size: u64, off: nat, len: nat) {
    forall j :: j in RecordedChunks(records, id, size) && off / CHUNK_SIZE <= j && j * CHUNK_SIZE < off + len
                ==> !SkipsFirst(off, size) && AllIn(RecordedChunks(records, id, size), off / CHUNK_SIZE, j)
  }

  lemma CompleteIff(records: Records, id: Raw, size: u64, off: nat, len: nat)
    requires ChunkShaped(records, id, size) && off < size < 0x8000_0000_0000_0000
    requires 0 < len < 0x8000_0000_0000_0000
    ensures Complete(records, id, size, off, len) <==> NoRecordBehindGap(records, id, size, off, len)
  {
    var segs := Query(records, id, off, len);
    var chunks := RecordedChunks(records, id, size);
    if Complete(records, id, size, off, len) {
      forall j | j in chunks && off / CHUNK_SIZE <= j && j * CHUNK_SIZE < off + len
        ensures !SkipsFirst(off, size) && AllIn(chunks, off / CHUNK_SIZE, j)
      {
        var p := if j * CHUNK_SIZE < off then off else j * CHUNK_SIZE;
        assert p / CHUNK_SIZE == j;
        assert ValidAt(segs, off, p);
        QueryExact(records, id, size, off, len, p);
      }
    }
    if NoRecordBehindGap(records, id, size, off, len) {
      forall p | off <= p < MinOf(off + len, size) && p / CHUNK_SIZE in chunks
        ensures ValidAt(segs, off, p)
      {
        QueryExact(records, id, size, off, len, p);
      }
    }
  }

  /** Completeness does fail: with only the second of two chunks recorded, a read of both
      serves neither from the store. */
  lemma RecordBehindGapIsMissed(id: Raw, cs: CheckSum)
    requires cs.IsValid()
    ensures var size := 2 * CHUNK_SIZE;
            var records: Records := map[ChunkKey(id, size, 1) := DedupInfo(CHUNK_SIZE, CHUNK_SIZE, cs)];
            && Recorded(records, id, size, 1)
            && forall p :: 0 <= p < size ==> !ValidAt(Query(records, id, 0, size), 0, p)
  {
    var size := 2 * CHUNK_SIZE;
    var records: Records := map[ChunkKey(id, size, 1) := DedupInfo(CHUNK_SIZE, CHUNK_SIZE, cs)];
    forall p | 0 <= p < size ensures !ValidAt(Query(records, id, 0, size), 0, p) {
      QueryExact(records, id, size, 0, size, p);
      assert 0 !in RecordedChunks(records, id, size);
    }
  }

  /** And so it does for a query that starts at the last byte of a chunk: the chunk is recorded, and the
      cursor starts behind its record. */
  lemma LastByteIsMissed(id: Raw, cs: CheckSum)
    requires cs.IsValid()
    ensures var size, off := CHUNK_SIZE, CHUNK_SIZE - 1;
            var records: Records := map[ChunkKey(id, size, 0) := DedupInfo(0, CHUNK_SIZE, cs)];
            Recorded(records, id, size, 0) && !ValidAt(Query(records, id, off, 1), off, off)
  {
    var size, off := CHUNK_SIZE, CHUNK_SIZE - 1;
    var records: Records := map[ChunkKey(id, size, 0) := DedupInfo(0, CHUNK_SIZE, cs)];
    QueryExact(records, id, size, off, 1, off);
    assert SkipsFirst(off, size);
  }

  /** A query of one whole chunk: its record if there is one, else one gap; asked for past the
      end of the blob, a gap more. */
  lemma WholeChunkQuery(records: Records, id: Raw, size: u64, i: nat, len: nat)
    requires ChunkShaped(records, id, size) && size < 0x8000_0000_0000_0000
    requires i * CHUNK_SIZE < size && ChunkEnd(size, i) - i * CHUNK_SIZE <= len <= CHUNK_SIZE
    ensures var n := ChunkEnd(size, i) - i * CHUNK_SIZE;
            Query(records, id, i * CHUNK_SIZE, len) ==
              if !Recorded(records, id, size, i) then [Gap(i * CHUNK_SIZE, len)]
              else if n == len then [Segment(records[ChunkKey(id, size, i)], len)]
              else [Segment(records[ChunkKey(id, size, i)], n), Gap(ChunkEnd(size, i), len - n)]
  {
    EntriesListChunks(records, id, size, i * CHUNK_SIZE);
    RangeKeysInjective();
    EntriesInRecords(Sorted(KeysFrom(records, LowerBound(id, i * CHUNK_SIZE)), EncodeRange), records);
    WholeChunkWalk(Entries(records, id, i * CHUNK_SIZE), records, id, size, i, len);
  }

  lemma WholeChunkWalk(es: seq<Entry>, records: Records, id: Raw, size: u64, i: nat, len: nat)
    requires ListsChunks(es, RecordedChunks(records, id, size), id, size, i) && size < 0x8000_0000_0000_0000
    requires forall e :: e in es ==> e.0 in records && records[e.0] == e.1
    requires i * CHUNK_SIZE < size && ChunkEnd(size, i) - i * CHUNK_SIZE <= len <= CHUNK_SIZE
    ensures var n := ChunkEnd(size, i) - i * CHUNK_SIZE;
            Walk(es, id, i * CHUNK_SIZE, len) ==
              if !Recorded(records, id, size, i) then [Gap(i * CHUNK_SIZE, len)]
              else if n == len then [Segment(records[ChunkKey(id, size, i)], len)]
              else [Segment(records[ChunkKey(id, size, i)], n), Gap(ChunkEnd(size, i), len - n)]
  {
    var chunks := RecordedChunks(records, id, size);
    if i in chunks {
      ChunkIsFirst(es, chunks, id, size, i, i * CHUNK_SIZE);
      assert es[0] in es && es[0].0 == ChunkKey(id, size, i);
      if ChunkEnd(size, i) < i * CHUNK_SIZE + len {
        NoneFrom(es[1..], chunks, id, size, i + 1);
      }
    } else if es != [] && es[0].0.id == id {
      SkipTo(es, chunks, id, size, i);
      assert es[0].1.off >= (i + 1) * CHUNK_SIZE;
    }
  }

  lemma NoneFrom(es: seq<Entry>, chunks: iset<nat>, id: Raw, size: u64, j: nat)
    requires ListsChunks(es, chunks, id, size, j) && size <= j * CHUNK_SIZE
    ensures es == [] || es[0].0.id != id
  {
  }

  // ---- dedup_check_range -----------------------------------------------------------------------

  datatype CheckResult = Duplicate | Fresh | InvalidRange

  method DedupCheckRange(records: Records, range: DedupRange) returns (r: CheckResult)
    requires range.start <= range.end
    ensures r == CheckOf(Query(records, range.id, range.start, range.end - range.start))
  {
    var infos := DedupRangeQuery(records, range.id, range.start, range.end - range.start);
    if |infos| != 1 {
      return InvalidRange;
    }
    r := if infos[0].info.cs.IsValid() then Duplicate else Fresh;
  }

  function CheckOf(segs: seq<Segment>): CheckResult {
    if |segs| != 1 then InvalidRange
    else if segs[0].info.cs.IsValid() then Duplicate else Fresh
  }

  /** The worker's request is always a full chunk long. A recorded short last chunk is therefore
      reported as an invalid range, not as a duplicate; every other chunk is judged rightly. */
  lemma CheckRangeExact(records: Records, id: Raw, size: u64, i: nat)
    requires ChunkShaped(records, id, size) && size < 0x8000_0000_0000_0000 && i * CHUNK_SIZE < size
    ensures var r := CheckOf(Query(records, id, i * CHUNK_SIZE, CHUNK_SIZE));
            && (r.Fresh? <==> !Recorded(records, id, size, i))
            && (r.Duplicate? <==> Recorded(records, id, size, i) && (i + 1) * CHUNK_SIZE <= size)
            && (r.InvalidRange? <==> Recorded(records, id, size, i) && size < (i + 1) * CHUNK_SIZE)
  {
    WholeChunkQuery(records, id, size, i, CHUNK_SIZE);
    if Recorded(records, id, size, i) {
      assert IsChunkEntry(ChunkKey(id, size, i), records[ChunkKey(id, size, i)], id, size);
    }
  }
}
