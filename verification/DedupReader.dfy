/** The deduplicating reader as its threads run it one at a time: reads, the dedup worker, the
    sync worker and chunk collection over an index, a chunk store and the cache file.
    (Their interleavings are in ReadPath.) */
module Dedup {
  import opened Basics
  import opened Bytes
  import opened CacheFile
  import opened CheckSums
  import opened DedupQuery
  import opened IndexDb
  import C = CacheProtocol
  import Q = DedupQueue
  import R = ReadPath

  const REQUEST_BUF_SIZE: nat := Q.REQUEST_BUF_SIZE

  /** How an add to the chunk store ends, and what it evicts in any case. */
  datatype Add = Add(ok: bool, evicted: set<CheckSum>)

  class DedupReader {
    const cache: Cache
    ghost const img: R.Image
    const h: Hasher
    const id: Raw
    var records: Records                        // IndexDB
    var chunks: map<CheckSum, seq<byte>>        // ChunkDB
    var syncQueue: seq<DedupInfo>
    var dedupQueue: seq<nat>                    // chunk numbers; a request is for the whole chunk
    var marked: set<nat>                        // dedup_chunks
    /** How the i-th add ends, and how many there have been. */
    const adds: nat -> Add
    var added: nat

    constructor (cache: Cache, h: Hasher, id: Raw, records: Records, chunks: map<CheckSum, seq<byte>>,
                 adds: nat -> Add)
      requires cache.Valid() && R.Image(cache.b, h, id).Good()
      requires R.IndexTruth(R.Image(cache.b, h, id), records)
      requires R.ChunksTrue(R.Image(cache.b, h, id), chunks)
      ensures Valid() && this.cache == cache && this.h == h && this.id == id
      ensures this.records == records && this.chunks == chunks && dedupQueue == [] && marked == {}
      ensures this.adds == adds && added == 0
    {
      this.cache, this.h, this.id := cache, h, id;
      this.img := R.Image(cache.b, h, id);
      this.records, this.chunks := records, chunks;
      syncQueue, dedupQueue, marked := [], [], {};
      this.adds, added := adds, 0;
    }

    ghost predicate Valid()
      reads this, cache.raw, cache.bitmap
    {
      && img == R.Image(cache.b, h, id) && img.Good()
      && cache.Valid()
      && R.IndexTruth(img, records) && R.ChunksTrue(img, chunks)
      && |syncQueue| <= REQUEST_BUF_SIZE && QueueOk()
    }

    /** What is queued for the dedup worker is marked. */
    ghost predicate QueueOk()
      reads this`dedupQueue, this`marked
    {
      |dedupQueue| <= REQUEST_BUF_SIZE && forall i :: i in dedupQueue ==> i in marked
    }

    function Size(): nat {
      |cache.b|
    }

    // ---- Reading ---------------------------------------------------------------------------------

    /** One segment from its stored chunk, if it is there. */
    method ReadDedupChunk(cs: CheckSum, start: nat, len: nat, data: array<byte>, pos: nat) returns (ok: bool)
      requires pos + len <= data.Length
      modifies data
      ensures ok <==> cs in chunks && start + len <= |chunks[cs]|
      ensures ok ==> cs in chunks && start + len <= |chunks[cs]|
                     && data[..] == old(data[..pos]) + chunks[cs][start..start + len] + old(data[pos + len..])
      ensures !ok ==> data[..] == old(data[..])
    {
      if cs !in chunks || start + len > |chunks[cs]| {
        return false;
      }
      var chunk := chunks[cs];
      forall k | 0 <= k < len {
        data[pos + k] := chunk[start + k];
      }
      assert data[..] == old(data[..pos]) + chunk[start..start + len] + old(data[pos + len..]);
      return true;
    }

    method EnqueueSync(info: DedupInfo)
      requires |syncQueue| <= REQUEST_BUF_SIZE
      modifies this`syncQueue
      ensures |syncQueue| <= REQUEST_BUF_SIZE
      ensures syncQueue == Enqueued(old(syncQueue), [info])
    {
      if |syncQueue| < REQUEST_BUF_SIZE {
        syncQueue := syncQueue + [info];
      }
    }

    /** A segment with a valid checksum, from its stored chunk if that is there. */
    method ServeFromChunk(s: Segment, at: nat, data: array<byte>, pos: nat, ghost first: seq<byte>) returns (hit: bool)
      requires R.ChunksTrue(img, chunks) && R.TrueInfo(img, s.info) && s.info.cs.IsValid()
      requires s.info.off <= at && at + s.len <= s.info.End() && at + s.len <= |img.b|
      requires pos + s.len <= data.Length == |first| && pos <= at && Filled(img.b, at - pos, at, data[..], first)
      modifies data
      ensures if hit then Filled(img.b, at - pos, at + s.len, data[..], first) else data[..] == old(data[..])
      ensures hit <==> s.info.cs in chunks
    {
      ghost var was := data[..];
      if s.info.cs in chunks {
        R.ChunkPiece(img, s.info, chunks[s.info.cs], at, s.len);
      }
      hit := ReadDedupChunk(s.info.cs, at - s.info.off, s.len, data, pos);
      if hit {
        ChunkFills(img, s.info, chunks[s.info.cs], at, s.len, pos, was, data[..], first);
      }
    }

    /** The segment's chunk is in the store. */
    predicate Stored(s: Segment)
      reads this`chunks
    {
      s.info.cs.IsValid() && s.info.cs in chunks
    }

    /** The records to be synchronised: those of the segments whose chunks are missing. */
    function ToSync(segs: seq<Segment>): seq<DedupInfo>
      reads this`chunks
    {
      if segs == [] then []
      else
        var last := segs[|segs| - 1];
        ToSync(segs[..|segs| - 1]) + if last.info.cs.IsValid() && !Stored(last) then [last.info] else []
    }

    predicate AllStored(segs: seq<Segment>)
      reads this`chunks
    {
      segs == [] || (AllStored(segs[..|segs| - 1]) && Stored(segs[|segs| - 1]))
    }

    lemma {:induction false} AllStoredIff(segs: seq<Segment>)
      ensures AllStored(segs) <==> forall i :: 0 <= i < |segs| ==> Stored(segs[i])
    {
      if segs != [] { AllStoredIff(segs[..|segs| - 1]); }
    }

    lemma {:induction false} StoredBefore(segs: seq<Segment>, i: nat)
      requires i <= |segs|
      ensures AllStored(segs) ==> AllStored(segs[..i])
      decreases |segs| - i
    {
      if i < |segs| {
        StoredBefore(segs, i + 1);
        assert segs[..i + 1][..i] == segs[..i];
      } else {
        assert segs[..i] == segs;
      }
    }

    lemma OneToSync(segs: seq<Segment>, i: nat)
      requires i < |segs|
      ensures AllStored(segs[..i + 1]) <==> AllStored(segs[..i]) && Stored(segs[i])
      ensures ToSync(segs[..i + 1])
           == ToSync(segs[..i]) + if segs[i].info.cs.IsValid() && !Stored(segs[i]) then [segs[i].info] else []
    {
      assert segs[..i + 1][..i] == segs[..i];
    }

    /** The next segment, from its chunk if that is there, or else from the cache; a missing chunk is to be
        synchronised. */
    method ServeSegment(s: Segment, at: nat, data: array<byte>, pos: nat, ghost first: seq<byte>) returns (ok: bool)
      requires cache.Valid() && |syncQueue| <= REQUEST_BUF_SIZE && img.b == cache.b && R.ChunksTrue(img, chunks)
      requires data != cache.raw && data as object != cache.bitmap
      requires 0 < s.len && at + s.len <= Size() && pos + s.len <= data.Length == |first| && pos <= at
      requires s.info.cs.IsValid() ==> R.TrueInfo(img, s.info) && s.info.off <= at && at + s.len <= s.info.End()
      requires Filled(cache.b, at - pos, at, data[..], first)
      modifies this`syncQueue, cache`fetched, cache.raw, cache.bitmap, data
      ensures cache.Valid() && |syncQueue| <= REQUEST_BUF_SIZE && cache.fetched >= old(cache.fetched)
      ensures ok <==> cache.AllDeliver(old(cache.fetched), cache.fetched)
      ensures ok ==> Filled(cache.b, at - pos, at + s.len, data[..], first)
      ensures Stored(s) ==> cache.fetched == old(cache.fetched)
      ensures syncQueue == Enqueued(old(syncQueue), if s.info.cs.IsValid() && !Stored(s) then [s.info] else [])
    {
      if s.info.cs.IsValid() {
        ok := ServeFromChunk(s, at, data, pos, first);
        if ok {
          return;
        }
        EnqueueSync(s.info);
      }
      ok := ServeFromCache(at, s.len, data, pos, first);
    }

    method ServeFromCache(at: nat, len: nat, data: array<byte>, pos: nat, ghost first: seq<byte>) returns (ok: bool)
      requires cache.Valid() && data != cache.raw && data as object != cache.bitmap
      requires 0 < len && at + len <= Size() && pos + len <= data.Length == |first| && pos <= at
      requires Filled(cache.b, at - pos, at, data[..], first)
      modifies cache`fetched, cache.raw, cache.bitmap, data
      ensures cache.Valid() && cache.fetched >= old(cache.fetched)
      ensures ok <==> cache.AllDeliver(old(cache.fetched), cache.fetched)
      ensures ok ==> Filled(cache.b, at - pos, at + len, data[..], first)
    {
      ghost var was := data[..];
      var r := cache.ReadAt(at, data, pos, len);
      ok := r.Ok?;
      if ok {
        Appended(cache.b, at - pos, at, len, was, data[..], first);
      }
    }

    /** `process_dedup_op` with a buffer to fill. */
    method ProcessDedupOp(off: nat, len: nat, data: array<byte>) returns (ok: bool)
      requires Valid() && data != cache.raw && data as object != cache.bitmap
      requires off + len <= Size() && len <= data.Length
      modifies this`syncQueue, cache`fetched, cache.raw, cache.bitmap, data
      ensures Valid() && cache.fetched >= old(cache.fetched)
      ensures ok <==> cache.AllDeliver(old(cache.fetched), cache.fetched)
      ensures ok ==> data[..] == cache.b[off..off + len] + old(data[len..])
      ensures ok ==> syncQueue == Enqueued(old(syncQueue), ToSync(Query(records, id, off, len)))
      ensures (forall s :: s in Query(records, id, off, len) ==> Stored(s)) ==> cache.fetched == old(cache.fetched)
    {
      var segs := QuerySegments(off, len);
      ok := ServeSegments(segs, off, len, data);
    }

    /** The segments of a range of the blob; what they say of stored chunks is true. */
    method QuerySegments(off: nat, len: nat) returns (segs: seq<Segment>)
      requires Valid() && off + len <= Size()
      ensures segs == Query(records, id, off, len) && R.TrueSegments(img, segs, off, len)
    {
      segs := DedupRangeQuery(records, id, off, len);
      R.QuerySegmentsTrue(img, records, off, len);
    }

    /** One round of the loop below, `done` segments having been served. */
    method ServeNext(segs: seq<Segment>, done: nat, off: nat, at: nat, data: array<byte>, pos: nat,
                     ghost first: seq<byte>, ghost queue: seq<DedupInfo>, ghost fetched: nat)
        returns (ok: bool)
      requires cache.Valid() && |syncQueue| <= REQUEST_BUF_SIZE && img.b == cache.b && R.ChunksTrue(img, chunks)
      requires data != cache.raw && data as object != cache.bitmap && done < |segs| && at == off + pos
      requires var s := segs[done];
               && 0 < s.len && at + s.len <= Size() && pos + s.len <= data.Length == |first|
               && (s.info.cs.IsValid() ==> R.TrueInfo(img, s.info) && s.info.off <= at && at + s.len <= s.info.End())
      requires Filled(cache.b, off, at, data[..], first) && syncQueue == Enqueued(queue, ToSync(segs[..done]))
      requires AllStored(segs[..done]) ==> cache.fetched == fetched
      modifies this`syncQueue, cache`fetched, cache.raw, cache.bitmap, data
      ensures cache.Valid() && |syncQueue| <= REQUEST_BUF_SIZE && cache.fetched >= old(cache.fetched)
      ensures ok <==> cache.AllDeliver(old(cache.fetched), cache.fetched)
      ensures ok ==> Filled(cache.b, off, at + segs[done].len, data[..], first)
      ensures AllStored(segs[..done + 1]) ==> cache.fetched == fetched
      ensures syncQueue == Enqueued(queue, ToSync(segs[..done + 1]))
    {
      ghost var s := segs[done];
      OneToSync(segs, done);
      EnqueuedThen(queue, ToSync(segs[..done]), if s.info.cs.IsValid() && !Stored(s) then [s.info] else []);
      ok := ServeSegment(segs[done], at, data, pos, first);
    }

    /** The loop of `process_dedup_op`. What is stored is not fetched, and what is missing is to be
        synchronised. */
    method ServeAll(segs: seq<Segment>, off: nat, len: nat, data: array<byte>) returns (ok: bool)
      requires cache.Valid() && |syncQueue| <= REQUEST_BUF_SIZE && img.b == cache.b && R.ChunksTrue(img, chunks)
      requires data != cache.raw && data as object != cache.bitmap
      requires off + len <= Size() && len <= data.Length && R.TrueSegments(img, segs, off, len)
      modifies this`syncQueue, cache`fetched, cache.raw, cache.bitmap, data
      ensures cache.Valid() && |syncQueue| <= REQUEST_BUF_SIZE && cache.fetched >= old(cache.fetched)
      ensures ok <==> cache.AllDeliver(old(cache.fetched), cache.fetched)
      ensures ok ==> data[..] == cache.b[off..off + len] + old(data[len..])
      ensures ok ==> syncQueue == Enqueued(old(syncQueue), ToSync(segs))
      ensures AllStored(segs) ==> cache.fetched == old(cache.fetched)
    {
      var pos: nat, wholeOff: nat, i := 0, off, 0;
      ghost var first, queue, fetched := data[..], syncQueue, cache.fetched;
      assert segs[0..] == segs;
      while i < |segs|
        invariant 0 <= i <= |segs| && pos <= len && wholeOff == off + pos
        invariant cache.Valid() && |syncQueue| <= REQUEST_BUF_SIZE
        invariant R.TrueSegments(img, segs[i..], wholeOff, len - pos)
        invariant Filled(cache.b, off, wholeOff, data[..], first)
        invariant cache.fetched >= fetched && cache.AllDeliver(fetched, cache.fetched)
        invariant syncQueue == Enqueued(queue, ToSync(segs[..i]))
        invariant AllStored(segs[..i]) ==> cache.fetched == fetched
      {
        SegmentsThen(img, segs, i, wholeOff, len - pos);
        ok := ServeNext(segs, i, off, wholeOff, data, pos, first, queue, fetched);
        if !ok {
          StoredBefore(segs, i + 1);
          return;
        }
        pos := pos + segs[i].len;
        wholeOff := wholeOff + segs[i].len;
        i := i + 1;
      }
      AllServed(segs, i, off, wholeOff, data[..], first);
      ok := true;
    }

    lemma AllServed(segs: seq<Segment>, i: nat, off: nat, at: nat, now: seq<byte>, first: seq<byte>)
      requires i == |segs| && Filled(cache.b, off, at, now, first)
      ensures segs[..i] == segs && now == cache.b[off..at] + first[at - off..]
    {
      FilledIs(cache.b, off, at, now, first);
    }

    method ServeSegments(segs: seq<Segment>, off: nat, len: nat, data: array<byte>) returns (ok: bool)
      requires Valid() && data != cache.raw && data as object != cache.bitmap
      requires off + len <= Size() && len <= data.Length && R.TrueSegments(img, segs, off, len)
      modifies this`syncQueue, cache`fetched, cache.raw, cache.bitmap, data
      ensures Valid() && cache.fetched >= old(cache.fetched)
      ensures ok <==> cache.AllDeliver(old(cache.fetched), cache.fetched)
      ensures ok ==> data[..] == cache.b[off..off + len] + old(data[len..])
      ensures ok ==> syncQueue == Enqueued(old(syncQueue), ToSync(segs))
      ensures (forall i :: 0 <= i < |segs| ==> Stored(segs[i])) ==> cache.fetched == old(cache.fetched)
    {
      AllStoredIff(segs);
      ok := ServeAll(segs, off, len, data);
    }

    /** Queue the chunks of a range that was read, each at most once. */
    method TryDedupChunk(off: nat, len: nat)
      requires QueueOk()
      modifies this`dedupQueue, this`marked
      ensures QueueOk()
      ensures forall i :: len > 0 && off / CHUNK_SIZE <= i <= (off + len - 1) / CHUNK_SIZE && i !in marked ==>
                |dedupQueue| == REQUEST_BUF_SIZE
      ensures old(dedupQueue) <= dedupQueue
      ensures forall k :: |old(dedupQueue)| <= k < |dedupQueue| ==> dedupQueue[k] !in old(marked)
      ensures forall j, k :: |old(dedupQueue)| <= j < k < |dedupQueue| ==> dedupQueue[j] < dedupQueue[k]
      ensures marked == old(marked) + set i | i in dedupQueue[|old(dedupQueue)|..]
    {
      if len == 0 {
        return;
      }
      var idx, last := off / CHUNK_SIZE, (off + len - 1) / CHUNK_SIZE;
      ghost var n := |dedupQueue|;
      while idx <= last
        invariant off / CHUNK_SIZE <= idx <= last + 1 && QueueOk()
        invariant forall i :: off / CHUNK_SIZE <= i < idx && i !in marked ==> |dedupQueue| == REQUEST_BUF_SIZE
        invariant old(dedupQueue) <= dedupQueue && n == |old(dedupQueue)|
        invariant forall k :: n <= k < |dedupQueue| ==> dedupQueue[k] !in old(marked) && dedupQueue[k] < idx
        invariant forall j, k :: n <= j < k < |dedupQueue| ==> dedupQueue[j] < dedupQueue[k]
        invariant marked == old(marked) + set i | i in dedupQueue[n..]
      {
        if idx !in marked && |dedupQueue| < REQUEST_BUF_SIZE {
          assert (dedupQueue + [idx])[n..] == dedupQueue[n..] + [idx];
          dedupQueue := dedupQueue + [idx];
          marked := marked + {idx};
        }
        idx := idx + 1;
      }
    }

    /** `fetch`: on success, `n` bytes, those of the plain backend; the rest of the buffer is kept. It
        succeeds unless a fetch from the backend fails. */
    method Fetch(off: nat, data: array<byte>) returns (ok: bool, n: nat)
      requires Valid() && data != cache.raw && data as object != cache.bitmap
      modifies this`syncQueue, this`dedupQueue, this`marked, cache`fetched, cache.raw, cache.bitmap, data
      ensures Valid() && cache.fetched >= old(cache.fetched)
      ensures ok <==> cache.AllDeliver(old(cache.fetched), cache.fetched)
      ensures ok ==> n == (if off >= Size() then 0 else MinOf(data.Length, Size() - off))
                     && data[..] == (if off >= Size() then [] else cache.b[off..off + n]) + old(data[n..])
      ensures ok && n > 0 ==> forall i :: off / CHUNK_SIZE <= i <= (off + n - 1) / CHUNK_SIZE && i !in marked ==>
                                |dedupQueue| == REQUEST_BUF_SIZE
      ensures ok && n > 0 ==> syncQueue == Enqueued(old(syncQueue), ToSync(Query(records, id, off, n)))
      ensures !ok ==> dedupQueue == old(dedupQueue) && marked == old(marked)
    {
      if data.Length == 0 || off >= Size() {
        return true, 0;
      }
      n := MinOf(data.Length, Size() - off);
      ok := ProcessDedupOp(off, n, data);
      if ok {
        TryDedupChunk(off, n);
      }
    }

    // ---- The chunk store, as seen from here ------------------------------------------------------

    /** `add_chunk`: may evict any chunks to make room, and may fail. */
    method AddChunk(cs: CheckSum, data: seq<byte>) returns (ok: bool)
      requires Valid() && R.TrueChunk(img, cs, data)
      modifies this`chunks, this`added
      ensures Valid() && added == old(added) + 1 && ok == adds(old(added)).ok
      ensures var left := old(chunks) - adds(old(added)).evicted;
              chunks == if ok then R.Put(left, cs, data) else left
    {
      var end := adds(added);
      added := added + 1;
      ok := end.ok;
      chunks := chunks - end.evicted;
      if ok {
        chunks := R.Put(chunks, cs, data);
      }
    }

    // ---- Deduplication -----------------------------------------------------------------------------

    method AddLocalDedupInfo(off: nat, len: u32, cs: CheckSum)
      requires Valid() && off + len < 0x8000_0000_0000_0000 && R.TrueInfo(img, DedupInfo(off, len, cs))
      modifies this`records
      ensures Valid() && records == old(records)[DedupRange(id, off, off + len) := DedupInfo(off, len, cs)]
    {
      records := records[DedupRange(id, off, off + len) := DedupInfo(off, len, cs)];
    }

    /** The first part of `dedup`: is the request well formed? */
    predicate GoodRequest(off: nat, len: u32) {
      off < Size() && off % CHUNK_SIZE == 0 && (len % CHUNK_SIZE != 0 ==> off + len >= Size())
    }

    /** The one change to the index is the record of `[off, end)` under the checksum of its bytes,
        and that chunk is in the store. */
    ghost predicate OneRecordMore(before: Records, off: nat, end: nat, algo: HashMethod)
      requires off <= end <= Size() < 0x8000_0000_0000_0000 && end - off < 0x1_0000_0000
      reads this
    {
      var cs := h.Of(cache.b[off..end], algo);
      cs in chunks && records == before[DedupRange(id, off, end) := DedupInfo(off, end - off, cs)]
    }

    /** The bytes of a range, clipped at the end of the blob, if they can be had. */
    method FetchRange(off: nat, len: nat) returns (bytes: Option<seq<byte>>)
      requires cache.Valid() && len > 0
      modifies cache`fetched, cache.raw, cache.bitmap
      ensures cache.Valid() && cache.fetched >= old(cache.fetched)
      ensures forall i :: 0 <= i < C.NumChunks(Size()) && old(cache.GetBits()[i]) ==> cache.GetBits()[i]
      ensures bytes.Some? <==> off < Size() && cache.AllDeliver(old(cache.fetched), cache.fetched)
      ensures bytes.Some? ==> bytes.value == cache.b[off..MinOf(off + len, Size())]
    {
      var buf := new byte[len];
      var r := cache.ReadAt(off, buf, 0, len);
      if r.Err? {
        return None;
      }
      assert buf[..r.value] == cache.b[off..off + r.value];
      return Some(buf[..r.value]);
    }

    /** The rest of `dedup`: hash the backend's bytes, store them, record the range. */
    method StoreAndRecord(off: nat, len: u32, algo: HashMethod) returns (ok: bool)
      requires Valid() && off < Size() && 0 < len
      modifies this`records, this`chunks, this`added, cache`fetched, cache.raw, cache.bitmap
      ensures Valid() && cache.fetched >= old(cache.fetched)
      ensures ok <==> cache.AllDeliver(old(cache.fetched), cache.fetched) && adds(old(added)).ok
      ensures ok ==> OneRecordMore(old(records), off, MinOf(off + len, Size()), algo)
      ensures !ok ==> records == old(records)
    {
      var bytes := FetchRange(off, len);
      if bytes.None? || (|bytes.value| != len && off + |bytes.value| != Size()) {
        return false;
      }
      var cs := h.Of(bytes.value, algo);
      R.CheckedIsTrue(img, cs, bytes.value);
      ok := AddChunk(cs, bytes.value);
      if ok {
        AddLocalDedupInfo(off, |bytes.value|, cs);
      }
    }

    /** `dedup` of a range whose checksum is not known in advance. */
    method DedupRangeOf(off: nat, len: u32, algo: HashMethod) returns (ok: bool, ghost check: CheckResult)
      requires Valid() && off + len < 0x1_0000_0000_0000_0000
      modifies this`records, this`chunks, this`added, cache`fetched, cache.raw, cache.bitmap
      ensures Valid() && cache.fetched >= old(cache.fetched)
      ensures check == CheckOf(Query(old(records), id, off, len))
      ensures ok <==> len == 0
                      || (off < Size() && off % CHUNK_SIZE == 0 && (len % CHUNK_SIZE == 0 || off + len >= Size())
                          && !check.InvalidRange?
                          && (check.Fresh? ==> cache.AllDeliver(old(cache.fetched), cache.fetched)
                                               && adds(old(added)).ok))
      ensures if ok && len > 0 && check.Fresh? then OneRecordMore(old(records), off, MinOf(off + len, Size()), algo)
              else records == old(records)
    {
      check := CheckOf(Query(records, id, off, len));
      if len == 0 {
        return true, check;
      }
      if !GoodRequest(off, len) {
        return false, check;
      }
      var c := DedupCheckRange(records, DedupRange(id, off, off + len));
      if c != Fresh {
        return c == Duplicate, check;
      }
      ok := StoreAndRecord(off, len, algo);
    }

    /** Is all of the chunk recorded, as far as a query for it shows? */
    ghost predicate Whole(chunk: nat)
      requires Size() < 0x8000_0000_0000_0000
      reads this
    {
      chunk * CHUNK_SIZE <= Size()
      && R.AllValid(Query(records, id, chunk * CHUNK_SIZE, ChunkEnd(Size(), chunk) - chunk * CHUNK_SIZE))
    }

    /** `gc_chunk`: the cached copy goes only if all of the chunk is recorded. */
    method GcChunk(chunk: nat) returns (ok: bool)
      requires cache.Valid() && Size() < 0x8000_0000_0000_0000
      modifies cache`dropped, cache.raw, cache.bitmap
      ensures cache.Valid() && cache.dropped >= old(cache.dropped)
      ensures ok <==> cache.AllDropped(old(cache.dropped), cache.dropped)
      ensures cache.GetBits()
           == if Whole(chunk) && chunk < C.NumChunks(Size()) then old(cache.GetBits())[chunk := false]
              else old(cache.GetBits())
    {
      var whole := IsWhole(chunk);
      ok := InvalidateIf(whole, chunk);
    }

    method InvalidateIf(whole: bool, chunk: nat) returns (ok: bool)
      requires cache.Valid()
      modifies cache`dropped, cache.raw, cache.bitmap
      ensures cache.Valid() && cache.dropped >= old(cache.dropped)
      ensures ok <==> cache.AllDropped(old(cache.dropped), cache.dropped)
      ensures cache.GetBits() == if whole && chunk < C.NumChunks(Size()) then old(cache.GetBits())[chunk := false]
                                 else old(cache.GetBits())
    {
      if !whole {
        return true;
      }
      ok := cache.InvalidateChunk(chunk);
    }

    method IsWhole(chunk: nat) returns (whole: bool)
      requires Size() < 0x8000_0000_0000_0000
      ensures whole <==> Whole(chunk)
    {
      var start := chunk * CHUNK_SIZE;
      if start > Size() {
        return false;
      }
      var end := ChunkEnd(Size(), chunk);
      var infos := DedupRangeQuery(records, id, start, end - start);
      whole := AllSegmentsValid(infos);
    }

    static method AllSegmentsValid(infos: seq<Segment>) returns (all: bool)
      ensures all <==> R.AllValid(infos)
    {
      var i := 0;
      while i < |infos|
        invariant 0 <= i <= |infos| && forall k :: 0 <= k < i ==> infos[k].info.cs.IsValid()
      {
        if !infos[i].info.cs.IsValid() {
          return false;
        }
        i := i + 1;
      }
      return true;
    }

    /** Over the worker's records, a chunk of the blob loses its cached copy iff it is recorded. */
    method GcRecordedChunk(chunk: nat) returns (ok: bool)
      requires Valid() && ChunkShaped(records, id, Size()) && chunk * CHUNK_SIZE < Size()
      modifies cache`dropped, cache.raw, cache.bitmap
      ensures Valid() && chunk < C.NumChunks(Size())
      ensures cache.GetBits() == if Recorded(records, id, Size(), chunk) then old(cache.GetBits())[chunk := false]
                                 else old(cache.GetBits())
    {
      RecordedIsWhole(records, id, Size(), chunk);
      ok := GcChunk(chunk);
    }

    lemma WholeChunkRequest(chunk: nat)
      requires chunk * CHUNK_SIZE < Size()
      ensures GoodRequest(chunk * CHUNK_SIZE, CHUNK_SIZE)
      ensures MinOf(chunk * CHUNK_SIZE + CHUNK_SIZE, Size()) == ChunkEnd(Size(), chunk)
    {
    }

    /** `dedup` as the worker asks for it: one whole chunk, by its number. */
    method DedupChunk(chunk: nat) returns (ok: bool)
      requires Valid() && ChunkShaped(records, id, Size()) && chunk * CHUNK_SIZE < Size()
      modifies this`records, this`chunks, this`added, cache`fetched, cache.raw, cache.bitmap
      ensures Valid() && cache.fetched >= old(cache.fetched)
      ensures !Recorded(old(records), id, Size(), chunk) ==>
                (ok <==> cache.AllDeliver(old(cache.fetched), cache.fetched) && adds(old(added)).ok)
      ensures if ok && !Recorded(old(records), id, Size(), chunk) then
                OneRecordMore(old(records), chunk * CHUNK_SIZE, ChunkEnd(Size(), chunk), Blake3)
              else records == old(records)
      ensures Recorded(old(records), id, Size(), chunk) ==> (ok <==> (chunk + 1) * CHUNK_SIZE <= Size())
    {
      CheckRangeExact(records, id, Size(), chunk);
      WholeChunkRequest(chunk);
      ghost var check;
      ok, check := DedupRangeOf(chunk * CHUNK_SIZE, CHUNK_SIZE, Blake3);
    }

    /** A stored chunk that its record names is that slice of the backend, byte for byte. */
    lemma RecordedChunkIsSlice(chunk: nat)
      requires Valid() && ChunkShaped(records, id, Size()) && Recorded(records, id, Size(), chunk)
      requires records[ChunkKey(id, Size(), chunk)].cs in chunks
      ensures chunks[records[ChunkKey(id, Size(), chunk)].cs] == cache.b[chunk * CHUNK_SIZE..ChunkEnd(Size(), chunk)]
    {
      var k := ChunkKey(id, Size(), chunk);
      assert IsChunkEntry(k, records[k], id, Size());
      R.ChunkIsSlice(img, records[k], chunks[records[k].cs]);
    }

    /** The dedup worker on one request: when it succeeds, the chunk is recorded, and its cached copy
        is dropped. A short last chunk that is recorded already is an error to it; nothing changes. */
    method DedupWorkerStep(chunk: nat) returns (ok: bool)
      requires Valid() && ChunkShaped(records, id, Size()) && chunk * CHUNK_SIZE < Size()
      modifies this`records, this`chunks, this`added, cache`fetched, cache`dropped, cache.raw, cache.bitmap
      ensures Valid() && ChunkShaped(records, id, Size()) && cache.fetched >= old(cache.fetched)
      ensures !Recorded(old(records), id, Size(), chunk) ==>
                (ok <==> cache.AllDeliver(old(cache.fetched), cache.fetched) && adds(old(added)).ok)
      ensures if ok && !Recorded(old(records), id, Size(), chunk) then
                OneRecordMore(old(records), chunk * CHUNK_SIZE, ChunkEnd(Size(), chunk), Blake3)
              else records == old(records)
      ensures ok ==> Recorded(records, id, Size(), chunk) && !cache.GetBits()[chunk]
      ensures Recorded(old(records), id, Size(), chunk) ==> (ok <==> (chunk + 1) * CHUNK_SIZE <= Size())
    {
      ghost var before := records;
      ok := DedupChunk(chunk);
      if ok {
        if !Recorded(before, id, Size(), chunk) {
          RecordKeepsShape(before, id, Size(), chunk,
                           h.Of(cache.b[chunk * CHUNK_SIZE..ChunkEnd(Size(), chunk)], Blake3));
        }
        var _ := GcRecordedChunk(chunk);
      }
    }

    /** There is something to synchronise: the record is valid, within the blob, and names its bytes. */
    predicate Syncs(info: DedupInfo) {
      && info.cs.IsValid() && 0 < info.len && info.End() <= Size()
      && h.Of(cache.b[info.off..info.End()], info.cs.algo) == info.cs
    }

    /** The bytes of a record, if they can be had and hash to its checksum. */
    method FetchForSync(info: DedupInfo) returns (bytes: Option<seq<byte>>)
      requires cache.Valid() && info.len > 0
      modifies cache`fetched, cache.raw, cache.bitmap
      ensures cache.Valid() && cache.fetched >= old(cache.fetched)
      ensures forall i :: 0 <= i < C.NumChunks(Size()) && old(cache.GetBits()[i]) ==> cache.GetBits()[i]
      ensures bytes.Some? <==> info.End() <= Size() && h.Of(cache.b[info.off..info.End()], info.cs.algo) == info.cs
                               && cache.AllDeliver(old(cache.fetched), cache.fetched)
      ensures bytes.Some? ==> bytes.value == cache.b[info.off..info.End()]
    {
      bytes := FetchRange(info.off, info.len);
      if bytes.Some? && (|bytes.value| != info.len || h.Of(bytes.value, info.cs.algo) != info.cs) {
        bytes := None;
      }
    }

    /** Collect the chunks of a record. */
    method GcChunksOf(info: DedupInfo)
      requires cache.Valid() && Size() < 0x8000_0000_0000_0000 && info.len > 0
      modifies cache`dropped, cache.raw, cache.bitmap
      ensures cache.Valid()
      ensures forall i :: 0 <= i < C.NumChunks(Size()) ==>
                cache.GetBits()[i] == (old(cache.GetBits()[i]) && !(InRecord(info, i) && Whole(i)))
    {
      var chunk, last := info.off / CHUNK_SIZE, (info.off + info.len - 1) / CHUNK_SIZE;
      while chunk <= last
        invariant info.off / CHUNK_SIZE <= chunk <= last + 1 && cache.Valid()
        invariant forall i :: 0 <= i < C.NumChunks(Size()) ==>
                    cache.GetBits()[i] == (old(cache.GetBits()[i]) && !(InRecord(info, i) && i < chunk && Whole(i)))
      {
        var _ := GcChunk(chunk);
        chunk := chunk + 1;
      }
    }

    /** Chunk `i` overlaps the record. */
    predicate InRecord(info: DedupInfo, i: nat)
      requires info.len > 0
    {
      info.off / CHUNK_SIZE <= i <= (info.off + info.len - 1) / CHUNK_SIZE
    }

    /** `SyncWorker::process`: only data that hashes to the recorded checksum enters the store, and
        only chunks wholly recorded are dropped from the cache afterwards; and if the fetches deliver and
        the add succeeds, it does, and they are. */
    method SyncProcess(info: DedupInfo)
      requires Valid()
      modifies this`chunks, this`added, cache`fetched, cache`dropped, cache.raw, cache.bitmap
      ensures Valid() && cache.fetched >= old(cache.fetched)
      ensures var tried := Syncs(info) && cache.AllDeliver(old(cache.fetched), cache.fetched);
              var end := adds(old(added));
              && added == old(added) + (if tried then 1 else 0)
              && chunks == (if !tried then old(chunks)
                            else if !end.ok then old(chunks) - end.evicted
                            else R.Put(old(chunks) - end.evicted, info.cs, cache.b[info.off..info.End()]))
              && forall i :: 0 <= i < C.NumChunks(Size()) ==>
                   if tried && end.ok && InRecord(info, i) && Whole(i) then !cache.GetBits()[i]
                   else old(cache.GetBits()[i]) ==> cache.GetBits()[i]
    {
      if !info.cs.IsValid() || info.len == 0 {
        return;
      }
      var bytes := FetchForSync(info);
      if bytes.None? {
        return;
      }
      R.CheckedIsTrue(img, info.cs, bytes.value);
      var ok := AddChunk(info.cs, bytes.value);
      if ok {
        GcChunksOf(info);
      }
    }
  }

  /** A queue after these requests: those that fit. */
  function Enqueued<T>(queue: seq<T>, requests: seq<T>): seq<T> {
    if |queue| + |requests| <= REQUEST_BUF_SIZE then queue + requests
    else if |queue| >= REQUEST_BUF_SIZE then queue
    else queue + requests[..REQUEST_BUF_SIZE - |queue|]
  }

  lemma SegmentsThen(img: R.Image, segs: seq<Segment>, i: nat, at: nat, len: nat)
    requires i < |segs| && R.TrueSegments(img, segs[i..], at, len)
    ensures var s := segs[i];
            && 0 < s.len <= len && R.TrueSegments(img, segs[i + 1..], at + s.len, len - s.len)
            && (s.info.cs.IsValid() ==> R.TrueInfo(img, s.info) && s.info.off <= at && at + s.len <= s.info.End())
  {
    assert segs[i..][0] == segs[i] && segs[i..][1..] == segs[i + 1..];
  }

  lemma EnqueuedThen<T>(queue: seq<T>, a: seq<T>, b: seq<T>)
    ensures Enqueued(Enqueued(queue, a), b) == Enqueued(queue, a + b)
  {
  }

  /** The buffer `now` was `first`, and holds `b[off..at]` so far. */
  ghost predicate Filled(b: seq<byte>, off: nat, at: nat, now: seq<byte>, first: seq<byte>) {
    off <= at <= |b| && at - off <= |first| == |now|
    && forall k :: 0 <= k < |now| ==> now[k] == if k < at - off then b[off + k] else first[k]
  }

  lemma Appended(b: seq<byte>, off: nat, at: nat, len: nat, was: seq<byte>, now: seq<byte>, first: seq<byte>)
    requires Filled(b, off, at, was, first) && at + len <= |b| && at - off + len <= |first|
    requires now == was[..at - off] + b[at..at + len] + was[at - off + len..]
    ensures Filled(b, off, at + len, now, first)
  {
  }

  lemma ChunkFills(img: R.Image, v: DedupInfo, chunk: seq<byte>, at: nat, len: nat, pos: nat,
                   was: seq<byte>, now: seq<byte>, first: seq<byte>)
    requires R.TrueInfo(img, v) && R.TrueChunk(img, v.cs, chunk)
    requires v.off <= at && at + len <= v.End() && at + len <= |img.b|
    requires pos + len <= |first| && pos <= at && Filled(img.b, at - pos, at, was, first)
    requires at - v.off + len <= |chunk|
    requires now == was[..pos] + chunk[at - v.off..at - v.off + len] + was[pos + len..]
    ensures Filled(img.b, at - pos, at + len, now, first)
  {
    R.ChunkPiece(img, v, chunk, at, len);
    Appended(img.b, at - pos, at, len, was, now, first);
  }

  lemma FilledIs(b: seq<byte>, off: nat, at: nat, now: seq<byte>, first: seq<byte>)
    requires Filled(b, off, at, now, first)
    ensures now == b[off..at] + first[at - off..]
  {
  }

  lemma RecordKeepsShape(records: Records, id: Raw, size: u64, chunk: nat, cs: CheckSum)
    requires ChunkShaped(records, id, size) && chunk * CHUNK_SIZE < size && cs.IsValid()
    ensures ChunkShaped(records[ChunkKey(id, size, chunk) :=
                          DedupInfo(chunk * CHUNK_SIZE, ChunkEnd(size, chunk) - chunk * CHUNK_SIZE, cs)], id, size)
  {
  }

  /** Once its record is there, a chunk is whole for the collector. */
  lemma RecordedIsWhole(records: Records, id: Raw, size: u64, chunk: nat)
    requires ChunkShaped(records, id, size) && size < 0x8000_0000_0000_0000 && chunk * CHUNK_SIZE < size
    ensures R.AllValid(Query(records, id, chunk * CHUNK_SIZE, ChunkEnd(size, chunk) - chunk * CHUNK_SIZE))
            <==> Recorded(records, id, size, chunk)
  {
    var len := ChunkEnd(size, chunk) - chunk * CHUNK_SIZE;
    WholeChunkQuery(records, id, size, chunk, len);
    if Recorded(records, id, size, chunk) {
      assert IsChunkEntry(ChunkKey(id, size, chunk), records[ChunkKey(id, size, chunk)], id, size);
    } else {
      assert !Query(records, id, chunk * CHUNK_SIZE, len)[0].info.cs.IsValid();
    }
  }
}
