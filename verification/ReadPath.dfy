/** The whole read path under interleaving. Threads read, deduplicate, synchronise and collect;
    chunks are added by others and evicted at any time; the cache runs step by step underneath.
    The claim: a read that succeeds returns the bytes of the plain backend. */
module ReadPath {
  import opened Basics
  import opened Bytes
  import opened CheckSums
  import opened DedupQuery
  import opened IndexDb
  import C = CacheProtocol

  type Tid = C.Tid

  /** What does not change: the backend's bytes, the hash functions, the id of the blob. */
  datatype Image = Image(b: seq<byte>, h: Hasher, id: Raw) {
    /** Slices of the blob are told apart by their checksums. */
    ghost predicate Good() {
      |b| < 0x8000_0000_0000_0000
      && forall lo: nat, hi: nat :: lo <= hi <= |b| ==> NoCollision(h, b[lo..hi], b)
    }
  }

  datatype Request = Request(off: nat, want: nat)

  /** What a thread is doing. `busy`: its cache operation is under way. */
  datatype Job =
    | Free
    // DedupReader::fetch
    | Looking(off: nat, want: nat)
    | Serving(off: nat, want: nat, segs: seq<Segment>, out: seq<byte>, busy: bool)
    | Served(off: nat, want: nat, out: seq<byte>)
    | Failed
    // DedupCore::dedup
    | Checking(off: nat, len: u32, claimed: Option<CheckSum>, algo: HashMethod)
    | LookingUp(off: nat, len: u32, cs: CheckSum)
    | Fetching(off: nat, len: u32, algo: HashMethod, busy: bool)
    | Storing(off: nat, data: seq<byte>, cs: CheckSum)
    | Recording(off: nat, len: u32, cs: CheckSum)
    // SyncWorker::process
    | Syncing(info: DedupInfo, busy: bool)
    | SyncStoring(off: nat, data: seq<byte>, cs: CheckSum)
    // DedupCore::gc_chunk
    | Collecting

  datatype State = State(records: Records, chunks: map<CheckSum, seq<byte>>, cache: C.State, job: map<Tid, Job>)

  datatype Action =
    | Tick(a: C.Action)                        // a step of the thread's cache operation
    | BeginRead(off: nat, want: nat)
    | TakeSegments
    | RangeError                               // the index cannot be read: everything from the backend
    | Hit
    | FallBack                                 // gap, missing chunk or failed chunk read
    | TakeCached
    | CacheFailed
    | FinishRead
    | BeginDedup(off: nat, len: u32, claimed: Option<CheckSum>, algo: HashMethod)
    | CheckDedup
    | LookUpChunk
    | FetchForDedup
    | StoreChunk
    | StoreFailed
    | RecordChunk
    | BeginSync(info: DedupInfo)
    | FetchForSync
    | BeginGc(chunk: nat)
    | GcDone
    | Rest                                     // an operation is over
    // the world outside
    | AddChunk(cs: CheckSum, data: seq<byte>)  // prefetched and checked, or stored for another image
    | Evict(gone: set<CheckSum>)
    | RecordElsewhere(k: DedupRange, v: DedupInfo)

  /** `get_or_put`: a chunk that is there stays as it is. */
  function Put(chunks: map<CheckSum, seq<byte>>, cs: CheckSum, data: seq<byte>): map<CheckSum, seq<byte>> {
    if cs in chunks then chunks else chunks[cs := data]
  }

  /** Where the next byte of the read comes from. */
  function Pos(j: Job): nat
    requires j.Serving?
  {
    j.off + |j.out|
  }

  /** `read_at` in the cache of `[off, off+want)`, at whatever point. */
  predicate CacheReads(p: C.Pc, off: nat, want: nat) {
    match p
    case WantRead(o, w) => o == off && w == want
    case Reader(o, _, w, _, _) => o == off && w == want
    case ReadOk(o, w, _) => o == off && w == want
    case ReadErr => true
    case _ => false
  }

  predicate CacheInvalidates(p: C.Pc) {
    p.WantWrite? || p.TestBit? || p.Punch? || p.Invalidated?
  }

  /** The range a job's cache operation reads. */
  function Wanted(j: Job): Option<Request> {
    match j
    case Serving(_, _, segs, _, true) => if segs == [] then None else Some(Request(Pos(j), segs[0].len))
    case Fetching(off, len, _, true) => Some(Request(off, len))
    case Syncing(info, true) => Some(Request(info.off, info.len))
    case _ => None
  }

  /** Does the cached chunk data hold the next segment? (`with_chunk_range`) */
  predicate ChunkServes(data: seq<byte>, info: DedupInfo, pos: nat, len: nat) {
    info.off <= pos && pos - info.off + len <= |data|
  }

  /** The job after a segment with a valid checksum has been served from `data`. */
  function AfterHit(j: Job, data: seq<byte>): Job
    requires j.Serving? && j.segs != [] && ChunkServes(data, j.segs[0].info, Pos(j), j.segs[0].len)
  {
    var start := Pos(j) - j.segs[0].info.off;
    j.(segs := j.segs[1..], out := j.out + data[start..start + j.segs[0].len])
  }

  ghost predicate AllValid(segs: seq<Segment>) {
    forall i :: 0 <= i < |segs| ==> segs[i].info.cs.IsValid()
  }

  /** If `cs` is the checksum of a slice of the blob, `data` is that slice. Nothing is asked of data under
      a checksum that no slice has. */
  ghost predicate TrueChunk(img: Image, cs: CheckSum, data: seq<byte>) {
    forall lo: nat, hi: nat :: lo <= hi <= |img.b| && cs == img.h.Of(img.b[lo..hi], cs.algo) ==> data == img.b[lo..hi]
  }

  /** What has been checked against its checksum is such data. */
  lemma CheckedIsTrue(img: Image, cs: CheckSum, data: seq<byte>)
    requires img.h.Of(data, cs.algo) == cs && NoCollision(img.h, data, img.b)
    ensures TrueChunk(img, cs, data)
  {
    forall lo: nat, hi: nat | lo <= hi <= |img.b| && cs == img.h.Of(img.b[lo..hi], cs.algo)
      ensures data == img.b[lo..hi]
    {
      assert HashesLike(img.h, data, img.b, lo, hi, cs.algo);
    }
  }

  ghost predicate TrueInfo(img: Image, v: DedupInfo) {
    v.off <= |img.b| && v.cs == img.h.Of(img.b[v.off..MinOf(v.End(), |img.b|)], v.cs.algo)
  }

  ghost predicate Enabled(img: Image, s: State, t: Tid, a: Action) {
    t in s.job && t in s.cache.pc && var j, p := s.job[t], s.cache.pc[t];
    match a
    case Tick(ca) => !ca.StartRead? && !ca.StartInvalidate? && !ca.Return? && C.Enabled(img.b, s.cache, t, ca)
    case BeginRead(_, _) => j.Free?
    case TakeSegments => j.Looking? && j.off < |img.b| && |img.b| < 0x8000_0000_0000_0000
    case RangeError => j.Looking? && j.off < |img.b| && |img.b| < 0x8000_0000_0000_0000
    case Hit => j.Serving? && !j.busy && j.segs != [] && j.segs[0].info.cs.IsValid() && j.segs[0].info.cs in s.chunks
                && ChunkServes(s.chunks[j.segs[0].info.cs], j.segs[0].info, Pos(j), j.segs[0].len)
    case FallBack => j.Serving? && !j.busy && j.segs != [] && p.Idle?
    case TakeCached => Wanted(j).Some? && p.ReadOk?
    case CacheFailed => Wanted(j).Some? && p.ReadErr?
    case FinishRead => j.Serving? && !j.busy && j.segs == []
    case BeginDedup(off, len, claimed, _) =>
      j.Free? && off < 0x1_0000_0000_0000_0000 && (claimed.Some? ==> TrueInfo(img, DedupInfo(off, len, claimed.value)))
    case CheckDedup => j.Checking?
    case LookUpChunk => j.LookingUp?
    case FetchForDedup => j.Fetching? && !j.busy && p.Idle?
    case StoreChunk => (j.Storing? && |j.data| < 0x1_0000_0000) || j.SyncStoring?
    case StoreFailed => j.Storing? || j.SyncStoring?
    case RecordChunk => j.Recording? && j.off + j.len < 0x1_0000_0000_0000_0000
    case BeginSync(_) => j.Free?
    case FetchForSync => j.Syncing? && !j.busy && p.Idle?
    case BeginGc(chunk) =>
      j.Free? && p.Idle? && chunk * CHUNK_SIZE <= |img.b| < 0x8000_0000_0000_0000
      && AllValid(Query(s.records, img.id, chunk * CHUNK_SIZE, ChunkEnd(|img.b|, chunk) - chunk * CHUNK_SIZE))
    case GcDone => j.Collecting? && p.Invalidated?
    case Rest => j.Served? || j.Failed?
    case AddChunk(cs, data) => TrueChunk(img, cs, data)
    case Evict(_) => true
    case RecordElsewhere(k, _) => k.id != img.id
  }

  /** What the finished cache read `out` is used for. */
  function AfterCacheRead(img: Image, j: Job, out: seq<byte>): Job
    requires Wanted(j).Some?
  {
    match j
    case Serving(_, _, segs, _, _) => j.(segs := segs[1..], out := j.out + out, busy := false)
    case Fetching(off, len, algo, _) =>
      if |out| != len && off + |out| != |img.b| then Failed else Storing(off, out, img.h.Of(out, algo))
    case Syncing(info, _) =>
      if |out| == info.len && img.h.Of(out, info.cs.algo) == info.cs
          then SyncStoring(info.off, out, info.cs) else Failed
  }

  function AfterCheck(img: Image, j: Job, r: CheckResult): Job
    requires j.Checking?
  {
    if j.len == 0 then Free
    else if j.off >= |img.b| || j.off % CHUNK_SIZE != 0 then Failed
    else if j.len % CHUNK_SIZE != 0 && j.off + j.len < |img.b| then Failed
    else match r
      case Duplicate => Free
      case InvalidRange => Failed
      case Fresh => if j.claimed.Some? then LookingUp(j.off, j.len, j.claimed.value)
                    else Fetching(j.off, j.len, j.algo, false)
  }

  /** The step, if any, that an action takes in the cache. */
  function CacheStep(j: Job, a: Action): Option<C.Action> {
    match a
    case Tick(ca) => Some(ca)
    case FallBack => if j.Serving? && j.segs != [] then Some(C.StartRead(Pos(j), j.segs[0].len)) else None
    case FetchForDedup => if j.Fetching? then Some(C.StartRead(j.off, j.len)) else None
    case FetchForSync => if j.Syncing? then Some(C.StartRead(j.info.off, j.info.len)) else None
    case BeginGc(chunk) => Some(C.StartInvalidate(chunk))
    case TakeCached => Some(C.Return)
    case CacheFailed => Some(C.Return)
    case GcDone => Some(C.Return)
    case _ => None
  }

  ghost function NextCache(img: Image, s: State, t: Tid, a: Action): C.State
    requires Enabled(img, s, t, a)
  {
    match CacheStep(s.job[t], a)
    case Some(ca) => C.Next(img.b, s.cache, t, ca)
    case None => s.cache
  }

  ghost function NextJob(img: Image, s: State, t: Tid, a: Action): Job
    requires Enabled(img, s, t, a)
  {
    var j, p := s.job[t], s.cache.pc[t];
    match a
    case BeginRead(off, want) => if want == 0 || off >= |img.b| then Served(off, want, []) else Looking(off, want)
    case TakeSegments =>
      Serving(j.off, j.want, Query(s.records, img.id, j.off, MinOf(j.want, |img.b| - j.off)), [], false)
    case RangeError =>
      Serving(j.off, j.want, if j.want == 0 then [] else [Gap(j.off, MinOf(j.want, |img.b| - j.off))], [], false)
    case Hit => AfterHit(j, s.chunks[j.segs[0].info.cs])
    case FallBack => Serving(j.off, j.want, j.segs, j.out, true)
    case TakeCached => AfterCacheRead(img, j, p.out)
    case CacheFailed => Failed
    case FinishRead => Served(j.off, j.want, j.out)
    case BeginDedup(off, len, claimed, algo) => Checking(off, len, claimed, algo)
    case CheckDedup =>
      AfterCheck(img, j, if j.off + j.len < 0x1_0000_0000_0000_0000 then CheckOf(Query(s.records, img.id, j.off, j.len))
                         else InvalidRange)
    case LookUpChunk =>
      if j.cs in s.chunks then Recording(j.off, j.len, j.cs) else Fetching(j.off, j.len, j.cs.algo, false)
    case FetchForDedup => Fetching(j.off, j.len, j.algo, true)
    case StoreChunk =>
      if j.Storing? then Recording(j.off, |j.data|, j.cs) else Free
    case StoreFailed => Failed
    case RecordChunk => Free
    case BeginSync(info) => if info.cs.IsValid() && info.len > 0 then Syncing(info, false) else Free
    case FetchForSync => Syncing(j.info, true)
    case BeginGc(_) => Collecting
    case GcDone => Free
    case Rest => Free
    case _ => j
  }

  function NextChunks(s: State, t: Tid, a: Action): map<CheckSum, seq<byte>>
    requires t in s.job && (a.StoreChunk? ==> s.job[t].Storing? || s.job[t].SyncStoring?)
  {
    match a
    case StoreChunk => Put(s.chunks, s.job[t].cs, s.job[t].data)
    case AddChunk(cs, data) => Put(s.chunks, cs, data)
    case Evict(gone) => s.chunks - gone
    case _ => s.chunks
  }

  function NextRecords(img: Image, s: State, t: Tid, a: Action): Records
    requires t in s.job
    requires a.RecordChunk? ==> s.job[t].Recording? && s.job[t].off + s.job[t].len < 0x1_0000_0000_0000_0000
  {
    match a
    case RecordChunk =>
      var j := s.job[t];
      s.records[DedupRange(img.id, j.off, j.off + j.len) := DedupInfo(j.off, j.len, j.cs)]
    case RecordElsewhere(k, v) => s.records[k := v]
    case _ => s.records
  }

  ghost function Next(img: Image, s: State, t: Tid, a: Action): State
    requires Enabled(img, s, t, a)
  {
    State(NextRecords(img, s, t, a), NextChunks(s, t, a), NextCache(img, s, t, a), s.job[t := NextJob(img, s, t, a)])
  }

  // ---- The invariant -------------------------------------------------------------------------------

  /** Index truth: a record names the checksum of the slice of the backend that it covers. */
  ghost predicate IndexTruth(img: Image, records: Records) {
    forall k :: k in records && k.id == img.id ==> TrueInfo(img, records[k])
  }

  /** The store is true of the blob. */
  ghost predicate ChunksTrue(img: Image, chunks: map<CheckSum, seq<byte>>) {
    forall cs :: cs in chunks ==> TrueChunk(img, cs, chunks[cs])
  }

  /** Content addressing: chunk data hashes to its key. */
  ghost predicate ContentAddressed(img: Image, chunks: map<CheckSum, seq<byte>>) {
    forall cs :: cs in chunks ==> img.h.Of(chunks[cs], cs.algo) == cs
  }

  /** The segments still to be served cover `[pos, pos+len)`, and each that names a chunk says
      truly which slice of the backend that chunk is. */
  ghost predicate TrueSegments(img: Image, segs: seq<Segment>, pos: nat, len: nat) {
    if segs == [] then len == 0
    else
      && 0 < segs[0].len <= len
      && (segs[0].info.cs.IsValid() ==>
            TrueInfo(img, segs[0].info) && segs[0].info.off <= pos && pos + segs[0].len <= segs[0].info.End())
      && TrueSegments(img, segs[1..], pos + segs[0].len, len - segs[0].len)
  }

  ghost predicate JobOk(img: Image, j: Job) {
    match j
    case Looking(off, want) => off < |img.b| && want > 0
    case Serving(off, want, segs, out, busy) =>
      && off < |img.b| && want > 0 && off + |out| <= MinOf(off + want, |img.b|)
      && out == img.b[off..off + |out|]
      && TrueSegments(img, segs, off + |out|, MinOf(off + want, |img.b|) - off - |out|)
      && (busy ==> segs != [])
    case Served(off, want, out) =>
      out == if off < |img.b| then img.b[off..MinOf(off + want, |img.b|)] else []
    case Checking(off, len, claimed, _) =>
      off < 0x1_0000_0000_0000_0000 && (claimed.Some? ==> TrueInfo(img, DedupInfo(off, len, claimed.value)))
    case LookingUp(off, len, cs) =>
      off < |img.b| < 0x8000_0000_0000_0000 && 0 < len && off + len < 0x1_0000_0000_0000_0000
      && TrueInfo(img, DedupInfo(off, len, cs))
    case Fetching(off, len, _, _) => off < |img.b| && len > 0
    case Storing(off, data, cs) =>
      |data| < 0x1_0000_0000 && off + |data| <= |img.b|
          && data == img.b[off..off + |data|] && cs == img.h.Of(data, cs.algo)
    case Recording(off, len, cs) => off + len < 0x1_0000_0000_0000_0000 && TrueInfo(img, DedupInfo(off, len, cs))
    case Syncing(info, _) => info.len > 0
    case SyncStoring(off, data, cs) =>
      off + |data| <= |img.b| && data == img.b[off..off + |data|] && cs == img.h.Of(data, cs.algo)
    case _ => true
  }

  /** The cache works for a thread exactly on what its job asks for. */
  ghost predicate Coupled(j: Job, p: C.Pc) {
    if Wanted(j).Some? then CacheReads(p, Wanted(j).value.off, Wanted(j).value.want)
    else if j.Collecting? then CacheInvalidates(p)
    else p.Idle?
  }

  ghost predicate Inv(img: Image, s: State) {
    && img.Good()
    && C.Inv(img.b, s.cache)
    && IndexTruth(img, s.records)
    && ChunksTrue(img, s.chunks)
    && s.job.Keys == s.cache.pc.Keys
    && forall t :: t in s.job ==> JobOk(img, s.job[t]) && Coupled(s.job[t], s.cache.pc[t])
  }

  // ---- Preservation ----------------------------------------------------------------------------------

  lemma {:induction false} TilesAreTrue(img: Image, segs: seq<Segment>, pos: nat, len: nat, records: Records)
    requires IndexTruth(img, records) && Tiles(segs, pos, len, records, img.id)
    ensures TrueSegments(img, segs, pos, len)
  {
    if segs != [] {
      TilesAreTrue(img, segs[1..], pos + segs[0].len, len - segs[0].len, records);
    }
  }

  /** The chunk a true record names holds the slice the record covers. */
  lemma ChunkIsSlice(img: Image, v: DedupInfo, data: seq<byte>)
    requires TrueInfo(img, v) && TrueChunk(img, v.cs, data)
    ensures data == img.b[v.off..MinOf(v.End(), |img.b|)]
  {
  }

  /** A chunk that is there always serves: the reader's "chunk range invalid" never arises. */
  lemma PresentChunkServes(img: Image, s: State, t: Tid)
    requires Inv(img, s) && t in s.job && s.job[t].Serving? && s.job[t].segs != []
    requires var info := s.job[t].segs[0].info; info.cs.IsValid() && info.cs in s.chunks
    ensures var j := s.job[t]; ChunkServes(s.chunks[j.segs[0].info.cs], j.segs[0].info, Pos(j), j.segs[0].len)
  {
    var j := s.job[t];
    assert JobOk(img, j);
    ChunkIsSlice(img, j.segs[0].info, s.chunks[j.segs[0].info.cs]);
  }

  /** Wherever it is cut, a chunk that a true record names gives the backend's bytes. */
  lemma ChunkPiece(img: Image, v: DedupInfo, data: seq<byte>, at: nat, len: nat)
    requires TrueInfo(img, v) && TrueChunk(img, v.cs, data)
    requires v.off <= at && at + len <= v.End() && at + len <= |img.b|
    ensures at - v.off + len <= |data| && data[at - v.off..at - v.off + len] == img.b[at..at + len]
  {
    ChunkIsSlice(img, v, data);
    SliceOfSlice(img.b, v.off, MinOf(v.End(), |img.b|), at - v.off, len);
  }

  lemma NextSegmentTrue(img: Image, j: Job)
    requires j.Serving? && j.segs != [] && JobOk(img, j) && j.segs[0].info.cs.IsValid()
    ensures var info, end := j.segs[0].info, Pos(j) + j.segs[0].len;
            TrueInfo(img, info) && info.off <= Pos(j) && end <= info.End() && end <= |img.b|
  {
  }

  lemma HitServesBackend(img: Image, j: Job, data: seq<byte>)
    requires j.Serving? && j.segs != [] && JobOk(img, j) && j.segs[0].info.cs.IsValid()
    requires TrueChunk(img, j.segs[0].info.cs, data)
    ensures var len, start := j.segs[0].len, Pos(j) - j.segs[0].info.off;
            0 <= start && start + len <= |data| && Pos(j) + len <= |img.b|
            && data[start..start + len] == img.b[Pos(j)..Pos(j) + len]
  {
    NextSegmentTrue(img, j);
    ChunkPiece(img, j.segs[0].info, data, Pos(j), j.segs[0].len);
  }

  /** What a hit adds to the read is the backend's. */
  ghost predicate HitIsSlice(img: Image, j: Job, data: seq<byte>)
    requires j.Serving? && j.segs != [] && ChunkServes(data, j.segs[0].info, Pos(j), j.segs[0].len)
  {
    Pos(j) + j.segs[0].len <= |img.b|
    && AfterHit(j, data).out == j.out + img.b[Pos(j)..Pos(j) + j.segs[0].len]
  }

  lemma AfterHitOk(img: Image, j: Job, data: seq<byte>)
    requires j.Serving? && j.segs != [] && !j.busy && JobOk(img, j)
    requires ChunkServes(data, j.segs[0].info, Pos(j), j.segs[0].len) && HitIsSlice(img, j, data)
    ensures JobOk(img, AfterHit(j, data))
  {
    ServedPieceOk(img, j, img.b[Pos(j)..Pos(j) + j.segs[0].len]);
  }

  lemma HitTakesSlice(img: Image, j: Job, data: seq<byte>)
    requires j.Serving? && j.segs != [] && JobOk(img, j) && j.segs[0].info.cs.IsValid()
    requires TrueChunk(img, j.segs[0].info.cs, data) && ChunkServes(data, j.segs[0].info, Pos(j), j.segs[0].len)
    ensures HitIsSlice(img, j, data)
  {
    HitServesBackend(img, j, data);
  }

  lemma HitOk(img: Image, s: State, t: Tid)
    requires t in s.job && JobOk(img, s.job[t]) && Enabled(img, s, t, Hit)
    requires HitIsSlice(img, s.job[t], s.chunks[s.job[t].segs[0].info.cs])
    ensures JobOk(img, NextJob(img, s, t, Hit))
  {
    AfterHitOk(img, s.job[t], s.chunks[s.job[t].segs[0].info.cs]);
  }

  /** A finished cache read holds what the job asked for. */
  lemma CachedIsSlice(img: Image, s: State, t: Tid)
    requires Inv(img, s) && Enabled(img, s, t, TakeCached)
    ensures var r, out := Wanted(s.job[t]).value, s.cache.pc[t].out;
            r.want > 0 && r.off < |img.b| && out == img.b[r.off..MinOf(r.off + r.want, |img.b|)]
  {
    var j, p := s.job[t], s.cache.pc[t];
    assert JobOk(img, j) && Coupled(j, p);
    assert C.PcOk(img.b, s.cache.sh, t, p);
  }

  /** Whatever job the cache has read for, goes on soundly. */
  lemma CachedOk(img: Image, s: State, t: Tid)
    requires Inv(img, s) && Enabled(img, s, t, TakeCached)
    ensures JobOk(img, NextJob(img, s, t, TakeCached))
  {
    var j, out := s.job[t], s.cache.pc[t].out;
    assert JobOk(img, j);
    CachedIsSlice(img, s, t);
    if j.Serving? {
      ServedPieceOk(img, j, out);
    }
  }

  lemma ServedPieceOk(img: Image, j: Job, out: seq<byte>)
    requires JobOk(img, j) && j.Serving? && j.segs != []
    requires Pos(j) + j.segs[0].len <= |img.b| && out == img.b[Pos(j)..Pos(j) + j.segs[0].len]
    ensures JobOk(img, j.(segs := j.segs[1..], out := j.out + out, busy := false))
  {
    var pos := Pos(j);
    assert img.b[j.off..pos] + img.b[pos..pos + |out|] == img.b[j.off..pos + |out|];
  }

  lemma QuerySegmentsTrue(img: Image, records: Records, off: nat, len: nat)
    requires IndexTruth(img, records) && off + len < 0x8000_0000_0000_0000
    ensures TrueSegments(img, Query(records, img.id, off, len), off, len)
  {
    QueryTiles(records, img.id, off, len);
    TilesAreTrue(img, Query(records, img.id, off, len), off, len, records);
  }

  lemma SegmentsOk(img: Image, s: State, t: Tid)
    requires t in s.job && JobOk(img, s.job[t]) && IndexTruth(img, s.records) && Enabled(img, s, t, TakeSegments)
    ensures JobOk(img, NextJob(img, s, t, TakeSegments))
  {
    var j := s.job[t];
    QuerySegmentsTrue(img, s.records, j.off, MinOf(j.want, |img.b| - j.off));
    assert img.b[j.off..j.off + 0] == [];
  }

  lemma GapOk(img: Image, s: State, t: Tid)
    requires Inv(img, s) && Enabled(img, s, t, RangeError)
    ensures JobOk(img, NextJob(img, s, t, RangeError))
  {
    var j := s.job[t];
    assert JobOk(img, j);
    var j' := NextJob(img, s, t, RangeError);
    assert j'.segs[1..] == [] && img.b[j.off..j.off + 0] == [];
  }

  lemma SlicesAreTrue(img: Image, off: nat, data: seq<byte>, cs: CheckSum)
    requires img.Good() && off + |data| <= |img.b| && data == img.b[off..off + |data|]
    requires cs == img.h.Of(data, cs.algo)
    ensures TrueChunk(img, cs, data)
  {
    assert NoCollision(img.h, img.b[off..off + |data|], img.b);
    CheckedIsTrue(img, cs, data);
  }

  lemma PutKeepsTrue(img: Image, chunks: map<CheckSum, seq<byte>>, cs: CheckSum, data: seq<byte>)
    requires ChunksTrue(img, chunks) && TrueChunk(img, cs, data)
    ensures ChunksTrue(img, Put(chunks, cs, data))
  {
  }

  lemma StoredChunkOk(img: Image, s: State, t: Tid)
    requires t in s.job && JobOk(img, s.job[t]) && img.Good() && ChunksTrue(img, s.chunks)
    requires s.job[t].Storing? || s.job[t].SyncStoring?
    ensures ChunksTrue(img, NextChunks(s, t, StoreChunk))
  {
    var j := s.job[t];
    SlicesAreTrue(img, j.off, j.data, j.cs);
    PutKeepsTrue(img, s.chunks, j.cs, j.data);
  }

  lemma StoredOk(img: Image, s: State, t: Tid)
    requires t in s.job && JobOk(img, s.job[t]) && Enabled(img, s, t, StoreChunk) && |img.b| < 0x8000_0000_0000_0000
    ensures JobOk(img, NextJob(img, s, t, StoreChunk))
  {
  }

  lemma DedupJobOk(img: Image, s: State, t: Tid, a: Action)
    requires t in s.job && JobOk(img, s.job[t]) && |img.b| < 0x8000_0000_0000_0000 && Enabled(img, s, t, a)
    requires a.BeginDedup? || a.CheckDedup? || a.LookUpChunk? || a.FetchForDedup?
    ensures JobOk(img, NextJob(img, s, t, a))
  {
  }

  lemma OtherJobOk(img: Image, s: State, t: Tid, a: Action)
    requires t in s.job && JobOk(img, s.job[t]) && Enabled(img, s, t, a)
    requires !a.Hit? && !a.TakeCached? && !a.TakeSegments? && !a.RangeError? && !a.StoreChunk?
    requires !a.BeginDedup? && !a.CheckDedup? && !a.LookUpChunk? && !a.FetchForDedup?
    ensures JobOk(img, NextJob(img, s, t, a))
  {
  }

  lemma JobKept(img: Image, s: State, t: Tid, a: Action)
    requires Inv(img, s) && Enabled(img, s, t, a)
    ensures JobOk(img, NextJob(img, s, t, a))
  {
    assert JobOk(img, s.job[t]);
    if a.Hit? {
      HitTakesSlice(img, s.job[t], s.chunks[s.job[t].segs[0].info.cs]);
      HitOk(img, s, t);
    }
    else if a.TakeCached? { CachedOk(img, s, t); }
    else if a.TakeSegments? { SegmentsOk(img, s, t); }
    else if a.RangeError? { GapOk(img, s, t); }
    else if a.StoreChunk? { StoredOk(img, s, t); }
    else if a.BeginDedup? || a.CheckDedup? || a.LookUpChunk? || a.FetchForDedup? { DedupJobOk(img, s, t, a); }
    else { OtherJobOk(img, s, t, a); }
  }

  lemma CacheStepEnabled(img: Image, s: State, t: Tid, a: Action)
    requires Enabled(img, s, t, a) && CacheStep(s.job[t], a).Some?
    ensures C.Enabled(img.b, s.cache, t, CacheStep(s.job[t], a).value)
  {
  }

  lemma CacheKept(img: Image, s: State, t: Tid, a: Action)
    requires Inv(img, s) && Enabled(img, s, t, a)
    ensures C.Inv(img.b, NextCache(img, s, t, a))
  {
    if CacheStep(s.job[t], a).Some? {
      CacheStepEnabled(img, s, t, a);
      C.StepKeepsInv(img.b, s.cache, t, CacheStep(s.job[t], a).value);
    }
  }

  /** Where thread `t` is in its cache operation after the action. */
  ghost function NextCachePc(img: Image, s: State, t: Tid, a: Action): C.Pc
    requires Enabled(img, s, t, a)
  {
    match CacheStep(s.job[t], a)
    case Some(ca) => C.NextPc(img.b, s.cache, t, ca)
    case None => s.cache.pc[t]
  }

  lemma OnlyOwnPcMoves(img: Image, s: State, t: Tid, a: Action)
    requires Enabled(img, s, t, a)
    ensures NextCache(img, s, t, a).pc == s.cache.pc[t := NextCachePc(img, s, t, a)]
  {
    assert s.cache.pc[t := s.cache.pc[t]] == s.cache.pc;
  }

  /** A step of the cache operation serves the same request as before. */
  lemma TickKeepsRequest(img: Image, s: State, t: Tid, ca: C.Action)
    requires t in s.job && t in s.cache.pc && Coupled(s.job[t], s.cache.pc[t]) && Enabled(img, s, t, Tick(ca))
    ensures Coupled(s.job[t], C.NextPc(img.b, s.cache, t, ca))
  {
  }

  lemma StartCouples(img: Image, s: State, t: Tid, a: Action)
    requires t in s.job && t in s.cache.pc && Coupled(s.job[t], s.cache.pc[t]) && Enabled(img, s, t, a)
    requires a.FallBack? || a.FetchForDedup? || a.FetchForSync? || a.BeginGc?
    ensures Coupled(NextJob(img, s, t, a), NextCachePc(img, s, t, a))
  {
  }

  lemma ReturnCouples(img: Image, s: State, t: Tid, a: Action)
    requires t in s.job && t in s.cache.pc && Coupled(s.job[t], s.cache.pc[t]) && Enabled(img, s, t, a)
    requires a.TakeCached? || a.CacheFailed? || a.GcDone?
    ensures Coupled(NextJob(img, s, t, a), NextCachePc(img, s, t, a))
  {
  }

  lemma RestCouples(img: Image, s: State, t: Tid, a: Action)
    requires t in s.job && t in s.cache.pc && Coupled(s.job[t], s.cache.pc[t]) && Enabled(img, s, t, a)
    requires CacheStep(s.job[t], a).None?
    ensures Coupled(NextJob(img, s, t, a), s.cache.pc[t])
  {
    var j, j' := s.job[t], NextJob(img, s, t, a);
    assert Coupled(j, s.cache.pc[t]);
    if j' != j {
      assert Wanted(j).None? && !j.Collecting?;
      assert Wanted(j').None? && !j'.Collecting?;
    }
  }

  lemma CouplingKept(img: Image, s: State, t: Tid, a: Action)
    requires Inv(img, s) && Enabled(img, s, t, a)
    ensures Coupled(NextJob(img, s, t, a), NextCachePc(img, s, t, a))
  {
    assert JobOk(img, s.job[t]) && Coupled(s.job[t], s.cache.pc[t]);
    if a.Tick? { TickKeepsRequest(img, s, t, a.a); }
    else if a.FallBack? || a.FetchForDedup? || a.FetchForSync? || a.BeginGc? { StartCouples(img, s, t, a); }
    else if a.TakeCached? || a.CacheFailed? || a.GcDone? { ReturnCouples(img, s, t, a); }
    else { RestCouples(img, s, t, a); }
  }

  lemma StoresKept(img: Image, s: State, t: Tid, a: Action)
    requires Inv(img, s) && Enabled(img, s, t, a)
    ensures IndexTruth(img, NextRecords(img, s, t, a))
    ensures ChunksTrue(img, NextChunks(s, t, a))
  {
    assert JobOk(img, s.job[t]);
    if a.StoreChunk? { StoredChunkOk(img, s, t); }
  }

  lemma StepKeepsInv(img: Image, s: State, t: Tid, a: Action)
    requires Inv(img, s) && Enabled(img, s, t, a)
    ensures Inv(img, Next(img, s, t, a))
  {
    JobKept(img, s, t, a);
    CacheKept(img, s, t, a);
    CouplingKept(img, s, t, a);
    OnlyOwnPcMoves(img, s, t, a);
    StoresKept(img, s, t, a);
  }

  // ---- Runs ------------------------------------------------------------------------------------------

  datatype Step = Step(t: Tid, a: Action)

  ghost predicate Init(img: Image, s: State) {
    && img.Good() && C.Init(img.b, s.cache)
    && IndexTruth(img, s.records) && ChunksTrue(img, s.chunks)
    && s.job.Keys == s.cache.pc.Keys && forall t :: t in s.job ==> s.job[t].Free?
  }

  ghost predicate Reaches(img: Image, s: State, steps: seq<Step>, s': State)
    decreases |steps|
  {
    if steps == [] then s' == s
    else Enabled(img, s, steps[0].t, steps[0].a)
         && Reaches(img, Next(img, s, steps[0].t, steps[0].a), steps[1..], s')
  }

  lemma {:induction false} RunKeepsInv(img: Image, s: State, steps: seq<Step>, s': State)
    requires Inv(img, s) && Reaches(img, s, steps, s')
    ensures Inv(img, s')
    decreases |steps|
  {
    if steps != [] {
      StepKeepsInv(img, s, steps[0].t, steps[0].a);
      RunKeepsInv(img, Next(img, s, steps[0].t, steps[0].a), steps[1..], s');
    }
  }

  /** Read transparency: in every run, however reads, deduplication, synchronisation, collection,
      eviction and additions interleave, a read that has succeeded holds the backend's bytes. */
  lemma ReadTransparency(img: Image, s: State, steps: seq<Step>, s': State, t: Tid)
    requires Init(img, s) && Reaches(img, s, steps, s') && t in s'.job && s'.job[t].Served?
    ensures var j := s'.job[t];
            j.out == if j.off < |img.b| then img.b[j.off..MinOf(j.off + j.want, |img.b|)] else []
  {
    assert JobOk(img, s'.job[t]) by {
      RunKeepsInv(img, s, steps, s');
    }
  }

  /** The two stores stay true to the backend throughout. */
  lemma StoresStayTrue(img: Image, s: State, steps: seq<Step>, s': State)
    requires Init(img, s) && Reaches(img, s, steps, s')
    ensures forall k :: k in s'.records && k.id == img.id ==> TrueInfo(img, s'.records[k])
    ensures forall cs :: cs in s'.chunks ==> TrueChunk(img, cs, s'.chunks[cs])
    ensures forall k :: k in s'.records && k.id == img.id && s'.records[k].cs in s'.chunks ==>
              var v := s'.records[k]; v.off <= |img.b| && s'.chunks[v.cs] == img.b[v.off..MinOf(v.End(), |img.b|)]
  {
    RunKeepsInv(img, s, steps, s');
    forall k | k in s'.records && k.id == img.id && s'.records[k].cs in s'.chunks
      ensures var v := s'.records[k]; v.off <= |img.b| && s'.chunks[v.cs] == img.b[v.off..MinOf(v.End(), |img.b|)]
    {
      ChunkIsSlice(img, s'.records[k], s'.chunks[s'.records[k].cs]);
    }
  }

  /** A chunk is written once: no step changes the data of a chunk that stays. */
  lemma ChunksNeverOverwritten(img: Image, s: State, t: Tid, a: Action, cs: CheckSum)
    requires Enabled(img, s, t, a) && cs in s.chunks && cs in Next(img, s, t, a).chunks
    ensures Next(img, s, t, a).chunks[cs] == s.chunks[cs]
  {
  }

  /** Nor does the background work ever undo a read under way: what a thread has read so far, it
      keeps, whatever the other threads do. */
  lemma ReadsOnlyGrow(img: Image, s: State, t: Tid, a: Action, u: Tid)
    requires Inv(img, s) && Enabled(img, s, t, a) && u in s.job && s.job[u].Serving?
    ensures var j' := Next(img, s, t, a).job[u];
            j' == Failed || ((j'.Serving? || j'.Served?) && s.job[u].out <= j'.out && j'.off == s.job[u].off)
  {
    assert JobOk(img, s.job[u]) && Coupled(s.job[u], s.cache.pc[u]);
  }

  /** Every chunk added from elsewhere in the run has been checked against its checksum. */
  predicate AddsChecked(img: Image, steps: seq<Step>) {
    forall i :: 0 <= i < |steps| && steps[i].a.AddChunk? ==>
        img.h.Of(steps[i].a.data, steps[i].a.cs.algo) == steps[i].a.cs
  }

  lemma StepKeepsHashes(img: Image, s: State, t: Tid, a: Action)
    requires Inv(img, s) && Enabled(img, s, t, a) && ContentAddressed(img, s.chunks)
    requires a.AddChunk? ==> img.h.Of(a.data, a.cs.algo) == a.cs
    ensures ContentAddressed(img, Next(img, s, t, a).chunks)
  {
    assert JobOk(img, s.job[t]);
  }

  /** Content addressing: if all that is added from elsewhere is checked, chunk data hashes to its key in
      every state of every run. */
  lemma {:induction false} ChunksHashToKeys(img: Image, s: State, steps: seq<Step>, s': State)
    requires Inv(img, s) && Reaches(img, s, steps, s') && ContentAddressed(img, s.chunks) && AddsChecked(img, steps)
    ensures ContentAddressed(img, s'.chunks)
    decreases |steps|
  {
    if steps != [] {
      var t, a := steps[0].t, steps[0].a;
      StepKeepsInv(img, s, t, a);
      StepKeepsHashes(img, s, t, a);
      ChunksHashToKeys(img, Next(img, s, t, a), steps[1..], s');
    }
  }
}
