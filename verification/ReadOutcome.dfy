/** How the operations of the read path end: in every run, with what was asked for, or in a failure that has
    a cause of its own. */
module ReadOutcome {
  import opened Basics
  import opened Bytes
  import opened CheckSums
  import opened DedupQuery
  import opened IndexDb
  import opened ReadPath
  import C = CacheProtocol
  import D = Dedup

  // ---- What has happened to a thread -----------------------------------------------------------------------

  /** What a thread has begun, if that is not over; whether a fetch or a wait of it has failed since, or it
      has been refused; whether it has looked in vain for a chunk that was claimed; and the history of its
      cache operation. */
  datatype Past = Past(begun: Option<Action>, failed: bool, refused: bool, missed: bool, cache: C.History)

  const NOTHING_BEGUN: Past := Past(None, false, false, false, C.NOTHING_ASKED)

  /** A request to deduplicate for which nothing is to be done. */
  ghost predicate NothingToDo(img: Image, s: State, j: Job)
    requires j.Checking?
  {
    j.len == 0 || (WellPlaced(img, j) && CheckOf(Query(s.records, img.id, j.off, j.len)) == Duplicate)
  }

  /** It starts within the blob, at a chunk, and is of whole chunks or reaches the end. */
  predicate WellPlaced(img: Image, j: Job)
    requires j.Checking?
  {
    j.off < |img.b| < 0x8000_0000_0000_0000 && j.off % CHUNK_SIZE == 0
    && (j.len % CHUNK_SIZE == 0 || j.off + j.len >= |img.b|)
  }

  ghost predicate Refused(img: Image, s: State, j: Job)
    requires j.Checking?
  {
    j.len > 0 && (!WellPlaced(img, j) || CheckOf(Query(s.records, img.id, j.off, j.len)) == InvalidRange)
  }

  /** A record whose bytes are not what its checksum says. */
  predicate NotItsBytes(img: Image, info: DedupInfo) {
    info.off >= |img.b| || info.End() > |img.b| || img.h.Of(img.b[info.off..info.End()], info.cs.algo) != info.cs
  }

  /** The thread's operation is refused by this step. */
  ghost predicate Refuses(img: Image, s: State, j: Job, a: Action) {
    match a
    case StoreFailed => true
    case CheckDedup => j.Checking? && Refused(img, s, j)
    case TakeCached => j.Syncing? && NotItsBytes(img, j.info)
    case CacheFailed => j.Syncing? && NotItsBytes(img, j.info)
    case _ => false
  }

  /** The thread's operation is over with this step. */
  ghost predicate Ends(img: Image, s: State, j: Job, a: Action) {
    match a
    case Rest => true
    case GcDone => true
    case RecordChunk => true
    case StoreChunk => j.SyncStoring?
    case CheckDedup => j.Checking? && NothingToDo(img, s, j)
    case BeginSync(info) => !info.cs.IsValid() || info.len == 0
    case _ => false
  }

  predicate Begins(a: Action) {
    a.BeginRead? || a.BeginDedup? || a.BeginSync? || a.BeginGc?
  }

  /** The thread's own past after a step of it. */
  ghost function After(img: Image, s: State, t: Tid, a: Action, h: Past): Past
    requires t in s.job
  {
    var j := s.job[t];
    var cache := match CacheStep(j, a) case Some(ca) => C.After(h.cache, ca) case None => h.cache;
    if Ends(img, s, j, a) then NOTHING_BEGUN
    else if Begins(a) then Past(Some(a), false, false, false, cache)
    else
      var failed := a.Tick? && (a.a.FetchErr? || a.a.TimeOut?);
      var missed := a.LookUpChunk? && j.LookingUp? && j.cs !in s.chunks;
      Past(h.begun, h.failed || failed, h.refused || Refuses(img, s, j, a), h.missed || missed, cache)
  }

  ghost function PastOf(img: Image, s: State, steps: seq<Step>, t: Tid, h: Past): Past
    decreases |steps|
  {
    if steps == [] || !Enabled(img, s, steps[0].t, steps[0].a) then h
    else
      var h' := if steps[0].t == t then After(img, s, t, steps[0].a, h) else h;
      PastOf(img, Next(img, s, steps[0].t, steps[0].a), steps[1..], t, h')
  }

  // ---- What follows from it --------------------------------------------------------------------------------

  /** Nothing has gone wrong since. */
  predicate Clean(h: Past) {
    h.begun.Some? && !h.failed && !h.refused && h.cache == C.NOTHING_ASKED
  }

  /** It has gone wrong exactly if the cache operation under way has. */
  predicate AsCache(h: Past, busy: bool) {
    h.begun.Some? && !h.refused && h.failed == (busy && h.cache.failed) && (!busy ==> h.cache == C.NOTHING_ASKED)
  }

  /** The method by which a request to deduplicate is hashed. */
  function MethodOf(a: Action): HashMethod
    requires a.BeginDedup?
  {
    if a.claimed.Some? then a.claimed.value.algo else a.algo
  }

  ghost predicate Reads(h: Past, off: nat, want: nat) {
    h.begun == Some(BeginRead(off, want))
  }

  ghost predicate Dedups(h: Past, off: nat, len: u32) {
    h.begun.Some? && h.begun.value.BeginDedup? && h.begun.value.off == off && h.begun.value.len == len
  }

  /** `len` bytes from `off` are recorded under `cs`: all that was claimed, or what there is of it. */
  ghost predicate Records(img: Image, h: Past, off: nat, len: nat, cs: CheckSum) {
    && h.begun.Some? && h.begun.value.BeginDedup? && h.begun.value.off == off && off < |img.b|
    && var asked := h.begun.value;
       if asked.claimed == Some(cs) && asked.len == len then true
       else len == MinOf(off + asked.len, |img.b|) - off && cs == img.h.Of(img.b[off..off + len], MethodOf(asked))
  }

  ghost predicate Follows(img: Image, h: Past, j: Job) {
    match j
    case Free => h == NOTHING_BEGUN
    case Looking(off, want) => Clean(h) && Reads(h, off, want)
    case Serving(off, want, _, _, busy) => AsCache(h, busy) && Reads(h, off, want)
    case Served(off, want, _) => Clean(h) && Reads(h, off, want)
    case Failed =>
      && h.begun.Some? && h.cache == C.NOTHING_ASKED && (h.failed || h.refused)
      && (h.begun.value.BeginRead? ==> h.failed && !h.refused)
    case Checking(off, len, claimed, algo) => Clean(h) && h.begun == Some(BeginDedup(off, len, claimed, algo))
    case LookingUp(off, len, cs) => Clean(h) && Dedups(h, off, len) && h.begun.value.claimed == Some(cs)
    case Fetching(off, len, algo, busy) =>
      && AsCache(h, busy) && Dedups(h, off, len) && algo == MethodOf(h.begun.value)
      && (h.begun.value.claimed.Some? ==> h.missed)
    case Storing(off, data, cs) => Clean(h) && Records(img, h, off, |data|, cs)
    case Recording(off, len, cs) => Clean(h) && Records(img, h, off, len, cs)
    case Syncing(info, busy) => AsCache(h, busy) && h.begun == Some(BeginSync(info))
    case SyncStoring(off, data, cs) =>
      && Clean(h) && h.begun.value.BeginSync?
      && var info := h.begun.value.info; info.off == off && info.cs == cs && info.len == |data|
    case Collecting =>
      && h.begun.Some? && !h.failed && !h.refused && h.begun.value.BeginGc?
      && h.cache.asked == Some(C.StartInvalidate(h.begun.value.chunk))
  }

  /** A thread's past says where it is, in its operation and in the cache. */
  ghost predicate Told(img: Image, s: State, t: Tid, h: Past) {
    t in s.job && t in s.cache.pc && Follows(img, h, s.job[t]) && C.Follows(img.b, h.cache, s.cache.pc[t])
    && AsksCache(h, s.job[t])
  }

  /** The cache has been asked for what the job wants of it. */
  predicate AsksCache(h: Past, j: Job) {
    Wanted(j).Some? ==> h.cache.asked == Some(C.StartRead(Wanted(j).value.off, Wanted(j).value.want))
  }

  // ---- Preservation -----------------------------------------------------------------------------------------

  lemma CacheFollows(img: Image, s: State, t: Tid, a: Action, h: Past)
    requires Enabled(img, s, t, a) && C.Follows(img.b, h.cache, s.cache.pc[t])
    ensures var cache := match CacheStep(s.job[t], a) case Some(ca) => C.After(h.cache, ca) case None => h.cache;
            C.Follows(img.b, cache, NextCachePc(img, s, t, a))
  {
    if CacheStep(s.job[t], a).Some? {
      CacheStepEnabled(img, s, t, a);
      C.StepFollows(img.b, s.cache, t, CacheStep(s.job[t], a).value, h.cache);
    }
  }

  lemma TickFollows(img: Image, s: State, t: Tid, a: Action, h: Past)
    requires Enabled(img, s, t, a) && Told(img, s, t, h) && a.Tick? && Coupled(s.job[t], s.cache.pc[t])
    ensures Follows(img, After(img, s, t, a, h), NextJob(img, s, t, a))
  {
  }

  lemma StartFollows(img: Image, s: State, t: Tid, a: Action, h: Past)
    requires Enabled(img, s, t, a) && Told(img, s, t, h)
    requires a.FallBack? || a.FetchForDedup? || a.FetchForSync? || a.BeginGc?
    ensures Follows(img, After(img, s, t, a, h), NextJob(img, s, t, a))
  {
  }

  lemma FailureFollows(img: Image, s: State, t: Tid, h: Past)
    requires Enabled(img, s, t, CacheFailed) && Told(img, s, t, h) && Coupled(s.job[t], s.cache.pc[t])
    requires JobOk(img, s.job[t]) && img.Good()
    ensures Follows(img, After(img, s, t, CacheFailed, h), NextJob(img, s, t, CacheFailed))
  {
  }

  lemma TakenFollows(img: Image, s: State, t: Tid, h: Past)
    requires Enabled(img, s, t, TakeCached) && Told(img, s, t, h) && JobOk(img, s.job[t])
    requires var r, out := Wanted(s.job[t]).value, s.cache.pc[t].out;
             r.want > 0 && r.off < |img.b| && out == img.b[r.off..MinOf(r.off + r.want, |img.b|)]
    ensures Follows(img, After(img, s, t, TakeCached, h), NextJob(img, s, t, TakeCached))
  {
  }

  lemma CheckFollows(img: Image, s: State, t: Tid, h: Past)
    requires Enabled(img, s, t, CheckDedup) && Told(img, s, t, h) && |img.b| < 0x8000_0000_0000_0000
    ensures Follows(img, After(img, s, t, CheckDedup, h), NextJob(img, s, t, CheckDedup))
  {
  }

  lemma StoreFollows(img: Image, s: State, t: Tid, a: Action, h: Past)
    requires Enabled(img, s, t, a) && Told(img, s, t, h) && JobOk(img, s.job[t])
    requires a.LookUpChunk? || a.StoreChunk? || a.StoreFailed? || a.RecordChunk?
    ensures Follows(img, After(img, s, t, a, h), NextJob(img, s, t, a))
  {
  }

  lemma RestFollows(img: Image, s: State, t: Tid, a: Action, h: Past)
    requires Enabled(img, s, t, a) && Told(img, s, t, h) && Coupled(s.job[t], s.cache.pc[t])
    requires a.BeginRead? || a.TakeSegments? || a.RangeError? || a.Hit? || a.FinishRead? || a.Rest? || a.GcDone?
             || a.BeginDedup? || a.BeginSync? || a.AddChunk? || a.Evict? || a.RecordElsewhere?
    ensures Follows(img, After(img, s, t, a, h), NextJob(img, s, t, a))
  {
  }

  lemma JobFollows(img: Image, s: State, t: Tid, a: Action, h: Past)
    requires Inv(img, s) && Enabled(img, s, t, a) && Told(img, s, t, h)
    ensures Follows(img, After(img, s, t, a, h), NextJob(img, s, t, a))
  {
    assert JobOk(img, s.job[t]) && Coupled(s.job[t], s.cache.pc[t]);
    if a.Tick? { TickFollows(img, s, t, a, h); }
    else if a.FallBack? || a.FetchForDedup? || a.FetchForSync? || a.BeginGc? { StartFollows(img, s, t, a, h); }
    else if a.CacheFailed? { FailureFollows(img, s, t, h); }
    else if a.TakeCached? {
      CachedIsSlice(img, s, t);
      TakenFollows(img, s, t, h);
    }
    else if a.CheckDedup? { CheckFollows(img, s, t, h); }
    else if a.LookUpChunk? || a.StoreChunk? || a.StoreFailed? || a.RecordChunk? { StoreFollows(img, s, t, a, h); }
    else { RestFollows(img, s, t, a, h); }
  }

  lemma AsksStill(img: Image, s: State, t: Tid, a: Action, h: Past)
    requires Enabled(img, s, t, a) && Told(img, s, t, h) && Coupled(s.job[t], s.cache.pc[t])
    ensures AsksCache(After(img, s, t, a, h), NextJob(img, s, t, a))
  {
    if a.FallBack? || a.FetchForDedup? || a.FetchForSync? || a.BeginGc? {
      AsksNow(img, s, t, a, h);
    } else if !a.Tick? {
      AsksNoMore(img, s, t, a);
    }
  }

  lemma AsksNow(img: Image, s: State, t: Tid, a: Action, h: Past)
    requires Enabled(img, s, t, a) && Told(img, s, t, h)
    requires a.FallBack? || a.FetchForDedup? || a.FetchForSync? || a.BeginGc?
    ensures AsksCache(After(img, s, t, a, h), NextJob(img, s, t, a))
  {
  }

  lemma AsksNoMore(img: Image, s: State, t: Tid, a: Action)
    requires Enabled(img, s, t, a) && Coupled(s.job[t], s.cache.pc[t])
    requires !a.Tick? && !a.FallBack? && !a.FetchForDedup? && !a.FetchForSync? && !a.BeginGc?
    ensures Wanted(NextJob(img, s, t, a)).None? || NextJob(img, s, t, a) == s.job[t]
  {
  }

  lemma StepFollows(img: Image, s: State, t: Tid, a: Action, h: Past)
    requires Inv(img, s) && Enabled(img, s, t, a) && Told(img, s, t, h)
    ensures Told(img, Next(img, s, t, a), t, After(img, s, t, a, h))
  {
    assert Coupled(s.job[t], s.cache.pc[t]);
    JobFollows(img, s, t, a, h);
    AsksStill(img, s, t, a, h);
    CacheFollows(img, s, t, a, h);
    OnlyOwnPcMoves(img, s, t, a);
    AfterCache(img, s, t, a, h);
  }

  lemma AfterCache(img: Image, s: State, t: Tid, a: Action, h: Past)
    requires Enabled(img, s, t, a) && Told(img, s, t, h) && Coupled(s.job[t], s.cache.pc[t])
    ensures var cache := match CacheStep(s.job[t], a) case Some(ca) => C.After(h.cache, ca) case None => h.cache;
            After(img, s, t, a, h).cache == cache
  {
  }

  lemma {:induction false} RunFollows(img: Image, s: State, steps: seq<Step>, s': State, t: Tid, h: Past)
    requires Inv(img, s) && Reaches(img, s, steps, s') && Told(img, s, t, h)
    ensures Told(img, s', t, PastOf(img, s, steps, t, h))
    decreases |steps|
  {
    if steps != [] {
      var u, a := steps[0].t, steps[0].a;
      StepKeepsInv(img, s, u, a);
      OnlyOwnPcMoves(img, s, u, a);
      if u == t {
        StepFollows(img, s, t, a, h);
      }
      RunFollows(img, Next(img, s, u, a), steps[1..], s', t, if u == t then After(img, s, t, a, h) else h);
    }
  }

  lemma InitTold(img: Image, s: State, t: Tid)
    requires Init(img, s) && t in s.job
    ensures Inv(img, s) && Told(img, s, t, NOTHING_BEGUN)
  {
  }

  // ---- Over every run ----------------------------------------------------------------------------------------

  /** How an operation ends, in every run, whatever the other threads do. A thread is free exactly if what it
      began is over. A read that is served is the one that was begun, and none of its fetches or waits has
      failed; one that fails has had a fetch or a wait of its own fail. Any other operation that fails has had
      that, or has been refused. */
  lemma Outcome(img: Image, s: State, steps: seq<Step>, s': State, t: Tid)
    requires Init(img, s) && Reaches(img, s, steps, s') && t in s.job
    ensures t in s'.job
    ensures var h, j := PastOf(img, s, steps, t, NOTHING_BEGUN), s'.job[t];
            && (j.Free? <==> h.begun.None?)
            && (j.Served? ==> h.begun == Some(BeginRead(j.off, j.want)) && !h.failed)
            && (j.Failed? ==> h.begun.Some? && (h.failed || (h.refused && !h.begun.value.BeginRead?)))
  {
    InitTold(img, s, t);
    RunFollows(img, s, steps, s', t, NOTHING_BEGUN);
  }

  /** In particular a read none of whose fetches or waits has failed has not failed. */
  lemma SoundReadSucceeds(img: Image, s: State, steps: seq<Step>, s': State, t: Tid)
    requires Init(img, s) && Reaches(img, s, steps, s') && t in s.job
    requires var h := PastOf(img, s, steps, t, NOTHING_BEGUN); h.begun.Some? && h.begun.value.BeginRead? && !h.failed
    ensures t in s'.job && (s'.job[t].Looking? || s'.job[t].Serving? || s'.job[t].Served?)
  {
    InitTold(img, s, t);
    RunFollows(img, s, steps, s', t, NOTHING_BEGUN);
  }

  /** A request to deduplicate that comes to its end records the range asked for, clipped at the end of the
      blob, under the checksum of its bytes, or all of it under the checksum that was claimed; and changes no
      other record. */
  lemma RecordsAsked(img: Image, s: State, steps: seq<Step>, s': State, t: Tid)
    requires Init(img, s) && Reaches(img, s, steps, s') && t in s.job && Enabled(img, s', t, RecordChunk)
    ensures var h, j := PastOf(img, s, steps, t, NOTHING_BEGUN), s'.job[t];
            && h.begun.Some? && h.begun.value.BeginDedup? && h.begun.value.off == j.off < |img.b|
            && var asked, records := h.begun.value, Next(img, s', t, RecordChunk).records;
               && ((asked.claimed == Some(j.cs) && j.len == asked.len)
                   || (j.len == MinOf(j.off + asked.len, |img.b|) - j.off
                       && j.cs == img.h.Of(img.b[j.off..j.off + j.len], MethodOf(asked))))
               && var key := DedupRange(img.id, j.off, j.off + j.len);
                  key in records && records[key] == DedupInfo(j.off, j.len, j.cs)
                  && forall k :: k != key ==> (k in records <==> k in s'.records)
                                              && (k in records ==> records[k] == s'.records[k])
  {
    var h := PastOf(img, s, steps, t, NOTHING_BEGUN);
    assert Follows(img, h, s'.job[t]) by {
      InitTold(img, s, t);
      RunFollows(img, s, steps, s', t, NOTHING_BEGUN);
    }
    OneRecord(img, s', t);
  }

  lemma OneRecord(img: Image, s: State, t: Tid)
    requires Enabled(img, s, t, RecordChunk)
    ensures var j, records := s.job[t], Next(img, s, t, RecordChunk).records;
            var key := DedupRange(img.id, j.off, j.off + j.len);
            && key in records && records[key] == DedupInfo(j.off, j.len, j.cs)
            && forall k :: k != key ==>
                 (k in records <==> k in s.records) && (k in records ==> records[k] == s.records[k])
  {
  }

  /** A request that claims a checksum fetches its range only if it has looked for that chunk in vain. */
  lemma FetchesOnlyMissing(img: Image, s: State, steps: seq<Step>, s': State, t: Tid)
    requires Init(img, s) && Reaches(img, s, steps, s') && t in s.job && t in s'.job && s'.job[t].Fetching?
    ensures var h := PastOf(img, s, steps, t, NOTHING_BEGUN);
            h.begun.Some? && h.begun.value.BeginDedup? && (h.begun.value.claimed.Some? ==> h.missed)
  {
    InitTold(img, s, t);
    RunFollows(img, s, steps, s', t, NOTHING_BEGUN);
  }

  /** A read offers itself all that is recorded: byte `p` of its range is to come from a stored chunk iff all
      chunks of the blob from the start of the read up to that byte's are recorded, and the read does not start
      at the last byte of one; and a chunk that is there is used. */
  lemma ReadsOfferStored(img: Image, s: State, t: Tid, p: nat)
    requires Inv(img, s) && Enabled(img, s, t, TakeSegments) && ChunkShaped(s.records, img.id, |img.b|)
    requires s.job[t].off <= p < MinOf(s.job[t].off + s.job[t].want, |img.b|)
    ensures var off, j' := s.job[t].off, NextJob(img, s, t, TakeSegments);
            && j'.Serving? && j'.off == off && j'.out == [] && !j'.busy
            && (ValidAt(j'.segs, off, p) <==>
                  !SkipsFirst(off, |img.b|)
                  && AllIn(RecordedChunks(s.records, img.id, |img.b|), off / CHUNK_SIZE, p / CHUNK_SIZE))
  {
    var off := s.job[t].off;
    QueryExact(s.records, img.id, |img.b|, off, MinOf(s.job[t].want, |img.b| - off), p);
  }

  lemma PresentChunkHits(img: Image, s: State, t: Tid)
    requires Inv(img, s) && t in s.job && s.job[t].Serving? && !s.job[t].busy && s.job[t].segs != []
    requires var info := s.job[t].segs[0].info; info.cs.IsValid() && info.cs in s.chunks
    ensures Enabled(img, s, t, Hit)
    ensures var j, j' := s.job[t], NextJob(img, s, t, Hit);
            j'.Serving? && j'.segs == j.segs[1..] && |j'.out| == |j.out| + j.segs[0].len
  {
    PresentChunkServes(img, s, t);
  }

  /** Before that its bytes are in the store. */
  lemma StoresWhatItHas(img: Image, s: State, t: Tid)
    requires Inv(img, s) && Enabled(img, s, t, StoreChunk)
    ensures var j, chunks := s.job[t], Next(img, s, t, StoreChunk).chunks;
            && j.cs in chunks && chunks[j.cs] == j.data
            && (forall cs :: cs in s.chunks ==> cs in chunks && chunks[cs] == s.chunks[cs])
  {
    assert JobOk(img, s.job[t]);
    if s.job[t].cs in s.chunks {
      assert TrueChunk(img, s.job[t].cs, s.chunks[s.job[t].cs]);
    }
  }

  /** What the world outside adds is there, and what it evicts is gone, with nothing else touched. */
  lemma WorldOutside(img: Image, s: State, t: Tid, a: Action, cs: CheckSum)
    requires Enabled(img, s, t, a) && (a.AddChunk? || a.Evict?)
    ensures var chunks, s' := s.chunks, Next(img, s, t, a);
            && s'.records == s.records && s'.job == s.job && s'.cache == s.cache
            && (cs in s'.chunks <==> if a.AddChunk? then cs == a.cs || cs in chunks else cs in chunks && cs !in a.gone)
            && (cs in s'.chunks && cs in chunks ==> s'.chunks[cs] == chunks[cs])
            && (cs in s'.chunks && cs !in chunks ==> s'.chunks[cs] == a.data)
  {
  }

  /** Collection clears the bit of the chunk it was begun for, and of no other. */
  lemma ClearsAsked(img: Image, s: State, steps: seq<Step>, s': State, t: Tid)
    requires Init(img, s) && Reaches(img, s, steps, s') && t in s.job && Enabled(img, s', t, Tick(C.ClearBit))
    ensures var h := PastOf(img, s, steps, t, NOTHING_BEGUN);
            && h.begun.Some? && h.begun.value.BeginGc?
            && var bits, bits' := s'.cache.sh.bits, Next(img, s', t, Tick(C.ClearBit)).cache.sh.bits;
               |bits'| == |bits| && forall i :: 0 <= i < |bits| ==> bits'[i] == (i != h.begun.value.chunk && bits[i])
  {
    InitTold(img, s, t);
    RunFollows(img, s, steps, s', t, NOTHING_BEGUN);
    RunKeepsInv(img, s, steps, s');
    assert Coupled(s'.job[t], s'.cache.pc[t]);
  }

  /** And it is begun, over the worker's records, only for a chunk that is recorded. */
  lemma CollectsRecorded(img: Image, s: State, t: Tid, chunk: nat)
    requires Enabled(img, s, t, BeginGc(chunk))
    requires ChunkShaped(s.records, img.id, |img.b|) && chunk * CHUNK_SIZE < |img.b|
    ensures Recorded(s.records, img.id, |img.b|, chunk)
  {
    D.RecordedIsWhole(s.records, img.id, |img.b|, chunk);
  }

  // ---- No operation is stuck ---------------------------------------------------------------------------------

  /** What a thread that does not wait for the cache can do next. */
  lemma OwnStep(img: Image, s: State, t: Tid) returns (a: Action)
    requires Inv(img, s) && t in s.job && !s.job[t].Free? && s.cache.pc[t].Idle?
    ensures Enabled(img, s, t, a) && !a.Tick? && !Begins(a)
  {
    assert JobOk(img, s.job[t]) && Coupled(s.job[t], s.cache.pc[t]);
    if s.job[t].Looking? || s.job[t].Serving? {
      a := OwnStepOfRead(img, s, t);
    } else {
      a := OwnStepOfOther(img, s, t);
    }
  }

  lemma OwnStepOfRead(img: Image, s: State, t: Tid) returns (a: Action)
    requires |img.b| < 0x8000_0000_0000_0000 && t in s.job && t in s.cache.pc && s.cache.pc[t].Idle?
    requires JobOk(img, s.job[t]) && Coupled(s.job[t], s.cache.pc[t]) && (s.job[t].Looking? || s.job[t].Serving?)
    ensures Enabled(img, s, t, a) && !a.Tick? && !Begins(a)
  {
    var j := s.job[t];
    a := if j.Looking? then TakeSegments else if j.segs == [] then FinishRead else FallBack;
  }

  lemma OwnStepOfOther(img: Image, s: State, t: Tid) returns (a: Action)
    requires |img.b| < 0x8000_0000_0000_0000 && t in s.job && t in s.cache.pc && s.cache.pc[t].Idle?
    requires JobOk(img, s.job[t]) && Coupled(s.job[t], s.cache.pc[t])
    requires !s.job[t].Free? && !s.job[t].Looking? && !s.job[t].Serving?
    ensures Enabled(img, s, t, a) && !a.Tick? && !Begins(a)
  {
    match s.job[t]
    case Checking(_, _, _, _) => a := CheckDedup;
    case LookingUp(_, _, _) => a := LookUpChunk;
    case Fetching(_, _, _, _) => a := FetchForDedup;
    case Storing(_, _, _) => a := StoreChunk;
    case SyncStoring(_, _, _) => a := StoreChunk;
    case Recording(_, _, _) => a := RecordChunk;
    case Syncing(_, _) => a := FetchForSync;
    case _ => a := Rest;
  }

  /** What takes a finished cache operation off the cache. */
  lemma TakesCache(img: Image, s: State, t: Tid) returns (a: Action)
    requires Inv(img, s) && t in s.job && C.Enabled(img.b, s.cache, t, C.Return)
    ensures Enabled(img, s, t, a) && !a.Tick? && !Begins(a)
  {
    assert Coupled(s.job[t], s.cache.pc[t]);
    var p := s.cache.pc[t];
    a := if p.ReadOk? then TakeCached else if p.ReadErr? then CacheFailed else GcDone;
  }

  /** While any operation is under way, some thread can take a step of it that gets somewhere: no new operation,
      and in the cache none of those that do not count there. */
  lemma NoDeadlock(img: Image, s: State, t: Tid) returns (u: Tid, a: Action)
    requires Inv(img, s) && t in s.job && !s.job[t].Free?
    ensures Enabled(img, s, u, a) && !Begins(a) && (a.Tick? ==> C.Productive(a.a))
  {
    if s.cache.pc[t].Idle? {
      u := t;
      a := OwnStep(img, s, t);
    } else {
      var ca;
      u, ca := C.NoDeadlock(img.b, s.cache, t);
      if ca.Return? {
        a := TakesCache(img, s, u);
      } else {
        a := Tick(ca);
      }
    }
  }
}
