# Distill-fs: the chunked read path, its stores and its peer protocol

distill-fs serves disk images that are read chunk by chunk. A read goes through an interval index
(which slices of the image are stored under which checksum), a content-addressed chunk store shared by
all images of a node, a sparse cache file with a bitmap, and at last the backend. In the background,
chunks are deduplicated, synchronised, collected and evicted, and nodes fetch chunks from one another over
multiplexed sessions. This project models these parts and proves the claim at their centre: **however all
of this interleaves, a read that succeeds returns the bytes of the plain backend.**

## How it is built

| module (file) | what it is |
|---|---|
| `ReadPath` | the whole system as a state machine: threads read, deduplicate, synchronise and collect while chunks come and go; the cache runs step by step underneath |
| `ReadOutcome` | how the operations of `ReadPath` end: what each thread has been through, computed from the actions and the states before them, says where it is |
| `CacheProtocol` | the cache under concurrency: any number of readers and invalidators, one atomic action at a time, with the in-flight map and the reader/writer lock |
| `CacheFile` | the same cache as one thread runs it, over mutable arrays: raw bytes and a bitmap of real bits |
| `DedupQuery` | `dedup_range`, `dedup_check_range`: the loop, the function it computes, tiling, and exactly what it finds |
| `DedupQueue` | the dedup worker's queue under concurrency: any number of readers test, send and mark |
| `Dedup` (DedupReader.dfy) | the reader, the dedup worker, the sync worker and chunk collection as a class over index, store and cache |
| `IndexDb`, `CheckSums`, `AccessOrder`, `KeyOrder`, `Bytes` | records, keys, their codecs, and the order in which LMDB keeps key bytes; cursors |
| `ChunkStore` | the three maps of the chunk store, and what transactions do to them: adds with eviction, deletions, access updates, as functions of how each transaction ends |
| `WriterProtocol` | the writer thread among the threads that use it, as a state machine: requests arrive at any time, also in the middle of a round |
| `Writer` | the writer thread as a class: its priority queues and its loops, each proved against `ChunkStore`, and the whole thread proved to run `WriterProtocol` |
| `Collectors` | expiry and LRU collection, and the worker that combines them, as a function of the usage it reads |
| `Enumeration` | walking the store with a cursor while it changes |
| `Wire` | frames, the server's parse loop, vectored writes |
| `Session` | the multiplexed session as a state machine: callers, writer lock, reader task, closer, server |
| `Misrouting` | what a torn frame can do to a session: exactly when an answer may go to the wrong caller |
| `OwnerIndex` | the register script, its sorted sets, and `sync_chunks` |
| `Nydus` | reads of files assembled from chunks, as a function of what each write takes, and the worker that feeds the store |
| `Basics` | the option type, and facts about sets and slices that several modules use |

Concurrency is modelled by steps: an action is one atomic operation of the code (an atomic load or
compare-and-swap, one critical section, one piece of a copy or of a write), and the theorems are about every
state of every run. Code that runs in one thread is modelled imperatively, with the source's loops, and each
method is proved against a function of its inputs or of the old state.

## What the proofs take for granted

- **Hash functions** are arbitrary functions. Where contents must be told apart by their checksums, the
  hypothesis is about what the store holds: data under the checksum of a slice of the image is that slice
  (`ReadPath.TrueChunk`). For data that was checked against its checksum this is the absence of a collision
  with the image (`CheckSums.NoCollision`, `ReadPath.CheckedIsTrue`), and the slices of the image do not
  collide with one another (`ReadPath.Image.Good`). That a hash function be injective, which none is, is
  never assumed.
- **Unchecked adds**: Nydus images put chunks into the shared store under the digests of their own metadata,
  without hashing them (src/image/nydus.rs:568-571, 115-119, 264-272). The read path admits any such add that
  is not false of the image, in the sense above; a wrong digest equal to the checksum of a slice would be.
  "Every chunk hashes to its key" holds in runs whose adds are checked (`ReadPath.ChunksHashToKeys`).
- **The backend is real and honest**: a fetch that reports success has written all bytes asked for, and one
  that fails has written none or some of the right ones. The cache does not look at the count a fetch returns
  (src/backend/cache.rs:419). The empty backend of a local image reports success without writing anything
  (src/backend/cache.rs:246-248); nothing is claimed for it.
- **Sizes**: a blob is smaller than 2^63 bytes, so that offsets and ends fit 64 bits with room for one chunk.
- **LMDB transactions** are atomic, and a cursor shows keys in the order of their bytes. How each transaction
  ends (`Ending`: committed, map full, failed) is an arbitrary input, a function of its number; an error inside
  a transaction makes it fail as a whole. So are the usage readings of the collector, the bytes each write
  takes, what each fetch from a backend or blob delivers, how each add to the store and each drop of a cached
  chunk ends: the theorems hold for all of them, and say when an operation succeeds.
- **A checksum handed to `dedup`** by its caller is the true one of the range (src/backend/dedup.rs:287-294);
  the worker, the only caller within the read path, hands over none.
- **Sockets** deliver bytes in order. A response is written by one task, so on the client's side a whole
  response is one message (`Wire.ResponseRoundTrip` and `Wire.WriteResponseParts` say why).

## Where the code does not do what one might expect

- A **late refetch** is possible: the bit is loaded before the thread registers, so a chunk may be fetched again
  although it is present (`CacheProtocol.LateRefetch`). As long as the bit is not cleared, that can happen
  exactly if some thread stands between loading the bit and registering (`CacheProtocol.RefetchIff`).
  "At most one owner at a time" is what holds always.
- **`dedup_range` is not complete.** It does not look at a record again after emitting the gap before it, so
  everything behind the first gap is a gap (`DedupQuery.RecordBehindGapIsMissed`); and a query that starts at
  the last byte of a chunk starts the cursor behind that chunk's own record (`DedupQuery.LastByteIsMissed`),
  since key bytes sort the start ascending while the type's own order has it descending.
  `DedupQuery.QueryExact` and `DedupQuery.CompleteIff` say exactly what is found. Reads stay correct.
- **A short last chunk that is already recorded** is an invalid range to `dedup_check_range`, not a duplicate
  (`DedupQuery.CheckRangeExact`).
- **Stale keys** sent to the writer for deletion leave index entries without an access time
  (`ChunkStore.StaleKeyBreaksMirror`); only "access times are indexed" is unconditional. A step of the writer
  breaks the mirror iff it commits the deletion of a stale key (`WriterProtocol.StepKeepsMirrorIff`).
- **A failed transaction of access updates** loses them: the error is logged and the batch dropped. A clean stop
  leaves every stored chunk with an access time, whatever is asked of the writer, iff no transaction fails after
  one has committed (`WriterProtocol.CleanStopIff`); else `WriterProtocol.LosingRun` is a run that leaves the one
  stored chunk without. `WriterProtocol.CleanStop` bounds what can be missing.
- **A chunk may be queued twice for deduplication**: two readers may both test it before either marks it
  (`DedupQueue.QueuedTwice`). One reader queues it once at most, and a marked chunk is queued again iff some reader
  has tested it before (`DedupQueue.OncePerReader`, `DedupQueue.QueuedAgainIff`).
- **Collection may delete a chunk that has been used again** since its keys were read: exactly those go that had
  expired then (`Collectors.LateDeletionIff`).
- **`gc_lru(0)` deletes one entry**: the limit is tested after the push (`AccessOrder.SelectOldest`).
- README.md:295-296 says collection goes on until usage is down to 80%. The loop ends at the first reading that
  is at most the *high* watermark (src/backend/chunkdb.rs:1335): with readings 0.95, 0.85, 0.85 it ends at 0.85
  (`Collectors.StopsAt85`). `Collectors.EndsAboveLowIff` says of any sequence of readings when that happens.
- **A torn request frame** can misroute a response: a write that times out within its frame releases the writer
  before the session is closed, and a caller that has already passed the `is_closed` test may write behind
  it. The server reads the requests that were made iff the bytes from the first torn frame on hold no readable
  head (`Session.ServerReadsWholeIff`). Given what is on the stream, some caller may get the answer to something
  else iff the server has read, under the id of a request that was written in full, something else
  (`Misrouting.MisrouteIff`). For every cut after 17 to 40 bytes `Misrouting.TornFrameMisroutes` is a run in which
  that happens.
- **`sync_chunks` may evict** a live owner if other nodes register between its lookup and its registration
  (`OwnerIndex.InterleavedSyncCanEvict`), and does so iff its lookup saw room and three live owners rank above
  that one by then (`OwnerIndex.SyncEvictsIff`).
- **A writer that takes only part of a chunk** and then more makes a Nydus read skip bytes and still succeed
  (`Nydus.SkippingRead`). An Ok read writes its file's bytes in order, whatever the file, iff no write behind a
  cut one takes anything (`Nydus.InOrderIff`); and it reports how many bytes it has written, not where they end.

## Model

| member | source | states |
|---|---|---|
| `ReadPath.ReadTransparency` | src/backend/dedup.rs:458-687 | The central claim: in every state of every run of reads, deduplication, synchronisation, collection, eviction and additions, over a cache whose steps interleave too, a read that succeeded holds exactly the backend's bytes of its range, clipped at the end |
| `ReadPath.StoresStayTrue` | src/backend/dedup.rs:297-327 | Over all runs, unchecked adds among them: every record names the checksum of the slice it covers, no chunk is false of the backend, and a chunk that a record names is that slice, byte for byte |
| `ReadPath.ChunksHashToKeys` | src/backend/dedup.rs:297-327 | Content addressing over all runs whose foreign adds are checked: every chunk hashes to its key |
| `ReadPath.CheckedIsTrue` | src/backend/peer.rs:2855-2874 | Data checked against its checksum is not false of the backend, unless the two collide |
| `ReadPath.StepKeepsInv` | src/backend/dedup.rs:228-345 | Every step of every thread keeps the system invariant: cache invariant, index truth, content addressing, and each read, dedup, sync or collection under way being sound and coupled to its cache operation |
| `ReadPath.RunKeepsInv` | src/backend/dedup.rs:458-656 | The system invariant holds along every run |
| `ReadPath.PresentChunkServes` | src/backend/dedup.rs:480-490 | A chunk present under a segment's checksum is always long enough for the segment: "chunk range invalid" cannot arise |
| `ReadPath.ChunkIsSlice` | src/backend/dedup.rs:517-551 | Data that hashes to the checksum of a true record is the slice of the backend that the record covers |
| `ReadPath.TilesAreTrue` | src/backend/dedup.rs:182-226 | Over an index that is true, the segments of any tiling by `dedup_range` are true of the backend |
| `ReadPath.QuerySegmentsTrue` | src/backend/dedup.rs:182-226 | So are the segments of a query, for any range |
| `ReadPath.ChunksNeverOverwritten` | src/backend/chunkdb.rs:632-708 | No step changes the data of a chunk that stays |
| `ReadPath.ReadsOnlyGrow` | src/backend/dedup.rs:458-515 | Whatever any thread does, a read under way keeps the bytes it has, or has failed |
| `ReadOutcome.Outcome` | src/backend/dedup.rs:458-687 | How every operation ends, in every run: a thread is free iff what it began is over; a read that is served is the one that was begun and has had no failed fetch or wait; a read fails only if one of its own has failed, any other operation only if that or it was refused |
| `ReadOutcome.SoundReadSucceeds` | src/backend/dedup.rs:458-515 | A read none of whose own fetches and waits has failed is under way or served |
| `ReadOutcome.RecordsAsked` | src/backend/dedup.rs:297-327 | A deduplication that comes to its end adds one record: the range asked for, clipped, under the checksum of its bytes (or all of it under the claimed one), and changes no other |
| `ReadOutcome.StoresWhatItHas` | src/backend/dedup.rs:297-320 | Before that the store holds its bytes under that checksum, and still all it held |
| `ReadOutcome.FetchesOnlyMissing` | src/backend/dedup.rs:287-303 | A request that claims a checksum is fetched only if that chunk was looked for in vain |
| `ReadOutcome.ReadsOfferStored` | src/backend/dedup.rs:458-490 | Over the worker's records a read is to take byte p from a stored chunk iff all chunks from its start up to that byte's are recorded and it does not start at the last byte of one |
| `ReadOutcome.PresentChunkHits` | src/backend/dedup.rs:480-515 | A segment whose chunk is there is served from it |
| `ReadOutcome.ClearsAsked` | src/backend/dedup.rs:331-345 | Collection clears the bit of the chunk it was begun for and no other |
| `ReadOutcome.CollectsRecorded` | src/backend/dedup.rs:331-345 | And over the worker's records it is begun only for a chunk that is recorded |
| `ReadOutcome.NoDeadlock` | src/backend/dedup.rs:458-687 | While any operation is under way, some thread can take a step of one that gets somewhere |
| `CacheProtocol.CacheTruth` | src/backend/cache.rs:385-519 | In every state of every run of readers and invalidators, also in the middle of a fetch, of a late refetch and between clearing a bit and punching its hole: a set bit means the chunk is the backend's, and every read that succeeded holds backend bytes |
| `CacheProtocol.Outcome` | src/backend/cache.rs:385-519 | How every operation ends, in every run: a thread is busy until it returns from what it was asked; a read ends in an error only if it starts past the end or one of its own fetches or waits has failed, and in success only if none has, with the bytes of the very range asked for; an invalidation ends only with its bit cleared |
| `CacheProtocol.WhoChangesWhat` | src/backend/cache.rs:385-519 | A bit is set only by a reader of its chunk and cleared only by an invalidator of it; bytes change only by a fetch of their chunk, to the backend's, or a hole of it, to zero |
| `CacheProtocol.InvalidatesAsked` | src/backend/cache.rs:499-512 | An invalidator clears exactly the bit of the chunk it was asked to |
| `CacheProtocol.StepKeepsInv` | src/backend/cache.rs:385-519 | Every atomic action keeps the cache invariant |
| `CacheProtocol.RunKeepsInv` | src/backend/cache.rs:385-519 | The cache invariant holds along every run |
| `CacheProtocol.OneOwnerPerChunk` | src/backend/cache.rs:370-432 | Between registration and removal no two threads own the same chunk, no two own the same fetch, and an invalidator excludes all readers |
| `CacheProtocol.NoOrphanedWait` | src/backend/cache.rs:257-302 | A waiter waits on a fetch that is done or whose owner is another thread still working on it; whatever the in-flight map lists is owned by a thread that will remove it |
| `CacheProtocol.WaiterGoesOn` | src/backend/cache.rs:385-432 | Where a waiter of a finished fetch ends up, whatever has happened meanwhile: past the chunk if its bit is set; else, a failed fetch being retried, with a fetch of its own or waiting for one that is not done |
| `CacheProtocol.OwnStep` | src/backend/cache.rs:385-471 | Every thread inside an operation that is not waiting for a lock or a fetch has a productive step of its own |
| `CacheProtocol.NoDeadlock` | src/backend/cache.rs:370-519 | While any operation is under way, some thread can take a productive step |
| `CacheProtocol.StepLowersPotential` | src/backend/cache.rs:385-519 | Every productive step lowers a measure of the work left, however threads interleave |
| `CacheProtocol.ProductiveRunsEnd` | src/backend/cache.rs:385-519 | So the number of productive steps is bounded by the work there is at the start: all operations return |
| `CacheProtocol.LateRefetch` | src/backend/cache.rs:399-402 | Counterexample: a run in which a reader owns a new fetch of a chunk whose bit is set |
| `CacheProtocol.RefetchIff` | src/backend/cache.rs:385-432 | Exactly when: from a reachable state with the bit set, some run that does not clear it opens a fetch of the chunk iff some thread is at the point of registering for it |
| `CacheFile.BitmapCoversChunks` | src/backend/cache.rs:207-210 | The bitmap file has a bit for the chunk of every byte, whatever the page size |
| `CacheFile.SetBitFrame` | src/backend/cache.rs:212-223 | Setting a bit of the bitmap changes that bit's truth and no other's |
| `CacheFile.ClearBitFrame` | src/backend/cache.rs:225-236 | Clearing a bit changes that bit's truth and no other's |
| `CacheFile.Cache.SetBit` | src/backend/cache.rs:212-223 | The bits afterwards are those before with one set |
| `CacheFile.Cache.ClearBit` | src/backend/cache.rs:225-236 | The bits afterwards are those before with one cleared |
| `CacheFile.Cache.FetchData` | src/backend/cache.rs:385-432 | It succeeds iff every fetch it makes delivers; then exactly the bits of the range have been added, and each missing chunk was fetched once and no other; cache truth is kept, and bytes only change to the backend's |
| `CacheFile.Cache.FixRange` | src/backend/cache.rs:434-444 | A range that starts within the blob is clipped at its end, any other is invalid |
| `CacheFile.Cache.ReadAt` | src/backend/cache.rs:446-471 | It succeeds iff nothing is wanted, or the range starts within the blob and every fetch delivers; then the buffer holds the backend's bytes in the range, its other bytes unchanged; on failure nothing is copied; the error is "invalid range" iff the range starts past the end |
| `CacheFile.Cache.InvalidateChunk` | src/backend/cache.rs:499-519 | Exactly the chunk's bit goes; it succeeds iff the bit was clear or the bitmap is synced and the hole punched, and then exactly the chunk's bytes are zero and all others as they were; cache truth is kept |
| `CacheFile.MarkedIsBackend` | src/backend/cache.rs:446-471 | Bytes below chunks that are all marked are the backend's |
| `CacheFile.HoleKeepsTruth` | src/backend/cache.rs:499-519 | A hole in a chunk whose bit is clear keeps cache truth |
| `DedupQuery.WalkEntries` | src/backend/dedup.rs:191-224 | The loop, with its early exits, computes the function `Walk` of the entries shown |
| `DedupQuery.DedupRangeQuery` | src/backend/dedup.rs:182-226 | `dedup_range` computes `Query`: the cursor from the key (id, off+1, off) on, walked |
| `DedupQuery.QueryTiles` | src/backend/dedup.rs:182-226 | For arbitrary records, overlapping ones too: the segments are non-empty, cover the range in order, and each is a gap or lies inside a stored record of the same blob |
| `DedupQuery.TilesCoverEachByteOnce` | src/backend/dedup.rs:182-226 | Said of bytes: each byte of the range lies in exactly one segment |
| `DedupQuery.QueryExact` | src/backend/dedup.rs:182-226 | Over the worker's records: byte p is served from a stored chunk iff all chunks from the start of the query up to its own are recorded and the cursor did not start behind the first |
| `DedupQuery.CompleteIff` | src/backend/dedup.rs:182-226 | A query serves every recorded byte of its range iff no recorded chunk in it comes after an unrecorded one and none is skipped by the cursor |
| `DedupQuery.RecordBehindGapIsMissed` | src/backend/dedup.rs:195-205 | Counterexample to completeness: only the second of two chunks recorded, neither is served |
| `DedupQuery.LastByteIsMissed` | src/backend/dedup.rs:184-190 | Counterexample to completeness: the chunk is recorded, and a query of its last byte is a gap |
| `DedupQuery.WholeChunkQuery` | src/backend/dedup.rs:182-226 | A query of one whole chunk yields its record if there is one, else one gap; past the end of the blob, a gap more |
| `DedupQuery.DedupCheckRange` | src/backend/dedup.rs:174-180 | Its three answers in terms of the query |
| `DedupQuery.CheckRangeExact` | src/backend/dedup.rs:174-180 | For the worker's requests: fresh iff not recorded, duplicate iff recorded and not short, an error iff recorded and short |
| `IndexDb.RangeRoundTrip` | src/backend/indexdb.rs:162-186 | Range keys decode to what was encoded |
| `IndexDb.RangeDecodesUniquely` | src/backend/indexdb.rs:174-186 | A key decodes iff it is 48 bytes long, and then it is the encoding of what it decodes to |
| `IndexDb.RangeKeyOrder` | src/backend/indexdb.rs:162-172 | Key bytes sort by blob, then end, then start |
| `IndexDb.DeclaredOrderDiffersFromKeyOrder` | src/backend/indexdb.rs:144-154 | The type's own order agrees with that of its key bytes except on exactly the pairs that share blob and end but not start |
| `Dedup.DedupReader.Fetch` | src/backend/dedup.rs:665-687 | It succeeds iff every fetch from the backend delivers; then the count is the range clipped at the end, the buffer holds exactly the backend's bytes there and is unchanged behind them, what was missing of the recorded chunks is queued for synchronisation and each chunk of the range for deduplication, as far as the queues have room; index truth, store truth and cache truth are kept |
| `Dedup.DedupReader.ServeSegments` | src/backend/dedup.rs:458-515 | Over true segments that tile the range, the loop fills the buffer with the backend's bytes, from chunks and cache in any mixture, and succeeds iff every fetch it makes delivers; it makes none if all chunks are stored, and queues the records of exactly those that are missing |
| `Dedup.DedupReader.ReadDedupChunk` | src/backend/dedup.rs:517-551 | It hits iff the chunk is stored and long enough, and then copies the piece into its place in the buffer; a miss copies nothing |
| `Dedup.DedupReader.EnqueueSync` | src/backend/dedup.rs:432-436 | A request is queued, or dropped if the queue is full |
| `Dedup.DedupReader.TryDedupChunk` | src/backend/dedup.rs:438-456 | As one thread runs it, each chunk of the range is queued at most once ever, in order, and is left unmarked only if the queue is full |
| `DedupQueue.OncePerReader` | src/backend/dedup.rs:438-456 | With any number of readers, over every run and however often it reads a chunk, a reader queues it at most once |
| `DedupQueue.QueuedAgainIff` | src/backend/dedup.rs:445-453 | A chunk that is marked can be queued again iff some reader has tested it before the mark and not sent it yet |
| `DedupQueue.MarkedIsQueued` | src/backend/dedup.rs:445-453 | A chunk is marked only if some reader has queued it |
| `DedupQueue.GoesOnIf` | src/backend/dedup.rs:444-454 | A reader goes on from a chunk only if that is marked or the queue is full, one chunk at a time, to the last |
| `DedupQueue.QueuedTwice` | src/backend/dedup.rs:445-453 | Counterexample to "at most once": a run in which two readers queue one chunk |
| `Dedup.DedupReader.StoreAndRecord` | src/backend/dedup.rs:297-327 | It succeeds iff the fetches deliver and the add succeeds; then the index has exactly one record more: the range, clipped at the end, under the checksum of the backend's bytes there; else none |
| `Dedup.DedupReader.DedupRangeOf` | src/backend/dedup.rs:228-328 | `dedup` with all its rejections: exactly which requests succeed, when nothing is recorded, and what is |
| `Dedup.DedupReader.GcChunk` | src/backend/dedup.rs:331-345 | The cached copy goes iff the query finds all of the chunk recorded; no other bit changes |
| `Dedup.DedupReader.GcRecordedChunk` | src/backend/dedup.rs:331-345 | Whole-chunk exactness: over the worker's records, the copy goes iff the chunk is recorded |
| `Dedup.DedupReader.DedupWorkerStep` | src/backend/dedup.rs:761-793 | One request of the worker: exactly when it succeeds, and that the chunk is then recorded truly and its cached copy dropped; the records keep their shape; a recorded short last chunk is an error that changes nothing |
| `Dedup.DedupReader.SyncProcess` | src/backend/dedup.rs:610-656 | The store afterwards, exactly: the record's bytes are added iff they can be fetched, hash to its checksum and the add succeeds; then all wholly recorded chunks of its range have left the cache, and no other chunk has |
| `Dedup.DedupReader.RecordedChunkIsSlice` | src/backend/dedup.rs:297-327 | The stored chunk that a chunk's record names is that chunk of the backend |
| `Dedup.RecordKeepsShape` | src/backend/dedup.rs:322-327 | Recording a chunk keeps "one record per chunk, clipped at the end" |
| `Dedup.RecordedIsWhole` | src/backend/dedup.rs:331-345 | The collector's test passes for a chunk iff it is recorded |
| `CheckSums.CheckSumRoundTrip` | src/backend/chunkdb.rs:260-295 | Checksums decode to what was encoded |
| `CheckSums.EncodedCheckSumOrder` | src/backend/chunkdb.rs:281-306 | Encoded checksums sort by digest first, then method |
| `AccessOrder.AccessKeyRoundTrip` | src/backend/chunkdb.rs:372-395 | Access keys decode to what was encoded |
| `AccessOrder.KeyOrderRefinesTime` | src/backend/chunkdb.rs:372-395 | Byte order of access keys is first the order of access times |
| `AccessOrder.DeclaredOrderDiffers` | src/backend/chunkdb.rs:357-365 | The type's own order differs from that of the bytes on exactly the pairs of one second whose methods and digests disagree |
| `AccessOrder.SelectOldest` | src/backend/chunkdb.rs:1113-1138 | The selection loop takes the first keys in cursor order: as many as asked, or all; one when asked for none |
| `AccessOrder.OldestAreOldest` | src/backend/chunkdb.rs:1113-1138 | No selected key is more recent than a key that is kept |
| `AccessOrder.OldestContinues` | src/backend/chunkdb.rs:739-773 | Selecting, deleting and selecting again is one larger selection |
| `AccessOrder.SelectExpired` | src/backend/chunkdb.rs:1076-1098 | The scan that stops at the first recent key has found exactly the keys older than the cutoff |
| `ChunkStore.TouchExact` | src/backend/chunkdb.rs:1154-1173 | One update, exactly: a time that is missing or a refresh interval old becomes `now`, and its key replaces the old one; else nothing changes |
| `ChunkStore.TouchAllKeeps` | src/backend/chunkdb.rs:608-630 | A batch of updates sets exactly the times that were due to `now`, changes no other and no data, and access times and index still mirror each other |
| `ChunkStore.TouchAllIndex` | src/backend/chunkdb.rs:608-630 | Its index: the key of each renewed time replaces the old one, all others stay |
| `Writer.WriterThread.UpdateAccess` | src/backend/chunkdb.rs:1154-1173 | Without a time, or when that is an interval old: the time is `now` and its key replaces the old one; within the interval, or when the clock is behind, nothing changes |
| `ChunkStore.DeleteKeepsIndexed` | src/backend/chunkdb.rs:710-736 | Deleting any keys, stale ones too, leaves every access time indexed |
| `ChunkStore.DeleteKeepsMirrorIff` | src/backend/chunkdb.rs:710-736 | Access times and index still mirror each other after a deletion iff none of its keys was stale |
| `ChunkStore.StaleKeyBreaksMirror` | src/backend/chunkdb.rs:1076-1098 | Counterexample: a key read before its chunk was touched again |
| `ChunkStore.IndexKeysFresh` | src/backend/chunkdb.rs:739-773 | Keys that the index shows now are never stale |
| `ChunkStore.EvictMore` | src/backend/chunkdb.rs:739-773 | Evicting m entries and then n is evicting m+n |
| `ChunkStore.EvictKeeps` | src/backend/chunkdb.rs:739-773 | Eviction keeps both metadata invariants, and no entry it takes is more recent than one it leaves |
| `ChunkStore.PutAllKeeps` | src/backend/chunkdb.rs:668-690 | A transaction of puts adds the batch's chunks, each as the batch has it, and changes none that was there |
| `Writer.WriterThread.GcLruDirect` | src/backend/chunkdb.rs:739-773 | Evicts exactly the least recent entries in one transaction, or nothing |
| `Writer.WriterThread.DoDeleteKeys` | src/backend/chunkdb.rs:710-736 | All keys of the batch are deleted with their data and times, or none |
| `Writer.WriterThread.TryPutAll` | src/backend/chunkdb.rs:668-708 | One attempt writes all of the batch or nothing |
| `Writer.WriterThread.DoAddSubBatch` | src/backend/chunkdb.rs:668-708 | The loop terminates (the index shrinks) and computes `AddSub`: outcome, databases, number of transactions and queue, for any endings of the transactions |
| `ChunkStore.AddSubEffect` | src/backend/chunkdb.rs:668-708 | What that comes to: some number of least recent entries are evicted, and on success the whole sub-batch is stored, and nothing else; "map full" is reported only with nothing left to evict |
| `ChunkStore.AddSubTrace` | src/backend/chunkdb.rs:668-708 | For any endings: as long as tries find the map full and evictions commit, a batch of entries goes each time; then a try commits and all is stored, or it fails, or finds nothing left to evict, or the eviction fails. So an add that finds room evicts nothing |
| `Writer.WriterThread.DoAddChunksBatch` | src/backend/chunkdb.rs:632-666 | Sub-batch by sub-batch it computes `AddAll`; exactly the chunks of those that are done are queued for access tracking (a request of one chunk is such a batch) |
| `ChunkStore.AddAllEffect` | src/backend/chunkdb.rs:661-708 | What that comes to: sub-batches done stay done, each of their chunks is stored unless evicted for a later one, and the index afterwards is the old one without some number of its least recent entries |
| `ChunkStore.AddAllGood` | src/backend/chunkdb.rs:661-690 | If its transactions commit, an add takes one for each sub-batch, stores all its chunks and evicts nothing |
| `ChunkStore.AddAllOutcome` | src/backend/chunkdb.rs:661-708 | An add is done iff the last of its transactions commits |
| `Writer.WriterThread.CommitAccessBatch` | src/backend/chunkdb.rs:608-630 | If its transaction commits, all updates of the batch, else none |
| `Writer.WriterThread.ProcessAccessUpdates` | src/backend/chunkdb.rs:581-606 | Conservation: the first n updates have been tried and the databases are what their batches make of them (`Commits`), each applied if its transaction commits; all others are back in the queue, and only if a request waits and a first batch was tried |
| `ChunkStore.CommitsAccount` | src/backend/chunkdb.rs:581-630 | What such batches come to: every time is the old one or, where it was due, `now`; every chunk whose update is not lost has the latter; no other chunk gets one, and both metadata invariants are kept |
| `ChunkStore.CommitsThen` | src/backend/chunkdb.rs:581-606 | Batches tried one after another are as if tried together |
| `Writer.WriterThread.RunOnce` | src/backend/chunkdb.rs:517-551 | Drain, serve by priority, update access times: exactly one round of `WriterProtocol`, with requests arriving anywhere in it |
| `Writer.WriterThread.Run` | src/backend/chunkdb.rs:517-579 | The thread is a run of `WriterProtocol` with one round for each clock reading until it stops; stopped, it leaves every stored chunk with an access time but for the updates of failed batches, and without exception if none of its transactions fails after one that commits |
| `WriterProtocol.StepKeepsInv` | src/backend/chunkdb.rs:517-606 | Every step keeps each stored chunk accounted for (access time, queue, batch in hand, or lost with a failed transaction, exactly those of that batch) and each access time indexed |
| `WriterProtocol.RunKeepsInv` | src/backend/chunkdb.rs:517-606 | The same along every run, the losses adding up to those of exactly the failed batches |
| `WriterProtocol.StoredChunksAccounted` | src/backend/chunkdb.rs:517-606 | In every state of every run from an orderly opened store, each stored chunk is accounted for |
| `WriterProtocol.CleanStop` | src/backend/chunkdb.rs:517-579 | A clean stop leaves every stored chunk with an access time, but for the updates of failed batches |
| `WriterProtocol.CleanStopLosesNothing` | src/backend/chunkdb.rs:517-579 | If no transaction of the run fails after one has committed, every stored chunk has an access time |
| `WriterProtocol.CleanStopIff` | src/backend/chunkdb.rs:517-579 | Exactly when every clean stop leaves every stored chunk with an access time, whatever is asked of the writer and whatever the store held: iff no transaction fails after one has committed |
| `WriterProtocol.LosingRun` | src/backend/chunkdb.rs:608-630 | Counterexample, for any endings of which one fails after one has committed: a run from an empty store to a clean stop that leaves its one chunk without an access time |
| `WriterProtocol.StoredWasAsked` | src/backend/chunkdb.rs:632-708 | Over every run, evictions and later adds included: whatever is stored was stored at the start or asked to be added, with the very data it has |
| `WriterProtocol.StepKeepsMirrorIff` | src/backend/chunkdb.rs:517-736 | A step of the writer keeps access times and index in bijection iff it does not commit the deletion of a stale key |
| `WriterProtocol.MirrorKept` | src/backend/chunkdb.rs:517-736 | Over every run whose deletions are fresh when they are made, they stay in bijection |
| `WriterProtocol.AddsAreServed` | src/backend/chunkdb.rs:517-567 | Conservation over every run: the requests to add in hand and queued at the start and those that arrive are, in order, those served and those in hand and queued at the end |
| `WriterProtocol.DeletesAreServed` | src/backend/chunkdb.rs:517-579 | The same of requests to delete |
| `WriterProtocol.TouchedAreTried` | src/backend/chunkdb.rs:517-606 | Each chunk whose use is reported has its update tried, or it is still in hand or queued |
| `WriterProtocol.ServedAddStores` | src/backend/chunkdb.rs:632-690 | Serving a request to add whose transactions commit stores all its chunks, evicts nothing and queues their access updates |
| `WriterProtocol.ServedAddEffect` | src/backend/chunkdb.rs:632-708 | Serving any request to add evicts least recent entries only, stores only what it has, and queues the updates of exactly the sub-batches done |
| `WriterProtocol.CommittedTimes` | src/backend/chunkdb.rs:581-630 | A batch of updates that commits sets exactly the times that are due to `now`; one that fails changes none |
| `WriterProtocol.StopIsHeeded` | src/backend/chunkdb.rs:517-579 | A round that begins when the store has been dropped is the last |
| `WriterProtocol.Priorities` | src/backend/chunkdb.rs:553-606 | Adds go before deletions, these before access updates; and after a first batch of updates whatever waits goes before the next |
| `WriterProtocol.DeletedFully` | src/backend/chunkdb.rs:710-736 | A deletion that commits, however late, leaves no index entry, data or access time of its keys, and all else as it was; one that fails changes nothing |
| `ChunkStore.AddedThen` | src/backend/chunkdb.rs:661-708 | What two adds in a row may do to the store is what one add of both batches may do |
| `ChunkStore.AddedAccounts` | src/backend/chunkdb.rs:661-708 | If all stored chunks were accounted for before an add, they are after it |
| `ChunkStore.EvictionShrinks` | src/backend/chunkdb.rs:739-773 | Eviction from a non-empty index shrinks it: the measure of the add loops |
| `Collectors.GcExpired` | src/backend/chunkdb.rs:1076-1111 | Of the entries exactly those with time + timeout < now go, with data and times, in batches; it stops at the first batch whose transaction fails, and then only such entries are gone, those of the batches before it |
| `Collectors.LateDeletionIff` | src/backend/chunkdb.rs:1076-1111 | Access times and index mirroring each other at the scan, and whatever other threads do to the store between it and the deletion: a stored chunk goes iff it had expired at the scan, even if used again since |
| `Collectors.GcLru` | src/backend/chunkdb.rs:1113-1138 | Exactly min(n, size) least recent entries are gone, or nothing |
| `Collectors.LruLeavesMostRecent` | src/backend/chunkdb.rs:1113-1138 | What is left is the most recently used part of the index, smaller by exactly that many |
| `Collectors.NewGcWorker` | src/backend/chunkdb.rs:1291-1313 | A worker exists iff its watermarks are ordered fractions |
| `Collectors.GcWorker.Run` | src/backend/chunkdb.rs:1325-1354 | It terminates; the entries with time + expire_after < now go, and the loop runs on what is left (`Collected`); if it succeeds, its last reading of the usage is at most the high watermark or the index is empty; a dry run changes nothing |
| `Collectors.GcWorker.Shrink` | src/backend/chunkdb.rs:1329-1351 | The loop computes `GcLoop`: result, databases and how many transactions and readings it took, for any readings |
| `Collectors.GcLoopTrace` | src/backend/chunkdb.rs:1332-1351 | What the loop does, for any readings and endings: a round whose first reading is not above the high watermark evicts nothing and ends it; any other evicts one batch, unless that fails, and ends it if the next reading is at most the low one |
| `Collectors.EndsBelowHigh` | src/backend/chunkdb.rs:1329-1351 | Whatever is read: a loop that succeeds has made a last reading of at most the high watermark, or has emptied the index |
| `Collectors.EndsAboveLowIff` | src/backend/chunkdb.rs:1329-1351 | A successful loop ends above the low watermark with entries left iff at the head of some round, for which there still are entries, it reads a usage between the two, having read more than the high one at every head before and more than the low one after every batch before |
| `Collectors.StopsAt85` | src/backend/chunkdb.rs:1335-1337 | Counterexample to "down to 80%": readings of 0.95, 0.85 and 0.85 end the loop after one batch |
| `Enumeration.NextChunkBatch` | src/backend/chunkdb.rs:1040-1074 | The next valid keys after the cursor, in order, none left out before the last, fewer than asked only when there are no more |
| `Enumeration.VisitAll` | src/backend/peer.rs:3259-3322 | With adds and deletes between any two calls: nothing is visited twice, only valid chunks that were present are, every chunk present throughout is, and the walk is over in at most one call more than chunks ever appear |
| `Wire.RequestRoundTrip` | src/backend/peer.rs:905-929 | Requests decode to what was encoded |
| `Wire.RequestLayout` | src/backend/peer.rs:905-914 | The bytes of a request header: id, kind, hash method, digest, offset, length, big-endian |
| `Wire.DecodeIsInjectiveUpToMethod` | src/backend/peer.rs:916-929 | Decoding loses nothing but the value of an unknown hash method |
| `Wire.SumsRoundTrip` | src/backend/peer.rs:2458-2499 | Batch payloads decode to what was encoded, whatever follows |
| `Wire.ReadChecksumBatch` | src/backend/peer.rs:2486-2499 | The loop reads exactly the announced number of checksums, and fails iff the stream is too short for them |
| `Wire.OutgoingWellFormed` | src/backend/peer.rs:878-880 | A batch announces its true size iff that fits 32 bits |
| `Wire.HandleStream` | src/backend/peer.rs:3157-3197 | The server's loop computes `Parse` of the stream, and ends as it says |
| `Wire.FramingRoundTrip` | src/backend/peer.rs:3157-3197 | From the concatenated frames of any requests, batches among them, the server reads exactly these requests; a header cut short at the end is dropped cleanly |
| `Wire.FrameParses` | src/backend/peer.rs:3157-3179 | A frame at the head of a stream is read as its request, and the rest as if it came first |
| `Wire.ParseGrows` | src/backend/peer.rs:3157-3179 | What the server has read is not changed by what follows |
| `Wire.ReadHeadExact` | src/backend/peer.rs:3157-3179 | A request is read iff its header is there and names a message and, for a batch, its offset is zero and all its checksums are there |
| `Wire.ParseEnds` | src/backend/peer.rs:3157-3179 | A connection ends well iff less than a header is left of its stream |
| `Wire.ResponseRoundTrip` | src/backend/peer.rs:955-980 | A response is read back as written iff its payload is no larger than a chunk; a larger one is refused |
| `Wire.ResponseLayout` | src/backend/peer.rs:955-980 | The bytes of a response: id, status, size, payload |
| `Wire.VectoredWriteCursor.FillIoSlices` | src/backend/peer.rs:1045-1062 | The slices offered are together all that is not yet written |
| `Wire.WriteResponseParts` | src/backend/peer.rs:1080-1105 | However the socket cuts the writes up, the stream carries a prefix of header and payload; success means all of it and a flush; and a socket that neither fails nor closes gets as many bytes as it has room for, up to the whole |
| `Session.OwnReply` | src/backend/peer.rs:414-479 | In every run, with any response order, timeouts, write errors and closes: a caller that gets Ok gets a response with its own id and, unless the server has read something else under that id, which it has not on a clean stream, its answer to the very request made |
| `Session.DeliveredOnce` | src/backend/peer.rs:364-393 | Each id is delivered at most once, and never while its sender is anywhere else |
| `Session.PendingUnreturned` | src/backend/peer.rs:414-479 | The pending map holds only ids of requests that have not returned |
| `Session.InflightIsExact` | src/backend/peer.rs:428-463 | `inflight` is the number of requests between its increment and its decrement |
| `Session.WaiterHasSender` | src/backend/peer.rs:459-470 | A request waiting without an answer has a live sender, so "response channel closed" cannot arise; after close and reader have ended, that sender is in the pending map |
| `Session.PendingAfterClose` | src/backend/peer.rs:364-393 | Whoever is in the pending map after a close was not when the close emptied it: it registered too late to be failed |
| `Session.ServerReadsTheCalls` | src/backend/peer.rs:3157-3179 | In every run: the server has read exactly the requests written in full before the first torn frame, in order, iff the stream is clean; each of them is one that a caller made |
| `Session.ServerReadsWholeIff` | src/backend/peer.rs:428-457 | The same of any bytes that writes leave on a stream: exact, a frame being torn anywhere and any number of writes following |
| `Session.NothingBehindTearIsClean` | src/backend/peer.rs:428-457 | In particular a stream is clean if no byte follows a torn frame |
| `Session.TornFrameIsNoRequest` | src/backend/peer.rs:3157-3179 | A frame cut short anywhere is never taken for a request |
| `Session.StepKeepsInv` | src/backend/peer.rs:364-491 | Every step of callers, reader, closer and server keeps the session invariant |
| `Session.RunKeepsInv` | src/backend/peer.rs:364-491 | The session invariant holds along every run |
| `Session.ClosedAndReturnedAreFinal` | src/backend/peer.rs:481-491 | No step reopens a session or changes what a caller was given |
| `Session.CallOutcome` | src/backend/peer.rs:414-479 | In every run: a call that returns an error leaves the session closed; one that returns Ok has neither broken off its write nor given up waiting, and its frame is on the stream in full |
| `Session.ReaderLeaves` | src/backend/peer.rs:364-393 | An error of the stream, or a response that no one waits for, makes the reader leave its loop for good and see the session closed; any other response goes to its caller |
| `Session.NoneBeginAfterClose` | src/backend/peer.rs:414-430 | Once a session is closed no call begins on it but those that had seen it open before |
| `Misrouting.MisrouteIff` | src/backend/peer.rs:414-479 | Exact, for whatever any run leaves on the stream: some run that leaves just that gives a caller Ok with the answer to something else iff the server has read, under the id of a request written in full, something else |
| `Misrouting.TornFrameMisroutes` | src/backend/peer.rs:428-457 | Counterexample, for each cut of a frame after 17 to 40 bytes: a run in which a caller returns Ok with the answer to a request that no one made |
| `OwnerIndex.RegisterExact` | src/backend/peer.rs:1232-1246 | At most the allowed number of owners afterwards; whoever is left besides the caller is a live owner with the score it had, expired ones being gone; the caller, if left, has the time as its score; it is left, and the script returns 1, iff fewer than that many live owners rank above it |
| `OwnerIndex.RankOrder` | src/backend/peer.rs:1232-1246 | Members rank by score and, within one score, by their bytes |
| `OwnerIndex.AtMostThreeOwners` | src/backend/peer.rs:1421-1531 | After any sequence of registrations, removals and expiries by any nodes a chunk has at most three owners |
| `OwnerIndex.RegisterEvictsIff` | src/backend/peer.rs:1232-1246 | A registration drops a live owner iff the allowed number of others rank above it, the caller's new score among them |
| `OwnerIndex.SyncEvictsIff` | src/backend/peer.rs:1533-1549 | A synchronisation whose lookup and registration see any two states drops a live owner iff its lookup showed room, not itself, and by then three live owners rank above that one |
| `OwnerIndex.RegistersIff` | src/backend/peer.rs:1533-1549 | It registers iff its lookup, which shows owners heard of within the time to live, shows fewer than three and not itself |
| `OwnerIndex.SyncExact` | src/backend/peer.rs:1533-1549 | What it leaves: everything as it was, or at most three owners: live ones with the scores they had, and itself at the time of registration if it ranks |
| `OwnerIndex.LeavingExact` | src/backend/peer.rs:1499-1525 | A node that unregisters is gone and takes no one with it |
| `OwnerIndex.SyncEvictsNoLiveOwner` | src/backend/peer.rs:1533-1549 | One into which nothing interleaves drops none, and registers whenever the lookup shows room |
| `OwnerIndex.InterleavedSyncCanEvict` | src/backend/peer.rs:1533-1549 | Counterexample: it sees no owner, three nodes register, one of which it then drops |
| `Nydus.CheckedRangeIsSlice` | src/image/nydus.rs:500-512 | The size granted is the length of the file's part in the range asked for; overflow and non-files are refused |
| `Nydus.NydusImage.ReadBlobRange` | src/image/nydus.rs:312-328 | Short reads are made up for: a range inside the blob is read unless a fetch fails or yields nothing, and success means exactly that range |
| `Nydus.NydusImage.ReadChunkData` | src/image/nydus.rs:331-376 | Success yields what the chunk's description says it holds, and comes if it holds anything and the fetches deliver |
| `Nydus.NydusImage.ContentsExact` | src/image/nydus.rs:331-376 | What a description says a chunk holds: the first bytes of its place in the blob, or what that decompresses to if not longer than stated, or zeros without a place; nothing if encrypted or batched |
| `Nydus.NydusImage.ReadFromChunkDb` | src/image/nydus.rs:396-414 | It hits iff the chunk is stored and long enough and the write does not fail, and then writes the piece; every failure writes nothing and counts as a miss |
| `Nydus.NydusImage.ReadFromEither` | src/image/nydus.rs:545-574 | A hit fetches nothing from the blob; after a miss, a chunk that was read whole is queued for the store if there is room |
| `Nydus.NydusImage.ReadChunkIntoWriter` | src/image/nydus.rs:516-574 | `total + remaining` is conserved; on success the writer gets the wanted part of the chunk, or a first part of that; only a whole true chunk is queued for the store |
| `Nydus.NydusImage.ReadChunks` | src/image/nydus.rs:658-685 | The loop, for any takes of the writer: on success it has written what `Pieces` says, with one write for each chunk gone through; it succeeds unless a write or a fetch fails |
| `Nydus.PiecesChain` | src/image/nydus.rs:658-685 | The pieces follow each other through the file: each begins where the one before was to end, and writes a first part of what was wanted |
| `Nydus.NydusImage.Read` | src/image/nydus.rs:658-685 | It reports as many bytes as it has written; on an image that describes the file, across any boundaries and from store and blobs in any mixture, what it writes is the function `Assembled` of what its writes take; it succeeds unless refused or a write or fetch fails; store and queue stay true |
| `Nydus.NydusImage.AssembledInOrder` | src/image/nydus.rs:658-685 | If nothing is cut short that is exactly file[offset..offset+read_size); if nothing is written behind a cut, a first part of it as long as the count |
| `Nydus.WholeReadIsFile` | src/image/nydus.rs:658-685 | Pieces none of which is cut are together the file's range |
| `Nydus.NydusImage.QueueStaysTrue` | src/image/nydus.rs:379-394 | What is queued for the store is true of the image, if its digests name contents |
| `Nydus.InOrderIff` | src/image/nydus.rs:516-574 | What a read writes is a part of the file in order, whatever the file, iff no write behind a cut one takes anything |
| `Nydus.SkippingRead` | src/image/nydus.rs:516-574 | Counterexample: a read of a file of two chunks, whose first write takes one byte, returns Ok and has skipped a byte |
| `Nydus.RunStoreWorker` | src/image/nydus.rs:95-133 | Everything received goes to the store, in order, in batches of 1 to 64 |

## Left out

- `Dedup.DedupReader.DedupRangeOf`: does not take a checksum from its caller; that branch of `dedup` is part of the state machine `ReadPath` (`LookUpChunk`), with the truth of the checksum as its guard.
- `Dedup.DedupReader.Fetch`: one thread at a time; interleavings are the subject of `ReadPath`, where the effects of the methods are split into steps.
- `Dedup.DedupReader.TryDedupChunk`: one thread at a time; several at once are the subject of `DedupQueue`.
- `Collectors.GcExpired`: nothing else changes the store between its scan and its deletions; otherwise `Collectors.LateDeletionIff` says which chunks go, and `ChunkStore.DeleteKeepsMirrorIff` what stale keys leave behind.
- `Collectors.GcWorker.Run`: no one else adds entries meanwhile; otherwise the loop need not end.
- `Writer.WriterThread.Run`: has no more rounds than the clock readings it is given; replies to callers and the registration of added chunks with the index are not modelled, only that a caller waits for its reply before the store can be dropped.
- `CacheProtocol.NoDeadlock`: says that progress is possible, not that the scheduler is fair; the timeout of a wait is a step that may or may not be taken.
- `Session.OwnReply`: request ids are 64 bits in the code and would repeat after 2^64 requests on one session; the model's session draws no more than that. Batches are smaller than 2^32 checksums (`Wire.OutgoingWellFormed`).
- `OwnerIndex.SyncEvictsIff`: one chunk at a time; pipelining over many chunks, retries and the reload of the script are left out.
- The in-place write of a FUSE read (`write_to_fuse_writer`) takes the same segments as `fetch`; only the buffer form is modelled.
- Prefetching a chunk from a peer ends in a checked add (src/backend/peer.rs:2855-2874) and is the action `AddChunk` of `ReadPath`; which peers are asked, their scores and their round trip times are not modelled.
- The session pool (which session a request takes, idle sessions, the bound that `acquire` does not keep), keep-alive and timeouts as durations: a timeout is a step that may happen.
- The choice between handlers for a request and what they answer: the server may answer anything, tagged with the request's id.
- Freshness of owner lookups: a listed owner need not have the chunk; the check of the hash is what protects the store.
- `EmptyBackend` and images whose chunk was punched and then evicted: nothing is claimed.
- Opening of files and databases, mmap, hole punching and LMDB internals, power loss, other processes on the same LMDB environment, panics and cancellation.
- FUSE mounting, directories, attributes, command line, logging, metrics, statistics, decompression and digests of Nydus images: no effect on the state that matters here, or only easy claims.
