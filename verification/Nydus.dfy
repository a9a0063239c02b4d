/** Files of a Nydus image: a read assembled from chunks, which come from the chunk store or from
    the blobs, and the worker that feeds chunks read from the blobs to the store. */
module Nydus {
  import opened Basics
  import opened Bytes
  import opened CheckSums

  const CHUNK_STORE_REQ_BUF_SIZE: nat := 4096
  const CHUNK_STORE_BATCH_SIZE: nat := 64

  datatype Error = InvalidInput | IsDirectory | InvalidData | Unsupported | UnexpectedEof | NotFound | IoError

  datatype Result<T> = Ok(value: T) | Err(error: Error)

  datatype ChunkInfo = ChunkInfo(cs: CheckSum, blobIndex: nat, compressedOffset: nat, compressedSize: nat,
                                 uncompressedSize: nat, compressed: bool, encrypted: bool, batch: bool)

  datatype Inode = Inode(isReg: bool, size: nat, chunks: seq<ChunkInfo>)

  /** `check_read_range`. */
  function CheckReadRange(inode: Inode, size: u32, offset: u64): Result<nat> {
    if offset + size >= 0x1_0000_0000_0000_0000 then Err(InvalidInput)
    else if !inode.isReg then Err(IsDirectory)
    else if size == 0 || offset >= inode.size then Ok(0)
    else Ok(MinOf(size, inode.size - offset))
  }

  /** It answers with the length of the file's part in the range asked for. */
  lemma CheckedRangeIsSlice(inode: Inode, file: seq<byte>, size: u32, offset: u64)
    requires inode.size == |file|
    ensures var r := CheckReadRange(inode, size, offset);
            if offset + size < 0x1_0000_0000_0000_0000 && inode.isReg
            then r == Ok(|file[MinOf(offset, |file|)..MinOf(offset + size, |file|)]|)
            else r.Err?
  {
  }

  /** What a write does: it takes so many bytes, if there are as many, or fails and takes none. */
  datatype Take = Takes(n: nat) | Fails

  /** Where the data goes; `takes` says what the i-th write does. */
  class Writer {
    const takes: nat -> Take
    var calls: nat
    var out: seq<byte>

    constructor (takes: nat -> Take)
      ensures this.takes == takes && calls == 0 && out == []
    {
      this.takes, calls, out := takes, 0, [];
    }

    method Write(data: seq<byte>) returns (r: Option<nat>)
      modifies this
      ensures calls == old(calls) + 1
      ensures match takes(old(calls))
              case Fails => r.None? && out == old(out)
              case Takes(n) => r == Some(MinOf(n, |data|)) && out == old(out) + data[..MinOf(n, |data|)]
    {
      var take := takes(calls);
      calls := calls + 1;
      if take.Fails? {
        return None;
      }
      var n := if take.n < |data| then take.n else |data|;
      out := out + data[..n];
      return Some(n);
    }
  }

  /** What the writes from `from` on and before `end` took, those that failed left out. */
  function Taken(takes: nat -> Take, from: nat, end: nat): seq<nat>
    decreases end
  {
    if end <= from then []
    else Taken(takes, from, end - 1) + match takes(end - 1) case Takes(n) => [n] case Fails => []
  }

  lemma {:induction false} TakenBoth(takes: nat -> Take, from: nat, mid: nat, end: nat)
    requires from <= mid <= end
    ensures Taken(takes, from, end) == Taken(takes, from, mid) + Taken(takes, mid, end)
    decreases end
  {
    if mid < end { TakenBoth(takes, from, mid, end - 1); }
  }

  /** What a fetch from a blob does: it reads so many bytes, if there are as many, or fails. */
  datatype Fetched = Reads(n: nat) | Breaks

  predicate Delivers(f: Fetched) {
    f.Reads? && f.n > 0
  }

  // ---- What a read writes, as a function of what its writes take ---------------------------------------------

  /** One write of a read: from where in the file, how many bytes it was offered, and how many it took. */
  datatype Piece = Piece(from: nat, wanted: nat, n: nat)

  /** A read up to `limit` of a file of `size` bytes that is cut into chunks of `chunkSize`. */
  datatype Span = Span(chunkSize: nat, size: nat, limit: nat) {
    predicate Valid() {
      chunkSize > 0 && limit <= size
    }

    /** Are there chunks to come, the next part wanted being at `from`? */
    predicate Goes(from: nat, remaining: nat) {
      remaining > 0 && from < limit
    }

    /** How many bytes it wants of a chunk that ends at `end`, with so many to go. */
    function Wanted(from: nat, end: nat, remaining: nat): (n: nat)
      requires from < end && from < size
    {
      MinOf(remaining, MinOf(end, size) - from)
    }
  }

  /** The writes, chunk after chunk: the first of these chunks is wanted from `from` on and ends at `end`;
      `takes` is what the writes take. */
  function Pieces(s: Span, from: nat, end: nat, remaining: nat, takes: seq<nat>): seq<Piece>
    requires s.Valid() && from < end
    decreases |takes|
  {
    if takes == [] || !s.Goes(from, remaining) then []
    else
      var wanted := s.Wanted(from, end, remaining);
      var n := MinOf(takes[0], wanted);
      [Piece(from, wanted, n)] + Pieces(s, end, end + s.chunkSize, remaining - n, takes[1..])
  }

  /** One write for every chunk there is to go through. */
  predicate WentThrough(s: Span, from: nat, end: nat, remaining: nat, takes: seq<nat>)
    requires s.Valid() && from < end
    decreases |takes|
  {
    if !s.Goes(from, remaining) then takes == []
    else
      takes != []
      && WentThrough(s, end, end + s.chunkSize, remaining - MinOf(takes[0], s.Wanted(from, end, remaining)), takes[1..])
  }

  /** The offers lie in the file one behind the other, from `at` on. */
  predicate Chain(ps: seq<Piece>, at: nat, size: nat) {
    ps == []
    || (ps[0].from == at && ps[0].n <= ps[0].wanted && 0 < ps[0].wanted && at + ps[0].wanted <= size
        && Chain(ps[1..], at + ps[0].wanted, size))
  }

  lemma {:induction false} PiecesChain(s: Span, from: nat, end: nat, remaining: nat, takes: seq<nat>)
    requires s.Valid() && from < end && (s.Goes(from, remaining) ==> s.limit - from <= remaining)
    ensures Chain(Pieces(s, from, end, remaining, takes), from, s.size)
    decreases |takes|
  {
    if takes != [] && s.Goes(from, remaining) {
      var wanted := s.Wanted(from, end, remaining);
      var n := MinOf(takes[0], wanted);
      var rest := Pieces(s, end, end + s.chunkSize, remaining - n, takes[1..]);
      PiecesChain(s, end, end + s.chunkSize, remaining - n, takes[1..]);
      assert rest == [] || wanted == end - from;
      assert Pieces(s, from, end, remaining, takes)[1..] == rest;
    }
  }

  /** The bytes written. */
  function Written(file: seq<byte>, ps: seq<Piece>, at: nat): seq<byte>
    requires Chain(ps, at, |file|)
  {
    if ps == [] then []
    else file[at..at + ps[0].n] + Written(file, ps[1..], at + ps[0].wanted)
  }

  function Total(ps: seq<Piece>): nat {
    if ps == [] then 0 else ps[0].n + Total(ps[1..])
  }

  /** No write follows one that took only a part of what it was offered. */
  predicate OnlyLastCut(ps: seq<Piece>) {
    ps == [] || ((ps[0].n >= ps[0].wanted || Total(ps[1..]) == 0) && OnlyLastCut(ps[1..]))
  }

  predicate NoneCut(ps: seq<Piece>) {
    ps == [] || (ps[0].n >= ps[0].wanted && NoneCut(ps[1..]))
  }

  /** The file's bytes from `at` on, in order. */
  predicate InOrder(file: seq<byte>, at: nat, written: seq<byte>) {
    at + |written| <= |file| && written == file[at..at + |written|]
  }

  lemma {:induction false} NothingMoreIsLast(ps: seq<Piece>)
    requires Total(ps) == 0
    ensures OnlyLastCut(ps)
  {
    if ps != [] { NothingMoreIsLast(ps[1..]); }
  }

  lemma {:induction false} WrittenLength(file: seq<byte>, ps: seq<Piece>, at: nat)
    requires Chain(ps, at, |file|)
    ensures |Written(file, ps, at)| == Total(ps)
  {
    if ps != [] { WrittenLength(file, ps[1..], at + ps[0].wanted); }
  }

  lemma JoinedInOrder(file: seq<byte>, p: nat, n: nat, rest: seq<byte>)
    requires p + n <= |file| && (rest == [] || InOrder(file, p + n, rest))
    ensures InOrder(file, p, file[p..p + n] + rest)
  {
  }

  /** With only the last write cut, what is written is the file's, in order. */
  lemma {:induction false} OnlyLastCutInOrder(file: seq<byte>, ps: seq<Piece>, at: nat)
    requires at <= |file| && Chain(ps, at, |file|) && OnlyLastCut(ps)
    ensures InOrder(file, at, Written(file, ps, at))
  {
    if ps != [] {
      OnlyLastCutInOrder(file, ps[1..], at + ps[0].wanted);
      WrittenLength(file, ps[1..], at + ps[0].wanted);
      JoinedInOrder(file, at, ps[0].n, Written(file, ps[1..], at + ps[0].wanted));
    }
  }

  /** Where the first byte of what is written comes from. */
  function FirstFrom(ps: seq<Piece>): nat {
    if ps == [] then 0 else if ps[0].n > 0 then ps[0].from else FirstFrom(ps[1..])
  }

  lemma {:induction false} FirstByte(file: seq<byte>, ps: seq<Piece>, at: nat)
    requires Chain(ps, at, |file|) && Total(ps) > 0
    ensures at <= FirstFrom(ps) < |file| && Written(file, ps, at) != []
    ensures Written(file, ps, at)[0] == file[FirstFrom(ps)]
  {
    if ps[0].n == 0 { FirstByte(file, ps[1..], at + ps[0].wanted); }
  }

  /** The byte that a gap misplaces: its place in what is written, and its place in the file. */
  function Misplaced(ps: seq<Piece>): (nat, nat) {
    if ps == [] then (0, 0)
    else if ps[0].n < ps[0].wanted && Total(ps[1..]) > 0 then (ps[0].n, FirstFrom(ps[1..]))
    else
      var (k, q) := Misplaced(ps[1..]);
      (ps[0].n + k, q)
  }

  /** If a write follows one that was cut short, some byte written comes from too far on in the file. */
  lemma {:induction false} GapShows(file: seq<byte>, ps: seq<Piece>, at: nat)
    requires Chain(ps, at, |file|) && !OnlyLastCut(ps)
    ensures var (k, q) := Misplaced(ps);
            at + k < q < |file| && k < |Written(file, ps, at)| && Written(file, ps, at)[k] == file[q]
  {
    var next := at + ps[0].wanted;
    if ps[0].n < ps[0].wanted && Total(ps[1..]) > 0 {
      FirstByte(file, ps[1..], next);
    } else {
      if Total(ps[1..]) == 0 { NothingMoreIsLast(ps[1..]); }
      GapShows(file, ps[1..], next);
    }
  }

  /** Exactly when a read is right: its writes give the bytes of every file in order if and only if none
      follows one that was cut short. */
  lemma InOrderIff(ps: seq<Piece>, at: nat, size: nat)
    requires at <= size && Chain(ps, at, size)
    ensures (forall file: seq<byte> :: |file| == size ==> InOrder(file, at, Written(file, ps, at))) <==> OnlyLastCut(ps)
  {
    if OnlyLastCut(ps) {
      forall file: seq<byte> | |file| == size ensures InOrder(file, at, Written(file, ps, at)) {
        OnlyLastCutInOrder(file, ps, at);
      }
    } else {
      var (k, q) := Misplaced(ps);
      GapShows(Zeros(size), ps, at);
      var file := Zeros(size)[q := 1];
      GapShows(file, ps, at);
      assert !InOrder(file, at, Written(file, ps, at));
    }
  }

  /** A read that has gone through its chunks without a cut write has got all of its range. */
  lemma {:induction false} NoneCutIsWhole(s: Span, from: nat, end: nat, remaining: nat, takes: seq<nat>)
    requires s.Valid() && from < end && from <= s.limit && remaining == s.limit - from
    requires WentThrough(s, from, end, remaining, takes) && NoneCut(Pieces(s, from, end, remaining, takes))
    ensures OnlyLastCut(Pieces(s, from, end, remaining, takes))
              && Total(Pieces(s, from, end, remaining, takes)) == remaining
    decreases |takes|
  {
    if from < s.limit {
      var wanted := s.Wanted(from, end, remaining);
      var ps, rest := Pieces(s, from, end, remaining, takes),
          Pieces(s, end, end + s.chunkSize, remaining - wanted, takes[1..]);
      assert ps[0].n == wanted && ps[1..] == rest;
      if wanted == end - from {
        NoneCutIsWhole(s, end, end + s.chunkSize, remaining - wanted, takes[1..]);
      } else {
        assert rest == [];
      }
    }
  }

  /** It has written exactly file[from..limit). */
  lemma WholeReadIsFile(file: seq<byte>, s: Span, from: nat, end: nat, takes: seq<nat>)
    requires s.Valid() && |file| == s.size && from < end && from <= s.limit
    requires var ps := Pieces(s, from, end, s.limit - from, takes);
             NoneCut(ps) && WentThrough(s, from, end, s.limit - from, takes) && Chain(ps, from, |file|)
    ensures Written(file, Pieces(s, from, end, s.limit - from, takes), from) == file[from..s.limit]
  {
    var ps := Pieces(s, from, end, s.limit - from, takes);
    NoneCutIsWhole(s, from, end, s.limit - from, takes);
    OnlyLastCutInOrder(file, ps, from);
    WrittenLength(file, ps, from);
  }

  // ---- Piece by piece ----------------------------------------------------------------------------------------

  /** Having made one write for each of `takes`, the read has got to `from`, in a chunk that ends at `end`. */
  predicate GotTo(s: Span, from0: nat, end0: nat, remaining0: nat, takes: seq<nat>, from: nat, end: nat, remaining: nat)
    requires s.Valid() && from0 < end0
    decreases |takes|
  {
    if takes == [] then from0 == from && end0 == end && remaining0 == remaining
    else
      s.Goes(from0, remaining0)
      && GotTo(s, end0, end0 + s.chunkSize, remaining0 - MinOf(takes[0], s.Wanted(from0, end0, remaining0)), takes[1..],
               from, end, remaining)
  }

  lemma {:induction false} GotToNext(s: Span, from0: nat, end0: nat, remaining0: nat, takes: seq<nat>, t: nat,
                                     from: nat, end: nat, remaining: nat)
    requires s.Valid() && from0 < end0 && from < end && s.Goes(from, remaining)
    requires GotTo(s, from0, end0, remaining0, takes, from, end, remaining)
    ensures var wanted := s.Wanted(from, end, remaining);
            && GotTo(s, from0, end0, remaining0, takes + [t], end, end + s.chunkSize, remaining - MinOf(t, wanted))
            && Pieces(s, from0, end0, remaining0, takes + [t])
               == Pieces(s, from0, end0, remaining0, takes) + [Piece(from, wanted, MinOf(t, wanted))]
    decreases |takes|
  {
    var more := takes + [t];
    if takes == [] {
      assert more == [t] && more[1..] == [];
    } else {
      var n := MinOf(takes[0], s.Wanted(from0, end0, remaining0));
      assert more[0] == takes[0] && more[1..] == takes[1..] + [t];
      GotToNext(s, end0, end0 + s.chunkSize, remaining0 - n, takes[1..], t, from, end, remaining);
    }
  }

  lemma {:induction false} GotToEnd(s: Span, from0: nat, end0: nat, remaining0: nat, takes: seq<nat>,
                                    from: nat, end: nat, remaining: nat)
    requires s.Valid() && from0 < end0 && !s.Goes(from, remaining)
    requires GotTo(s, from0, end0, remaining0, takes, from, end, remaining)
    ensures WentThrough(s, from0, end0, remaining0, takes)
    decreases |takes|
  {
    if takes != [] {
      var n := MinOf(takes[0], s.Wanted(from0, end0, remaining0));
      GotToEnd(s, end0, end0 + s.chunkSize, remaining0 - n, takes[1..], from, end, remaining);
    }
  }

  lemma {:induction false} ChainThen(ps: seq<Piece>, p: Piece, at: nat, size: nat)
    requires Chain(ps + [p], at, size)
    ensures Chain(ps, at, size) && p.from + p.n <= size && Total(ps + [p]) == Total(ps) + p.n
    decreases |ps|
  {
    if ps == [] {
      assert (ps + [p])[1..] == [];
    } else {
      assert (ps + [p])[0] == ps[0] && (ps + [p])[1..] == ps[1..] + [p];
      ChainThen(ps[1..], p, at + ps[0].wanted, size);
    }
  }

  lemma {:induction false} WrittenThen(file: seq<byte>, ps: seq<Piece>, p: Piece, at: nat)
    requires Chain(ps + [p], at, |file|) && Chain(ps, at, |file|) && p.from + p.n <= |file|
    ensures Written(file, ps + [p], at) == Written(file, ps, at) + file[p.from..p.from + p.n]
    decreases |ps|
  {
    if ps == [] {
      assert (ps + [p])[1..] == [];
    } else {
      var rest, next := ps[1..], at + ps[0].wanted;
      assert (ps + [p])[0] == ps[0] && (ps + [p])[1..] == rest + [p];
      WrittenThen(file, rest, p, next);
      Associate(file[at..at + ps[0].n], Written(file, rest, next), file[p.from..p.from + p.n]);
    }
  }

  lemma Associate(a: seq<byte>, b: seq<byte>, c: seq<byte>)
    ensures a + (b + c) == (a + b) + c
  {
  }

  /** The state of a read in its loop. */
  ghost predicate Reached(file: seq<byte>, s: Span, from0: nat, end0: nat, readSize: nat, takes: seq<nat>,
                          before: seq<byte>, out: seq<byte>, total: nat, from: nat, end: nat, remaining: nat)
  {
    s.Valid() && |file| == s.size && from0 < end0 && s.limit == from0 + readSize && total + remaining == readSize
    && GotTo(s, from0, end0, readSize, takes, from, end, remaining)
    && var ps := Pieces(s, from0, end0, readSize, takes);
       Chain(ps, from0, |file|) && total == Total(ps) && out == before + Written(file, ps, from0)
  }

  lemma BeginsAt(file: seq<byte>, s: Span, from: nat, end: nat, readSize: nat, before: seq<byte>)
    requires s.Valid() && |file| == s.size && from < end && s.limit == from + readSize
    ensures Reached(file, s, from, end, readSize, [], before, before, 0, from, end, readSize)
  {
    assert before + [] == before;
  }

  lemma OneMorePiece(file: seq<byte>, s: Span, from0: nat, end0: nat, readSize: nat, takes: seq<nat>, t: nat,
                     before: seq<byte>, out: seq<byte>, total: nat, from: nat, end: nat, remaining: nat)
    requires Reached(file, s, from0, end0, readSize, takes, before, out, total, from, end, remaining)
    requires from < end && s.Goes(from, remaining)
    ensures var n := MinOf(t, s.Wanted(from, end, remaining));
            Reached(file, s, from0, end0, readSize, takes + [t], before, out + file[from..from + n], total + n,
                    end, end + s.chunkSize, remaining - n)
  {
    var wanted := s.Wanted(from, end, remaining);
    var n := MinOf(t, wanted);
    var ps := Pieces(s, from0, end0, readSize, takes);
    GotToNext(s, from0, end0, readSize, takes, t, from, end, remaining);
    PiecesChain(s, from0, end0, readSize, takes + [t]);
    ChainThen(ps, Piece(from, wanted, n), from0, |file|);
    WrittenThen(file, ps, Piece(from, wanted, n), from0);
    Associate(before, Written(file, ps, from0), file[from..from + n]);
  }

  lemma ReachedEnd(file: seq<byte>, s: Span, from0: nat, end0: nat, readSize: nat, takes: seq<nat>,
                   before: seq<byte>, out: seq<byte>, total: nat, from: nat, end: nat, remaining: nat)
    requires Reached(file, s, from0, end0, readSize, takes, before, out, total, from, end, remaining)
    requires !s.Goes(from, remaining)
    ensures WentThrough(s, from0, end0, readSize, takes)
  {
    GotToEnd(s, from0, end0, readSize, takes, from, end, remaining);
  }

  // ---- The image ---------------------------------------------------------------------------------------------

  class NydusImage {
    const chunkSize: nat
    const blobs: map<nat, seq<byte>>
    /** The blob's decompressor, if it accepts the data. */
    const decompress: seq<byte> -> Option<seq<byte>>
    /** What the i-th fetch from a blob does, and how many there have been. */
    const fetches: nat -> Fetched
    var fetched: nat
    /** The chunk store, if there is one, and the queue to its worker. */
    var store: Option<map<CheckSum, seq<byte>>>
    var queue: seq<Chunk>

    constructor (chunkSize: nat, blobs: map<nat, seq<byte>>, decompress: seq<byte> -> Option<seq<byte>>,
                 fetches: nat -> Fetched, store: Option<map<CheckSum, seq<byte>>>)
      ensures this.chunkSize == chunkSize && this.blobs == blobs && this.decompress == decompress
      ensures this.fetches == fetches && fetched == 0 && this.store == store && queue == []
    {
      this.chunkSize, this.blobs, this.decompress, this.fetches := chunkSize, blobs, decompress, fetches;
      fetched, this.store, queue := 0, store, [];
    }

    /** What a chunk holds, according to its description. */
    function Contents(c: ChunkInfo): Option<seq<byte>> {
      if c.encrypted || c.batch then None
      else if c.uncompressedSize == 0 then Some([])
      else if c.compressedSize == 0 then Some(Zeros(c.uncompressedSize))
      else if c.blobIndex !in blobs || |blobs[c.blobIndex]| < c.compressedOffset + c.compressedSize then None
      else
        var stored := blobs[c.blobIndex][c.compressedOffset..c.compressedOffset + c.compressedSize];
        if !c.compressed then
          if |stored| < c.uncompressedSize then None else Some(stored[..c.uncompressedSize])
        else if decompress(stored).None? || |decompress(stored).value| > c.uncompressedSize then None
        else decompress(stored)
    }

    /** A chunk stored as it is holds the first bytes of its place in the blob; a compressed one what its place
        decompresses to, if that is no longer than it should be; one without a place, zeros. Encrypted and
        batched chunks cannot be read. */
    lemma ContentsExact(c: ChunkInfo, data: seq<byte>)
      requires c.blobIndex in blobs && c.uncompressedSize > 0
      ensures var blob, lo, hi := blobs[c.blobIndex], c.compressedOffset, c.compressedOffset + c.compressedSize;
              Contents(c) == Some(data) <==>
              && !c.encrypted && !c.batch && |data| <= c.uncompressedSize
              && (!c.compressed || c.compressedSize == 0 ==> |data| == c.uncompressedSize)
              && if c.compressedSize == 0 then forall i :: 0 <= i < |data| ==> data[i] == 0
                 else hi <= |blob| && if c.compressed then decompress(blob[lo..hi]) == Some(data)
                                      else data <= blob[lo..hi]
    {
      if c.compressedSize == 0 && |data| == c.uncompressedSize && forall i :: 0 <= i < |data| ==> data[i] == 0 {
        assert data == Zeros(c.uncompressedSize);
      }
      if c.compressedOffset + c.compressedSize <= |blobs[c.blobIndex]| {
        var stored := blobs[c.blobIndex][c.compressedOffset..c.compressedOffset + c.compressedSize];
        assert data <= stored ==> stored[..|data|] == data;
      }
    }

    /** The piece of `file` in chunk `i`; the last may be short. */
    ghost function PieceOf(file: seq<byte>, i: nat): seq<byte>
      requires i * chunkSize <= |file|
    {
      file[i * chunkSize..MinOf(i * chunkSize + chunkSize, |file|)]
    }

    /** The inode describes `file`, cut into pieces of the chunk size. */
    ghost predicate Describes(inode: Inode, file: seq<byte>) {
      && chunkSize > 0 && inode.size == |file|
      && forall i: nat {:trigger inode.chunks[i]} {:trigger PieceOf(file, i)} :: i * chunkSize < |file| ==>
           i < |inode.chunks| && Contents(inode.chunks[i]) == Some(PieceOf(file, i))
           && inode.chunks[i].uncompressedSize == |PieceOf(file, i)| && inode.chunks[i].blobIndex in blobs
    }

    /** Data under the checksum of a chunk of `file` is that chunk. */
    ghost predicate TrueData(inode: Inode, file: seq<byte>, cs: CheckSum, data: seq<byte>) {
      forall i: nat {:trigger inode.chunks[i]} ::
        i * chunkSize < |file| && i < |inode.chunks| && inode.chunks[i].cs == cs ==> data == PieceOf(file, i)
    }

    ghost predicate StoreTrue(inode: Inode, file: seq<byte>,
                              store: Option<map<CheckSum, seq<byte>>>, queue: seq<Chunk>) {
      && (store.Some? ==> forall cs :: cs in store.value ==> TrueData(inode, file, cs, store.value[cs]))
      && (forall q :: q in queue ==> TrueData(inode, file, q.0, q.1))
    }

    /** The image's digests name contents: equal digests, equal pieces. */
    ghost predicate DigestsName(inode: Inode, file: seq<byte>)
      requires Describes(inode, file)
    {
      forall i: nat {:trigger inode.chunks[i]} :: i * chunkSize < |file| && i < |inode.chunks| ==>
        TrueData(inode, file, inode.chunks[i].cs, PieceOf(file, i))
    }

    ghost predicate Good(inode: Inode, file: seq<byte>)
      reads this
    {
      Describes(inode, file) && DigestsName(inode, file) && StoreTrue(inode, file, store, queue)
    }

    /** The fetches from `from` on and before `end` have all delivered. */
    ghost predicate AllDeliver(from: nat, end: nat) {
      forall i :: from <= i < end ==> Delivers(fetches(i))
    }

    /** One fetch from a blob into a buffer; none is made past its end. */
    method Fetch(blob: seq<byte>, off: nat, buf: array<byte>, lo: nat) returns (r: Option<nat>)
      requires lo <= buf.Length
      modifies buf, this`fetched
      ensures fetched == old(fetched) + 1
      ensures forall k :: 0 <= k < lo ==> buf[k] == old(buf[k])
      ensures r.Some? <==> off <= |blob| && fetches(old(fetched)).Reads?
      ensures r.Some? ==> && r.value == MinOf(fetches(old(fetched)).n, MinOf(|blob| - off, buf.Length - lo))
                          && forall k :: lo <= k < lo + r.value ==> buf[k] == blob[off + (k - lo)]
    {
      var f := fetches(fetched);
      fetched := fetched + 1;
      if f.Breaks? || off > |blob| {
        return None;
      }
      var n := MinOf(f.n, MinOf(|blob| - off, buf.Length - lo));
      forall k | 0 <= k < n {
        buf[lo + k] := blob[off + k];
      }
      return Some(n);
    }

    /** `read_blob_range`: short reads are made up for. Success means exactly the range of the blob; and a
        range that lies in the blob is read, unless a fetch fails or delivers nothing. */
    method ReadBlobRange(blob: seq<byte>, offset: nat, size: nat) returns (r: Result<seq<byte>>)
      modifies this`fetched
      ensures fetched >= old(fetched)
      ensures r.Ok? ==> |r.value| == size
      ensures r.Ok? && size > 0 ==> offset + size <= |blob| && r.value == blob[offset..offset + size]
      ensures offset + size <= |blob| && AllDeliver(old(fetched), fetched) ==> r.Ok?
    {
      var buf := new byte[size](_ => 0);
      var read := 0;
      while read < size
        invariant fresh(buf) && read <= size && (read > 0 ==> offset + read <= |blob|) && fetched >= old(fetched)
        invariant forall k :: 0 <= k < read ==> buf[k] == blob[offset + k]
      {
        ghost var turn := fetched;
        var n := Fetch(blob, offset + read, buf, read);
        if n.None? {
          return Err(IoError);
        }
        if n.value == 0 {
          assert offset + size <= |blob| ==> !Delivers(fetches(turn));
          return Err(UnexpectedEof);
        }
        read := read + n.value;
      }
      return Ok(buf[..]);
    }

    /** `read_chunk_data`: what the chunk's description says it holds, unless a fetch fails. */
    method ReadChunkData(c: ChunkInfo) returns (r: Result<seq<byte>>)
      modifies this`fetched
      ensures fetched >= old(fetched)
      ensures r.Ok? ==> Contents(c) == Some(r.value)
      ensures Contents(c).Some? && AllDeliver(old(fetched), fetched) ==> r.Ok?
    {
      if c.encrypted || c.batch {
        return Err(Unsupported);
      }
      if c.uncompressedSize == 0 {
        return Ok([]);
      }
      if c.compressedSize == 0 {
        return Ok(Zeros(c.uncompressedSize));
      }
      if c.blobIndex !in blobs {
        return Err(NotFound);
      }
      var stored := ReadBlobRange(blobs[c.blobIndex], c.compressedOffset, c.compressedSize);
      if stored.Err? {
        return stored;
      }
      if !c.compressed {
        if |stored.value| < c.uncompressedSize {
          return Err(InvalidData);
        }
        return Ok(stored.value[..c.uncompressedSize]);
      }
      var data := decompress(stored.value);
      if data.None? || |data.value| > c.uncompressedSize {
        return Err(InvalidData);
      }
      return Ok(data.value);
    }

    /** `store_chunk_bg`: dropped if the queue is full. */
    method StoreChunkBg(cs: CheckSum, data: seq<byte>)
      modifies `queue
      ensures queue == if store.Some? && |old(queue)| < CHUNK_STORE_REQ_BUF_SIZE
                then old(queue) + [(cs, data)] else old(queue)
    {
      if store.Some? && |queue| < CHUNK_STORE_REQ_BUF_SIZE {
        queue := queue + [(cs, data)];
      }
    }

    /** `read_from_chunkdb`: every failure, also of the writer, counts as a miss. */
    method ReadFromChunkDb(cs: CheckSum, start: nat, len: nat, w: Writer) returns (r: Option<nat>)
      modifies w
      ensures w.calls >= old(w.calls)
      ensures r.Some? <==> && store.Some? && cs in store.value && start + len <= |store.value[cs]|
                           && w.takes(old(w.calls)).Takes?
      ensures r.None? ==> w.out == old(w.out) && Taken(w.takes, old(w.calls), w.calls) == []
      ensures r.Some? ==> && store.Some? && cs in store.value && start + len <= |store.value[cs]| && r.value <= len
                          && w.out == old(w.out) + store.value[cs][start..start + r.value]
                          && TookOne(w.takes, old(w.calls), w.calls, r.value, len)
    {
      if store.None? || cs !in store.value {
        return None;
      }
      var data := store.value[cs];
      if start + len > |data| {
        return None;
      }
      r := w.Write(data[start..start + len]);
      assert Taken(w.takes, old(w.calls), old(w.calls)) == [];
      assert r.Some? ==> data[start..start + len][..r.value] == data[start..start + r.value];
    }

    /** `data` is what the chunk's description or the store has for it. */
    ghost predicate DataOf(c: ChunkInfo, data: seq<byte>)
      reads this`store
    {
      Contents(c) == Some(data) || (store.Some? && c.cs in store.value && store.value[c.cs] == data)
    }

    /** The other way of `read_chunk_into_writer`: from the blob, and on to the store's queue. */
    method ReadFromBlob(c: ChunkInfo, start: nat, len: nat, w: Writer) returns (r: Result<nat>, ghost data: seq<byte>)
      modifies this`queue, this`fetched, w
      ensures w.calls >= old(w.calls) && fetched >= old(fetched)
      ensures r.Err? ==> w.out == old(w.out) && Taken(w.takes, old(w.calls), w.calls) == []
      ensures r.Ok? ==> && Contents(c) == Some(data) && start + len <= |data| && r.value <= len
                        && w.out == old(w.out) + data[start..start + r.value]
                        && TookOne(w.takes, old(w.calls), w.calls, r.value, len)
      ensures queue == if r.Ok? && |data| == c.uncompressedSize && store.Some?
                          && |old(queue)| < CHUNK_STORE_REQ_BUF_SIZE
                       then old(queue) + [(c.cs, data)] else old(queue)
      ensures (Contents(c).Some? && start + len <= |Contents(c).value|
               && AllDeliver(old(fetched), fetched) && NoneFails(w.takes, old(w.calls), w.calls)) ==> r.Ok?
    {
      data := [];
      assert Taken(w.takes, old(w.calls), old(w.calls)) == [];
      var found := ReadChunkData(c);
      if found.Err? {
        return Err(found.error), data;
      }
      if start + len > |found.value| {
        return Err(InvalidData), data;
      }
      data := found.value;
      var n := w.Write(found.value[start..start + len]);
      if n.None? {
        assert w.takes(old(w.calls)).Fails?;
        return Err(IoError), data;
      }
      assert data[start..start + len][..n.value] == data[start..start + n.value];
      if |found.value| == c.uncompressedSize {
        StoreChunkBg(c.cs, found.value);
      }
      return Ok(n.value), data;
    }

    /** From the store, or else from the blob. */
    method ReadFromEither(c: ChunkInfo, start: nat, len: nat, w: Writer) returns (r: Result<nat>, ghost data: seq<byte>)
      modifies this`queue, this`fetched, w
      ensures w.calls >= old(w.calls) && fetched >= old(fetched)
      ensures r.Err? ==> w.out == old(w.out) && Taken(w.takes, old(w.calls), w.calls) == []
      ensures r.Ok? ==> && DataOf(c, data) && start + len <= |data| && r.value <= len
                        && w.out == old(w.out) + data[start..start + r.value]
                        && TookOne(w.takes, old(w.calls), w.calls, r.value, len)
      ensures queue == old(queue) || (queue == old(queue) + [(c.cs, data)] && Contents(c) == Some(data))
      ensures var hit := && store.Some? && c.cs in store.value && start + len <= |store.value[c.cs]|
                         && w.takes(old(w.calls)).Takes?;
              && (hit ==> r.Ok? && fetched == old(fetched) && queue == old(queue))
              && ((!hit && r.Ok? && |data| == c.uncompressedSize && store.Some?
                   && |old(queue)| < CHUNK_STORE_REQ_BUF_SIZE) ==> queue == old(queue) + [(c.cs, data)])
      ensures (Contents(c).Some? && start + len <= |Contents(c).value|
               && AllDeliver(old(fetched), fetched) && NoneFails(w.takes, old(w.calls), w.calls)) ==> r.Ok?
    {
      var hit := ReadFromChunkDb(c.cs, start, len, w);
      if hit.Some? {
        return Ok(hit.value), store.value[c.cs];
      }
      ghost var before := w.calls;
      r, data := ReadFromBlob(c, start, len, w);
      TakenBoth(w.takes, old(w.calls), before, w.calls);
    }

    /** Nothing stands in the way of reading the chunk from `at` on: neither its description, nor a fetch,
        nor a write. */
    ghost predicate Readable(inode: Inode, idx: nat, at: nat, w: Writer, calls: nat, turn: nat)
      reads this`fetched, w`calls
    {
      && idx < |inode.chunks| && inode.chunks[idx].blobIndex in blobs
      && Contents(inode.chunks[idx]).Some?
          && at < |Contents(inode.chunks[idx]).value| == inode.chunks[idx].uncompressedSize
      && AllDeliver(turn, fetched) && NoneFails(w.takes, calls, w.calls)
    }

    /** Where in chunk `idx` a read from `offset` starts. */
    function Skip(offset: nat, idx: nat): nat {
      if offset > idx * chunkSize then offset - idx * chunkSize else 0
    }

    /** `read_chunk_into_writer`; `data` is the chunk as it was found. */
    method ReadChunkIntoWriter(inode: Inode, idx: nat, offset: nat, remaining: nat, total: nat, w: Writer)
        returns (r: Result<()>, remaining': nat, total': nat, ghost data: seq<byte>)
      modifies this`queue, this`fetched, w
      ensures remaining' + total' == remaining + total && total' >= total
              && w.calls >= old(w.calls) && fetched >= old(fetched)
      ensures r.Err? ==> total' == total && w.out == old(w.out) && Taken(w.takes, old(w.calls), w.calls) == []
      ensures r.Ok? ==>
                && idx < |inode.chunks| && DataOf(inode.chunks[idx], data)
                && Skip(offset, idx) < inode.chunks[idx].uncompressedSize
                && var at, n := Skip(offset, idx), total' - total;
                   var wanted := MinOf(remaining, inode.chunks[idx].uncompressedSize - at);
                   && 0 <= n <= wanted && at + wanted <= |data| && w.out == old(w.out) + data[at..at + n]
                   && TookOne(w.takes, old(w.calls), w.calls, n, wanted)
      ensures queue == old(queue)
              || (idx < |inode.chunks| && queue == old(queue) + [(inode.chunks[idx].cs, data)]
                  && Contents(inode.chunks[idx]) == Some(data))
      ensures Readable(inode, idx, Skip(offset, idx), w, old(w.calls), old(fetched)) ==> r.Ok?
    {
      remaining', total', data := remaining, total, [];
      if idx >= |inode.chunks| {
        return Err(NotFound), remaining', total', data;
      }
      var c := inode.chunks[idx];
      if c.blobIndex !in blobs {
        return Err(NotFound), remaining', total', data;
      }
      var base := idx * chunkSize;
      var chunkOffset := if offset > base then offset - base else 0;
      if chunkOffset >= c.uncompressedSize {
        return Err(InvalidData), remaining', total', data;
      }
      var wanted := MinOf(remaining, c.uncompressedSize - chunkOffset);
      var n;
      n, data := ReadFromEither(c, chunkOffset, wanted, w);
      if n.Err? {
        return Err(n.error), remaining', total', data;
      }
      return Ok(()), remaining - n.value, total + n.value, data;
    }

    /** Whether from the store or from the blob, a chunk's data is the file's. */
    lemma DataIsPiece(inode: Inode, file: seq<byte>, idx: nat, data: seq<byte>)
      requires Good(inode, file) && idx * chunkSize < |file| && idx < |inode.chunks| && DataOf(inode.chunks[idx], data)
      ensures data == PieceOf(file, idx) && inode.chunks[idx].uncompressedSize == |data|
    {
    }

    /** The part of the chunk's data that a read wants at `from` is the file's. */
    lemma PieceSlice(file: seq<byte>, idx: nat, from: nat, n: nat)
      requires idx * chunkSize <= from && from + n <= MinOf(idx * chunkSize + chunkSize, |file|)
                && idx * chunkSize <= |file|
      ensures from - idx * chunkSize + n <= |PieceOf(file, idx)|
      ensures PieceOf(file, idx)[from - idx * chunkSize..from - idx * chunkSize + n] == file[from..from + n]
    {
      var lo, hi := idx * chunkSize, MinOf(idx * chunkSize + chunkSize, |file|);
      assert PieceOf(file, idx) == file[lo..hi];
      SliceOfSlice(file, lo, hi, from - lo, n);
    }

    /** What is put on the queue is true of the image. */
    lemma QueueStaysTrue(inode: Inode, file: seq<byte>, store: Option<map<CheckSum, seq<byte>>>,
                         queue: seq<Chunk>, queue': seq<Chunk>, idx: nat, data: seq<byte>)
      requires Describes(inode, file) && DigestsName(inode, file) && StoreTrue(inode, file, store, queue)
      requires idx * chunkSize < |file|
      requires queue' == queue
               || (idx < |inode.chunks| && queue' == queue + [(inode.chunks[idx].cs, data)]
                   && Contents(inode.chunks[idx]) == Some(data))
      ensures StoreTrue(inode, file, store, queue')
    {
      assert idx < |inode.chunks| ==> TrueData(inode, file, inode.chunks[idx].cs, PieceOf(file, idx));
    }

    /** The next write of a read that has got to `from`, in chunk `idx`: it takes `n` of the bytes wanted,
        and they are the file's. */
    method NextPiece(inode: Inode, idx: nat, offset: nat, remaining: nat, total: nat, w: Writer, ghost file: seq<byte>,
                     ghost s: Span, ghost from: nat, ghost end: nat, ghost good: bool)
        returns (r: Result<()>, remaining': nat, total': nat, ghost t: nat)
      requires good ==> Good(inode, file) && s == Span(chunkSize, |file|, s.limit)
                        && s.Valid() && s.Goes(from, remaining)
      requires end == idx * chunkSize + chunkSize
      requires from == (if offset > idx * chunkSize then offset else idx * chunkSize) < end
      modifies this`queue, this`fetched, w
      ensures w.calls >= old(w.calls) && fetched >= old(fetched) && remaining' + total' == remaining + total
      ensures |w.out| == |old(w.out)| + total' - total
      ensures good ==> Good(inode, file)
      ensures good && r.Err? ==> remaining' == remaining && total' == total && w.out == old(w.out)
                                 && Taken(w.takes, old(w.calls), w.calls) == []
      ensures good && r.Ok? ==>
                && Taken(w.takes, old(w.calls), w.calls) == [t]
                && var n := MinOf(t, s.Wanted(from, end, remaining));
                   && remaining' == remaining - n && total' == total + n
                   && w.out == old(w.out) + file[from..from + n]
      ensures good && AllDeliver(old(fetched), fetched) && NoneFails(w.takes, old(w.calls), w.calls) ==> r.Ok?
    {
      ghost var data;
      r, remaining', total', data := ReadChunkIntoWriter(inode, idx, offset, remaining, total, w);
      t := if r.Ok? then Taken(w.takes, old(w.calls), w.calls)[0] else 0;
      if good {
        QueueStaysTrue(inode, file, store, old(queue), queue, idx, data);
        if r.Ok? {
          DataIsPiece(inode, file, idx, data);
          PieceSlice(file, idx, from, total' - total);
        }
      }
    }

    /** Where chunk `idx` starts in the file: at `idx * chunkSize`. */
    ghost function StartOf(idx: nat): nat {
      if idx == 0 then 0 else StartOf(idx - 1) + chunkSize
    }

    lemma {:induction false} StartIs(idx: nat)
      ensures StartOf(idx) == idx * chunkSize
    {
      if idx > 0 {
        StartIs(idx - 1);
        NextMultiple(idx - 1, chunkSize);
      }
    }

    lemma {:induction false} StartsGrow(i: nat, j: nat)
      requires i < j
      ensures StartOf(i) + chunkSize <= StartOf(j)
    {
      if i < j - 1 { StartsGrow(i, j - 1); }
    }

    /** The chunk of a byte of the file. */
    lemma ChunkOf(at: nat)
      requires chunkSize > 0
      ensures StartOf(at / chunkSize) <= at < StartOf(at / chunkSize) + chunkSize
    {
      StartIs(at / chunkSize);
      DivisionFloor(at, chunkSize);
    }

    /** The chunks that start before `limit` are those up to the one `last` of the byte before it. */
    lemma UpToLast(last: nat, limit: nat, idx: nat)
      requires StartOf(last) < limit <= StartOf(last) + chunkSize
      ensures idx <= last <==> StartOf(idx) < limit
    {
      if idx < last { StartsGrow(idx, last); }
      if last < idx { StartsGrow(last, idx); }
    }

    /** One round of the loop below. */
    method AddPiece(inode: Inode, idx: nat, offset: nat, remaining: nat, total: nat, w: Writer, ghost file: seq<byte>,
                    ghost s: Span, ghost from: nat, ghost end: nat, ghost first: nat, ghost readSize: nat,
                    ghost calls: nat, ghost taken: seq<nat>, ghost before: seq<byte>, ghost good: bool)
        returns (r: Result<()>, remaining': nat, total': nat, ghost taken': seq<nat>)
      requires good ==> Good(inode, file) && s == Span(chunkSize, |file|, s.limit)
                        && s.Valid() && s.Goes(from, remaining)
      requires end == StartOf(idx) + chunkSize && from == (if offset > StartOf(idx) then offset else StartOf(idx)) < end
      requires calls <= w.calls && taken == Taken(w.takes, calls, w.calls)
      requires good ==> Reached(file, s, offset, first, readSize, taken, before, w.out, total, from, end, remaining)
      modifies this`queue, this`fetched, w
      ensures w.calls >= old(w.calls) && fetched >= old(fetched) && remaining' + total' == remaining + total
      ensures |w.out| == |old(w.out)| + total' - total
      ensures taken' == Taken(w.takes, calls, w.calls)
      ensures good ==> Good(inode, file)
      ensures good && r.Ok? ==>
                Reached(file, s, offset, first, readSize, taken', before, w.out, total',
                        end, end + chunkSize, remaining')
      ensures good && AllDeliver(old(fetched), fetched) && NoneFails(w.takes, old(w.calls), w.calls) ==> r.Ok?
    {
      StartIs(idx);
      ghost var out, turn := w.out, w.calls;
      ghost var t;
      r, remaining', total', t := NextPiece(inode, idx, offset, remaining, total, w, file, s, from, end, good);
      TakenBoth(w.takes, calls, turn, w.calls);
      taken' := Taken(w.takes, calls, w.calls);
      if good && r.Ok? {
        OneMorePiece(file, s, offset, first, readSize, taken, t, before, out, total, from, end, remaining);
      }
    }

    /** The loop of `read`: one write for each chunk, as many as there are to go through. `from` and `end`
        are where it gets to, with `remaining` to go. */
    method ReadPieces(inode: Inode, start: nat, last: nat, readSize: nat, offset: nat, w: Writer,
                      ghost file: seq<byte>, ghost s: Span, ghost good: bool)
        returns (r: Result<()>, total: nat, remaining: nat, ghost taken: seq<nat>, ghost from: nat, ghost end: nat)
      requires readSize > 0 && StartOf(start) <= offset < StartOf(start) + chunkSize
      requires StartOf(last) < offset + readSize <= StartOf(last) + chunkSize
      requires good ==> Good(inode, file) && s == Span(chunkSize, |file|, offset + readSize) && s.Valid()
      modifies this`queue, this`fetched, w
      ensures w.calls >= old(w.calls) && fetched >= old(fetched)
      ensures total + remaining == readSize && |w.out| == |old(w.out)| + total
      ensures taken == Taken(w.takes, old(w.calls), w.calls)
      ensures good ==> Good(inode, file)
      ensures good && r.Ok? ==>
                && !s.Goes(from, remaining)
                && Reached(file, s, offset, StartOf(start) + chunkSize, readSize, taken, old(w.out), w.out, total,
                           from, end, remaining)
      ensures good && AllDeliver(old(fetched), fetched) && NoneFails(w.takes, old(w.calls), w.calls) ==> r.Ok?
    {
      var idx := start;
      total, remaining, r := 0, readSize, Ok(());
      ghost var before, calls, first := w.out, w.calls, StartOf(idx) + chunkSize;
      from, end, taken := offset, first, [];
      UpToLast(last, offset + readSize, idx);
      if good {
        BeginsAt(file, s, offset, first, readSize, before);
      }
      while idx <= last && remaining != 0
        invariant r.Ok? && idx <= last + 1 && w.calls >= calls && fetched >= old(fetched)
        invariant total + remaining == readSize && |w.out| == |before| + total
        invariant from == (if offset > StartOf(idx) then offset else StartOf(idx)) < end == StartOf(idx) + chunkSize
        invariant idx <= last <==> StartOf(idx) < offset + readSize
        invariant good ==> Good(inode, file)
        invariant taken == Taken(w.takes, calls, w.calls)
        invariant good ==> Reached(file, s, offset, first, readSize, taken, before, w.out, total, from, end, remaining)
      {
        r, remaining, total, taken := AddPiece(inode, idx, offset, remaining, total, w, file, s, from, end, first,
                                               readSize, calls, taken, before, good);
        if r.Err? {
          return;
        }
        idx := idx + 1;
        UpToLast(last, offset + readSize, idx);
        from, end := end, end + chunkSize;
      }
    }

    /** `read`, once it is known how many bytes: the chunks it goes through, and what that comes to. */
    method ReadChunks(inode: Inode, readSize: nat, offset: nat, w: Writer, ghost file: seq<byte>, ghost good: bool)
        returns (r: Result<nat>)
      requires chunkSize > 0 && 0 < readSize && (good ==> Good(inode, file) && offset + readSize <= |file|)
      modifies this`queue, this`fetched, w
      ensures w.calls >= old(w.calls) && fetched >= old(fetched)
      ensures r.Ok? ==> |w.out| == |old(w.out)| + r.value && r.value <= readSize
      ensures good ==> Good(inode, file)
      ensures good && r.Ok? ==>
                Assembled(file, offset, readSize, Taken(w.takes, old(w.calls), w.calls), old(w.out), w.out, r.value)
      ensures good && AllDeliver(old(fetched), fetched) && NoneFails(w.takes, old(w.calls), w.calls) ==> r.Ok?
    {
      var start, last := offset / chunkSize, (offset + readSize - 1) / chunkSize;
      ChunkOf(offset);
      ChunkOf(offset + readSize - 1);
      StartIs(start);
      ghost var s, before := Span(chunkSize, |file|, offset + readSize), w.out;
      ghost var taken, from, end;
      var done, total, remaining;
      done, total, remaining, taken, from, end := ReadPieces(inode, start, last, readSize, offset, w, file, s, good);
      if done.Err? {
        return Err(done.error);
      }
      if good {
        AssembledAtEnd(file, s, offset, StartOf(start) + chunkSize, readSize, taken, before, w.out, total,
                       from, end, remaining);
      }
      return Ok(total);
    }

    /** What a read of `readSize` bytes from `offset` has written when its writes took `takes`. */
    ghost predicate Assembled(file: seq<byte>, offset: nat, readSize: nat, takes: seq<nat>,
                              before: seq<byte>, out: seq<byte>, total: nat)
    {
      chunkSize > 0 && offset + readSize <= |file|
      && var s, end := Span(chunkSize, |file|, offset + readSize), offset / chunkSize * chunkSize + chunkSize;
         && offset < end && WentThrough(s, offset, end, readSize, takes)
         && var ps := Pieces(s, offset, end, readSize, takes);
            Chain(ps, offset, |file|) && total == Total(ps) && out == before + Written(file, ps, offset)
    }

    lemma AssembledAtEnd(file: seq<byte>, s: Span, offset: nat, end0: nat, readSize: nat, takes: seq<nat>,
                         before: seq<byte>, out: seq<byte>, total: nat, from: nat, end: nat, remaining: nat)
      requires Reached(file, s, offset, end0, readSize, takes, before, out, total, from, end, remaining)
      requires s == Span(chunkSize, |file|, offset + readSize) && end0 == offset / chunkSize * chunkSize + chunkSize
      requires !s.Goes(from, remaining)
      ensures Assembled(file, offset, readSize, takes, before, out, total)
    {
      ReachedEnd(file, s, offset, end0, readSize, takes, before, out, total, from, end, remaining);
    }

    /** `read`. It reports as many bytes as it has written. On an image that describes the file, what it
        writes is a function of what its writes take; it succeeds unless a write or a fetch fails, or the
        request is refused; and store and queue stay true. */
    method Read(inode: Inode, size: u32, offset: u64, w: Writer, ghost file: seq<byte>) returns (r: Result<nat>)
      requires chunkSize > 0
      modifies this`queue, this`fetched, w
      ensures w.calls >= old(w.calls) && fetched >= old(fetched) && (r.Ok? ==> |w.out| == |old(w.out)| + r.value)
      ensures var len := CheckReadRange(inode, size, offset);
              && (len.Err? ==> r == len)
              && (len == Ok(0) ==> r == len && w.calls == old(w.calls) && w.out == old(w.out))
              && (old(Good(inode, file)) && len.Ok? && len.value > 0 && r.Ok? ==>
                    Assembled(file, offset, len.value, Taken(w.takes, old(w.calls), w.calls), old(w.out),
                              w.out, r.value))
      ensures (old(Good(inode, file)) && CheckReadRange(inode, size, offset).Ok?
               && AllDeliver(old(fetched), fetched) && NoneFails(w.takes, old(w.calls), w.calls)) ==> r.Ok?
      ensures old(Good(inode, file)) ==> Good(inode, file)
    {
      var checked := CheckReadRange(inode, size, offset);
      if checked.Err? || checked.value == 0 {
        return checked;
      }
      r := ReadChunks(inode, checked.value, offset, w, file, Good(inode, file));
    }

    /** What `Assembled` comes to: with only the last write cut short, a first part of the range; with none
        cut short, all of it. */
    lemma AssembledInOrder(file: seq<byte>, offset: nat, readSize: nat, takes: seq<nat>,
                           before: seq<byte>, out: seq<byte>,
                           total: nat)
      requires Assembled(file, offset, readSize, takes, before, out, total)
      ensures var ps := Pieces(Span(chunkSize, |file|, offset + readSize), offset,
                               offset / chunkSize * chunkSize + chunkSize, readSize, takes);
              && (OnlyLastCut(ps) ==> offset + total <= |file| && out == before + file[offset..offset + total])
              && (NoneCut(ps) ==> out == before + file[offset..offset + readSize])
    {
      var s, end := Span(chunkSize, |file|, offset + readSize), offset / chunkSize * chunkSize + chunkSize;
      var ps := Pieces(s, offset, end, readSize, takes);
      WrittenLength(file, ps, offset);
      if OnlyLastCut(ps) {
        OnlyLastCutInOrder(file, ps, offset);
      }
      if NoneCut(ps) {
        WholeReadIsFile(file, s, offset, end, takes);
      }
    }
  }

  /** Of the writes from `from` on, one took, and took as much as it could of what it was offered. */
  ghost predicate TookOne(takes: nat -> Take, from: nat, end: nat, n: nat, offered: nat) {
    |Taken(takes, from, end)| == 1 && n == MinOf(Taken(takes, from, end)[0], offered)
  }

  ghost predicate NoneFails(takes: nat -> Take, from: nat, end: nat) {
    forall i :: from <= i < end ==> takes(i).Takes?
  }

  /** The first write takes one byte, the others all. */
  function OneThenAll(i: nat): Take {
    Takes(if i == 0 then 1 else 100)
  }

  lemma {:induction false} OneThenAllTaken(calls: nat)
    ensures var t := Taken(OneThenAll, 0, calls);
            |t| == calls && forall i :: 0 <= i < calls ==> t[i] == if i == 0 then 1 else 100
    decreases calls
  {
    if calls > 0 { OneThenAllTaken(calls - 1); }
  }

  /** A file of two chunks of two bytes, one byte of the first and both of the second having been taken. */
  lemma SkippedByte(file: seq<byte>, takes: seq<nat>)
    requires |file| == 4 && forall i :: 0 <= i < |takes| ==> takes[i] == if i == 0 then 1 else 100
    requires WentThrough(Span(2, 4, 4), 0, 2, 4, takes)
    ensures var ps := Pieces(Span(2, 4, 4), 0, 2, 4, takes);
            ps == [Piece(0, 2, 1), Piece(2, 2, 2)] && Chain(ps, 0, 4) && Total(ps) == 3
            && Written(file, ps, 0) == [file[0], file[2], file[3]]
  {
    var s := Span(2, 4, 4);
    assert WentThrough(s, 2, 4, 3, takes[1..]);
    assert WentThrough(s, 4, 6, 1, takes[1..][1..]);
    assert Pieces(s, 4, 6, 1, takes[1..][1..]) == [];
    assert Pieces(s, 2, 4, 3, takes[1..]) == [Piece(2, 2, 2)];
    var ps := Pieces(s, 0, 2, 4, takes);
    assert ps == [Piece(0, 2, 1)] + [Piece(2, 2, 2)] && ps[1..] == [Piece(2, 2, 2)] && ps[1..][1..] == [];
    assert Total(ps[1..]) == 2 + Total(ps[1..][1..]) == 2;
    assert Written(file, ps[1..], 2) == file[2..4] + [];
    assert Written(file, ps, 0) == file[0..1] + file[2..4];
  }

  /** A read that skips a byte: it succeeds, and what it has written is not the file's. */
  method SkippingRead() returns (r: Result<nat>, out: seq<byte>)
    ensures r == Ok(3) && out == [1, 3, 4]
  {
    var cs0, cs1 := CheckSum(Zeros(32), Sha256), CheckSum(Zeros(32)[0 := 1], Sha256);
    var inode := Inode(true, 4, [ChunkInfo(cs0, 0, 0, 2, 2, false, false, false),
                                 ChunkInfo(cs1, 0, 2, 2, 2, false, false, false)]);
    var blob: seq<byte> := [1, 2, 3, 4];
    var image := new NydusImage(2, map[0 := blob], _ => None, _ => Reads(100), None);
    var w := new Writer(OneThenAll);
    assert cs0.raw[0] == 0 && cs1.raw[0] == 1;
    ExampleIsGood(image, inode, blob);
    r := image.Read(inode, 4, 0, w, blob);
    out := w.out;
    ghost var takes := Taken(OneThenAll, 0, w.calls);
    OneThenAllTaken(w.calls);
    assert image.AllDeliver(0, image.fetched) && NoneFails(OneThenAll, 0, w.calls);
    assert image.Assembled(blob, 0, 4, takes, [], out, r.value);
    SkippedByte(blob, takes);
  }

  lemma ExampleIsGood(image: NydusImage, inode: Inode, blob: seq<byte>)
    requires image.chunkSize == 2 && image.blobs == map[0 := blob] && blob == [1, 2, 3, 4]
    requires image.store == None && image.queue == [] && inode.size == 4 && |inode.chunks| == 2
    requires inode.chunks[0] == ChunkInfo(inode.chunks[0].cs, 0, 0, 2, 2, false, false, false)
    requires inode.chunks[1] == ChunkInfo(inode.chunks[1].cs, 0, 2, 2, 2, false, false, false)
    requires inode.chunks[0].cs != inode.chunks[1].cs
    ensures image.Good(inode, blob)
  {
    assert image.PieceOf(blob, 0) == blob[0..2] && image.PieceOf(blob, 1) == blob[2..4];
    assert blob[0..2][..2] == blob[0..2] && blob[2..4][..2] == blob[2..4];
    forall i: nat | i * 2 < 4 ensures i == 0 || i == 1 {
    }
  }

  function Joined(batches: seq<seq<Chunk>>): seq<Chunk> {
    if batches == [] then [] else Joined(batches[..|batches| - 1]) + batches[|batches| - 1]
  }

  /** `ChunkStoreWorker::run`: everything received goes to the store, in order, in batches no larger
      than the limit. */
  method RunStoreWorker(requests: seq<Chunk>) returns (batches: seq<seq<Chunk>>)
    ensures Joined(batches) == requests
    ensures forall i :: 0 <= i < |batches| ==> 1 <= |batches[i]| <= CHUNK_STORE_BATCH_SIZE
  {
    batches := [];
    var next := 0;
    while next < |requests|
      invariant next <= |requests| && Joined(batches) == requests[..next]
      invariant forall i :: 0 <= i < |batches| ==> 1 <= |batches[i]| <= CHUNK_STORE_BATCH_SIZE
    {
      ghost var first := next;
      var batch := [requests[next]];
      next := next + 1;
      var empty := false;
      while |batch| < CHUNK_STORE_BATCH_SIZE && next < |requests| && !empty
        invariant first < next <= |requests| && batch == requests[first..next] && 1 <= |batch| <= CHUNK_STORE_BATCH_SIZE
        decreases |requests| - next, !empty
      {
        empty := *;
        if !empty {
          batch := batch + [requests[next]];
          next := next + 1;
        }
      }
      assert requests[..first] + requests[first..next] == requests[..next];
      assert (batches + [batch])[..|batches|] == batches;
      batches := batches + [batch];
    }
    assert requests[..next] == requests;
  }

  lemma NextMultiple(n: nat, d: nat)
    ensures (n + 1) * d == n * d + d
  {
  }

  lemma DivisionFloor(n: nat, d: nat)
    requires d > 0
    ensures n / d * d <= n < n / d * d + d
  {
  }
}
