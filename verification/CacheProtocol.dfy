/** The sparse-file cache under concurrency: any number of readers and invalidators, one step at
    a time. A step is one atomic action of the code: a bitmap load or compare-and-swap, one
    critical section of the in-flight map, one piece of a backend fetch, of a copy or of a hole. */
module CacheProtocol {
  import opened Basics
  import opened Bytes
  import opened DedupQuery

  type Tid = nat
  type IoId = nat

  /** `InFlightIO`; `owner` is a history variable: the thread that created it. */
  datatype InFlightIO = InFlightIO(done: bool, owner: Tid)

  /** Where a reader is within `fetch_data` and the copy that follows. */
  datatype Phase =
    | LoadBit                        // loop head
    | Enroll                         // bit was clear: register or wait
    | Wait(io: IoId)
    | Fetch(io: IoId, got: nat)      // the backend has written `got` bytes of the chunk
    | SetBit(io: IoId)
    | Unlist(io: IoId, ok: bool)     // remove from the in-flight map
    | Notify(io: IoId, ok: bool)     // the guard drops
    | Copy(out: seq<byte>)

  datatype Pc =
    | Idle
    | WantRead(off: nat, want: nat)                          // at drop_lock.read()
    | Reader(off: nat, end: nat, want: nat, idx: nat, phase: Phase)
    | ReadOk(off: nat, want: nat, out: seq<byte>)
    | ReadErr
    | WantWrite(chunk: nat)                                  // at drop_lock.write()
    | TestBit(chunk: nat)
    | Punch(chunk: nat, zeroed: nat)                         // bit cleared; so much of the hole is made
    | Invalidated

  datatype Shared = Shared(raw: seq<byte>, bits: seq<bool>, inFlight: map<nat, IoId>,
                           ios: map<IoId, InFlightIO>, nextIo: IoId)

  datatype State = State(sh: Shared, pc: map<Tid, Pc>)

  datatype Action =
    | StartRead(off: nat, want: nat)
    | LockRead
    | DoLoadBit
    | DoEnroll
    | Wake                      // the waited-for fetch is done
    | SpuriousWake
    | TimeOut
    | FetchBytes(n: nat)
    | FetchOk
    | FetchErr
    | DoSetBit
    | DoUnlist
    | DoNotify
    | CopyBytes(n: nat)
    | FinishRead
    | StartInvalidate(chunk: nat)
    | LockWrite
    | ClearBit
    | PunchBytes(n: nat)
    | FinishInvalidate
    | Return

  function NumChunks(size: nat): nat {
    (size + CHUNK_SIZE - 1) / CHUNK_SIZE
  }

  predicate HoldsRead(p: Pc) {
    p.Reader?
  }

  predicate HoldsWrite(p: Pc) {
    p.TestBit? || p.Punch?
  }

  /** The fetch a thread owns, from registration until its guard drops. */
  function IoOf(p: Pc): set<IoId> {
    if p.Reader? && (p.phase.Fetch? || p.phase.SetBit? || p.phase.Unlist? || p.phase.Notify?) then {p.phase.io} else {}
  }

  /** The reader moves past chunk `idx`. */
  function NextChunk(p: Pc): Pc
    requires p.Reader? && p.end > 0
  {
    if p.idx + 1 <= (p.end - 1) / CHUNK_SIZE then p.(idx := p.idx + 1, phase := LoadBit)
    else p.(idx := p.idx + 1, phase := Copy([]))
  }

  predicate Enabled(b: seq<byte>, s: State, t: Tid, a: Action) {
    t in s.pc && var p := s.pc[t];
    match a
    case StartRead(_, _) => p.Idle?
    case LockRead => p.WantRead? && forall u :: u in s.pc ==> !HoldsWrite(s.pc[u])
    case DoLoadBit => p.Reader? && p.phase.LoadBit? && p.idx < |s.sh.bits| && p.end > 0
    case DoEnroll => p.Reader? && p.phase.Enroll?
    case Wake => p.Reader? && p.phase.Wait? && p.phase.io in s.sh.ios && s.sh.ios[p.phase.io].done
    case SpuriousWake => p.Reader? && p.phase.Wait?
    case TimeOut => p.Reader? && p.phase.Wait?
    case FetchBytes(n) => p.Reader? && p.phase.Fetch? && |s.sh.raw| == |b|
                          && p.idx * CHUNK_SIZE + p.phase.got + n <= ChunkEnd(|b|, p.idx)
    case FetchOk => p.Reader? && p.phase.Fetch? && p.idx * CHUNK_SIZE + p.phase.got == ChunkEnd(|b|, p.idx)
    case FetchErr => p.Reader? && p.phase.Fetch?
    case DoSetBit => p.Reader? && p.phase.SetBit? && p.idx < |s.sh.bits|
    case DoUnlist => p.Reader? && p.phase.Unlist?
    case DoNotify => p.Reader? && p.phase.Notify? && p.phase.io in s.sh.ios && p.end > 0
    case CopyBytes(n) => p.Reader? && p.phase.Copy? && p.off + |p.phase.out| + n <= p.end <= |s.sh.raw|
    case FinishRead => p.Reader? && p.phase.Copy? && p.off + |p.phase.out| == p.end
    case StartInvalidate(_) => p.Idle?
    case LockWrite => p.WantWrite? && forall u :: u in s.pc ==> !HoldsRead(s.pc[u]) && !HoldsWrite(s.pc[u])
    case ClearBit => p.TestBit?
    case PunchBytes(n) => p.Punch? && p.chunk * CHUNK_SIZE + p.zeroed + n <= ChunkEnd(|s.sh.raw|, p.chunk)
    case FinishInvalidate => p.Punch?
    case Return => p.ReadOk? || p.ReadErr? || p.Invalidated?
  }

  /** `b` replaces `raw` on `[lo, lo+n)`. */
  function Overwrite(raw: seq<byte>, b: seq<byte>, lo: nat, n: nat): (r: seq<byte>)
    requires lo + n <= |raw| == |b|
    ensures |r| == |raw|
    ensures forall k :: 0 <= k < |raw| ==> r[k] == if lo <= k < lo + n then b[k] else raw[k]
  {
    raw[..lo] + b[lo..lo + n] + raw[lo + n..]
  }

  /** What thread `t` makes of the shared state. */
  function NextShared(b: seq<byte>, s: State, t: Tid, a: Action): Shared
    requires Enabled(b, s, t, a)
  {
    var sh, p := s.sh, s.pc[t];
    match a
    case DoEnroll =>
      if p.idx in sh.inFlight then sh
      else sh.(inFlight := sh.inFlight[p.idx := sh.nextIo],
               ios := sh.ios[sh.nextIo := InFlightIO(false, t)], nextIo := sh.nextIo + 1)
    case FetchBytes(n) => sh.(raw := Overwrite(sh.raw, b, p.idx * CHUNK_SIZE + p.phase.got, n))
    case DoSetBit => sh.(bits := sh.bits[p.idx := true])
    case DoUnlist => sh.(inFlight := sh.inFlight - {p.idx})
    case DoNotify => sh.(ios := sh.ios[p.phase.io := sh.ios[p.phase.io].(done := true)])
    case ClearBit =>
      if p.chunk < |sh.bits| && sh.bits[p.chunk] then sh.(bits := sh.bits[p.chunk := false]) else sh
    case PunchBytes(n) => sh.(raw := Overwrite(sh.raw, Zeros(|sh.raw|), p.chunk * CHUNK_SIZE + p.zeroed, n))
    case _ => sh
  }

  /** Where thread `t` is afterwards. */
  function NextPc(b: seq<byte>, s: State, t: Tid, a: Action): Pc
    requires Enabled(b, s, t, a)
  {
    var sh, p := s.sh, s.pc[t];
    match a
    case StartRead(off, want) => if want == 0 then ReadOk(off, want, []) else WantRead(off, want)
    case LockRead =>
      if p.off >= |b| then ReadErr
      else Reader(p.off, MinOf(p.off + p.want, |b|), p.want, p.off / CHUNK_SIZE, LoadBit)
    case DoLoadBit => if sh.bits[p.idx] then NextChunk(p) else p.(phase := Enroll)
    case DoEnroll =>
      if p.idx in sh.inFlight then p.(phase := Wait(sh.inFlight[p.idx])) else p.(phase := Fetch(sh.nextIo, 0))
    case Wake => p.(phase := LoadBit)
    case SpuriousWake => p.(phase := LoadBit)
    case TimeOut => ReadErr
    case FetchBytes(n) => p.(phase := Fetch(p.phase.io, p.phase.got + n))
    case FetchOk => p.(phase := SetBit(p.phase.io))
    case FetchErr => p.(phase := Unlist(p.phase.io, false))
    case DoSetBit => p.(phase := Unlist(p.phase.io, true))
    case DoUnlist => p.(phase := Notify(p.phase.io, p.phase.ok))
    case DoNotify => if p.phase.ok then NextChunk(p) else ReadErr
    case CopyBytes(n) => p.(phase := Copy(p.phase.out + sh.raw[p.off + |p.phase.out|..p.off + |p.phase.out| + n]))
    case FinishRead => ReadOk(p.off, p.want, p.phase.out)
    case StartInvalidate(chunk) => WantWrite(chunk)
    case LockWrite => TestBit(p.chunk)
    case ClearBit => if p.chunk < |sh.bits| && sh.bits[p.chunk] then Punch(p.chunk, 0) else Invalidated
    case PunchBytes(n) => Punch(p.chunk, p.zeroed + n)
    case FinishInvalidate => Invalidated
    case Return => Idle
  }

  function Next(b: seq<byte>, s: State, t: Tid, a: Action): State
    requires Enabled(b, s, t, a)
  {
    State(NextShared(b, s, t, a), s.pc[t := NextPc(b, s, t, a)])
  }

  // ---- The invariant ----------------------------------------------------------------------------

  ghost predicate Agree(raw: seq<byte>, b: seq<byte>, lo: nat, hi: nat) {
    |raw| == |b| && hi <= |b| && forall k :: lo <= k < hi ==> raw[k] == b[k]
  }

  /** Cache truth: a set bit means that the chunk is the backend's. */
  ghost predicate Truth(raw: seq<byte>, bits: seq<bool>, b: seq<byte>) {
    && |raw| == |b| && |bits| == NumChunks(|b|)
    && forall i :: 0 <= i < |bits| && bits[i] ==> Agree(raw, b, i * CHUNK_SIZE, ChunkEnd(|b|, i))
  }

  ghost predicate SharedOk(b: seq<byte>, sh: Shared) {
    && Truth(sh.raw, sh.bits, b)
    && (forall io :: io in sh.ios ==> io < sh.nextIo)
    && (forall i :: i in sh.inFlight ==> sh.inFlight[i] in sh.ios && !sh.ios[sh.inFlight[i]].done)
  }

  ghost predicate BitsSet(bits: seq<bool>, lo: nat, hi: nat) {
    hi <= |bits| && forall i :: lo <= i < hi ==> bits[i]
  }

  ghost predicate Owns(sh: Shared, t: Tid, io: IoId) {
    io in sh.ios && !sh.ios[io].done && sh.ios[io].owner == t
  }

  ghost predicate Listed(sh: Shared, t: Tid, idx: nat, io: IoId) {
    Owns(sh, t, io) && idx in sh.inFlight && sh.inFlight[idx] == io
  }

  ghost predicate PhaseOk(b: seq<byte>, sh: Shared, t: Tid, p: Pc)
    requires p.Reader?
  {
    var start := p.idx * CHUNK_SIZE;
    match p.phase
    case LoadBit => true
    case Enroll => true
    case Wait(io) => io in sh.ios
    case Fetch(io, got) =>
      Listed(sh, t, p.idx, io) && Agree(sh.raw, b, start, start + got) && start + got <= ChunkEnd(|b|, p.idx)
    case SetBit(io) => Listed(sh, t, p.idx, io) && Agree(sh.raw, b, start, ChunkEnd(|b|, p.idx))
    case Unlist(io, ok) => Listed(sh, t, p.idx, io) && (ok ==> p.idx < |sh.bits| && sh.bits[p.idx])
    case Notify(io, ok) => Owns(sh, t, io) && (ok ==> p.idx < |sh.bits| && sh.bits[p.idx])
    case Copy(out) => p.off + |out| <= p.end <= |b| && out == b[p.off..p.off + |out|]
  }

  ghost predicate PcOk(b: seq<byte>, sh: Shared, t: Tid, p: Pc) {
    match p
    case WantRead(_, want) => want > 0
    case Reader(off, end, want, idx, phase) =>
      && off < end == MinOf(off + want, |b|)
      && BitsSet(sh.bits, off / CHUNK_SIZE, idx)
      && (if phase.Copy? then idx == (end - 1) / CHUNK_SIZE + 1
          else off / CHUNK_SIZE <= idx <= (end - 1) / CHUNK_SIZE)
      && PhaseOk(b, sh, t, p)
    case ReadOk(off, want, out) => (want == 0 && out == []) || (off < |b| && out == b[off..MinOf(off + want, |b|)])
    case Punch(chunk, _) => chunk < |sh.bits| && !sh.bits[chunk]
    case _ => true
  }

  /** `drop_lock`: a writer excludes everyone else. */
  ghost predicate Exclusive(pc: map<Tid, Pc>) {
    forall t, u :: t in pc && u in pc && t != u && HoldsWrite(pc[t]) ==> !HoldsRead(pc[u]) && !HoldsWrite(pc[u])
  }

  /** Every fetch not done is owned by a thread still working on it, and one in the in-flight map
      by a thread that has yet to remove it. */
  ghost predicate LiveOwners(sh: Shared, pc: map<Tid, Pc>) {
    && (forall io :: io in sh.ios && !sh.ios[io].done ==> sh.ios[io].owner in pc && io in IoOf(pc[sh.ios[io].owner]))
    && (forall i :: i in sh.inFlight && sh.inFlight[i] in sh.ios && sh.ios[sh.inFlight[i]].owner in pc
          ==> WillUnlist(pc[sh.ios[sh.inFlight[i]].owner], i))
  }

  predicate WillUnlist(p: Pc, idx: nat) {
    p.Reader? && p.idx == idx && (p.phase.Fetch? || p.phase.SetBit? || p.phase.Unlist?)
  }

  ghost predicate Inv(b: seq<byte>, s: State) {
    && SharedOk(b, s.sh)
    && (forall t :: t in s.pc ==> PcOk(b, s.sh, t, s.pc[t]))
    && Exclusive(s.pc)
    && LiveOwners(s.sh, s.pc)
  }

  // ---- Preservation ------------------------------------------------------------------------------

  /** How a reader's step may change the shared state under the feet of the others. */
  ghost predicate Benign(b: seq<byte>, sh: Shared, sh': Shared, t: Tid) {
    && |sh'.raw| == |sh.raw| == |b| && |sh'.bits| == |sh.bits|
    && (forall k :: 0 <= k < |b| ==> sh'.raw[k] == sh.raw[k] || sh'.raw[k] == b[k])
    && (forall i :: 0 <= i < |sh.bits| && sh.bits[i] ==> sh'.bits[i])
    && (forall io :: io in sh.ios ==> io in sh'.ios && sh'.ios[io].owner == sh.ios[io].owner
                                      && (sh.ios[io].owner != t ==> sh'.ios[io] == sh.ios[io]))
    && (forall i :: i in sh.inFlight && sh.inFlight[i] in sh.ios && sh.ios[sh.inFlight[i]].owner != t
                    ==> i in sh'.inFlight && sh'.inFlight[i] == sh.inFlight[i])
  }

  lemma OthersUndisturbed(b: seq<byte>, sh: Shared, sh': Shared, t: Tid, u: Tid, p: Pc)
    requires Benign(b, sh, sh', t) && u != t && PcOk(b, sh, u, p) && !p.Punch?
    ensures PcOk(b, sh', u, p)
  {
  }

  lemma BenignStep(b: seq<byte>, s: State, t: Tid, a: Action)
    requires Inv(b, s) && Enabled(b, s, t, a) && !a.ClearBit? && !a.PunchBytes?
    ensures Benign(b, s.sh, NextShared(b, s, t, a), t)
  {
    assert PcOk(b, s.sh, t, s.pc[t]);
  }

  lemma SharedKept(b: seq<byte>, s: State, t: Tid, a: Action)
    requires Inv(b, s) && Enabled(b, s, t, a)
    ensures SharedOk(b, NextShared(b, s, t, a))
  {
    var sh, p := s.sh, s.pc[t];
    var sh' := NextShared(b, s, t, a);
    assert PcOk(b, sh, t, p);
    if a.PunchBytes? {
      forall i | 0 <= i < |sh.bits| && sh.bits[i]
        ensures Agree(sh'.raw, b, i * CHUNK_SIZE, ChunkEnd(|b|, i))
      {
        assert Agree(sh.raw, b, i * CHUNK_SIZE, ChunkEnd(|b|, i));
        assert i < p.chunk || i > p.chunk;
      }
    }
  }

  /** A reader that finds or sets the bit of its chunk moves on soundly. */
  lemma NextChunkOk(b: seq<byte>, sh: Shared, t: Tid, p: Pc)
    requires PcOk(b, sh, t, p) && p.Reader? && !p.phase.Copy? && p.idx < |sh.bits| && sh.bits[p.idx]
    ensures PcOk(b, sh, t, NextChunk(p))
  {
    assert b[p.off..p.off + 0] == [];
  }

  lemma FetchedPieceOk(b: seq<byte>, s: State, t: Tid, n: nat)
    requires Inv(b, s) && Enabled(b, s, t, FetchBytes(n))
    ensures PcOk(b, NextShared(b, s, t, FetchBytes(n)), t, NextPc(b, s, t, FetchBytes(n)))
  {
    assert PcOk(b, s.sh, t, s.pc[t]);
  }

  lemma CopiedPieceOk(b: seq<byte>, s: State, t: Tid, n: nat)
    requires Truth(s.sh.raw, s.sh.bits, b) && Enabled(b, s, t, CopyBytes(n)) && PcOk(b, s.sh, t, s.pc[t])
    ensures PcOk(b, s.sh, t, NextPc(b, s, t, CopyBytes(n)))
  {
    var p := s.pc[t];
    CopyIsBackend(b, s.sh, p, n);
    SliceGrows(b, p.off, p.off + |p.phase.out|, n);
  }

  lemma SliceGrows(b: seq<byte>, off: nat, at: nat, n: nat)
    requires off <= at && at + n <= |b|
    ensures b[off..at] + b[at..at + n] == b[off..at + n]
  {
  }

  lemma LockReadOk(b: seq<byte>, s: State, t: Tid)
    requires Inv(b, s) && Enabled(b, s, t, LockRead)
    ensures PcOk(b, s.sh, t, NextPc(b, s, t, LockRead))
  {
    assert PcOk(b, s.sh, t, s.pc[t]);
  }

  lemma LoadBitOk(b: seq<byte>, s: State, t: Tid)
    requires Inv(b, s) && Enabled(b, s, t, DoLoadBit)
    ensures PcOk(b, s.sh, t, NextPc(b, s, t, DoLoadBit))
  {
    var p := s.pc[t];
    assert PcOk(b, s.sh, t, p);
    if s.sh.bits[p.idx] { NextChunkOk(b, s.sh, t, p); }
  }

  lemma NotifyOk(b: seq<byte>, s: State, t: Tid)
    requires Enabled(b, s, t, DoNotify) && PcOk(b, s.sh, t, s.pc[t])
    ensures PcOk(b, NextShared(b, s, t, DoNotify), t, NextPc(b, s, t, DoNotify))
  {
    var p := s.pc[t];
    if p.phase.ok {
      NextChunkOk(b, NextShared(b, s, t, DoNotify), t, p.(phase := LoadBit));
    }
  }

  lemma SetBitOk(b: seq<byte>, s: State, t: Tid)
    requires Inv(b, s) && Enabled(b, s, t, DoSetBit)
    ensures PcOk(b, NextShared(b, s, t, DoSetBit), t, NextPc(b, s, t, DoSetBit))
  {
    assert PcOk(b, s.sh, t, s.pc[t]);
  }

  /** A reader's step within its own phases. */
  lemma PhaseStepOk(b: seq<byte>, s: State, t: Tid, a: Action)
    requires Inv(b, s) && Enabled(b, s, t, a)
    requires a.Wake? || a.SpuriousWake? || a.FetchOk? || a.FetchErr? || a.FinishRead?
    ensures PcOk(b, s.sh, t, NextPc(b, s, t, a))
  {
    assert PcOk(b, s.sh, t, s.pc[t]);
  }

  lemma MapActionsOk(b: seq<byte>, s: State, t: Tid, a: Action)
    requires Inv(b, s) && Enabled(b, s, t, a) && (a.DoEnroll? || a.DoUnlist?)
    ensures PcOk(b, NextShared(b, s, t, a), t, NextPc(b, s, t, a))
  {
    assert PcOk(b, s.sh, t, s.pc[t]);
  }

  lemma OwnPcKept(b: seq<byte>, s: State, t: Tid, a: Action)
    requires Inv(b, s) && Enabled(b, s, t, a)
    ensures PcOk(b, NextShared(b, s, t, a), t, NextPc(b, s, t, a))
  {
    if a.FetchBytes? {
      FetchedPieceOk(b, s, t, a.n);
    } else if a.CopyBytes? {
      assert PcOk(b, s.sh, t, s.pc[t]);
      CopiedPieceOk(b, s, t, a.n);
    } else if a.LockRead? {
      LockReadOk(b, s, t);
    } else if a.DoLoadBit? {
      LoadBitOk(b, s, t);
    } else if a.DoNotify? {
      assert PcOk(b, s.sh, t, s.pc[t]);
      NotifyOk(b, s, t);
    } else if a.DoSetBit? {
      SetBitOk(b, s, t);
    } else if a.DoEnroll? || a.DoUnlist? {
      MapActionsOk(b, s, t, a);
    } else if a.Wake? || a.SpuriousWake? || a.FetchOk? || a.FetchErr? || a.FinishRead? {
      PhaseStepOk(b, s, t, a);
    } else {
      assert PcOk(b, s.sh, t, s.pc[t]);
    }
  }

  /** Once all its chunks are marked, whatever piece a reader copies is the backend's. */
  lemma CopyIsBackend(b: seq<byte>, sh: Shared, p: Pc, n: nat)
    requires Truth(sh.raw, sh.bits, b) && p.Reader? && p.phase.Copy?
    requires p.off + |p.phase.out| + n <= p.end <= |b|
    requires BitsSet(sh.bits, p.off / CHUNK_SIZE, (p.end - 1) / CHUNK_SIZE + 1)
    ensures var at := p.off + |p.phase.out|; sh.raw[at..at + n] == b[at..at + n]
  {
    var at := p.off + |p.phase.out|;
    forall k | at <= k < at + n ensures sh.raw[k] == b[k] {
      var i := k / CHUNK_SIZE;
      assert sh.bits[i];
      assert Agree(sh.raw, b, i * CHUNK_SIZE, ChunkEnd(|b|, i));
    }
  }

  /** A step that neither opens nor closes a fetch keeps the owners as they are. */
  lemma SameOwners(sh: Shared, pc: map<Tid, Pc>, sh': Shared, t: Tid, p': Pc)
    requires LiveOwners(sh, pc) && t in pc && sh'.ios == sh.ios && sh'.inFlight == sh.inFlight
    requires IoOf(p') == IoOf(pc[t]) && forall i :: WillUnlist(pc[t], i) ==> WillUnlist(p', i)
    ensures LiveOwners(sh', pc[t := p'])
  {
  }

  lemma EnrollKeepsOwners(b: seq<byte>, s: State, t: Tid)
    requires Inv(b, s) && Enabled(b, s, t, DoEnroll)
    ensures LiveOwners(Next(b, s, t, DoEnroll).sh, Next(b, s, t, DoEnroll).pc)
  {
    var sh, p := s.sh, s.pc[t];
    var sh', p' := NextShared(b, s, t, DoEnroll), NextPc(b, s, t, DoEnroll);
    assert PcOk(b, sh, t, p);
    if p.idx in sh.inFlight {
      SameOwners(sh, s.pc, sh, t, p');
    } else {
      NewOwner(sh, s.pc, sh', t, p', p.idx);
    }
  }

  /** One fetch more, of a chunk that was not listed, by a thread that owned none. */
  lemma NewOwner(sh: Shared, pc: map<Tid, Pc>, sh': Shared, t: Tid, p': Pc, idx: nat)
    requires LiveOwners(sh, pc) && t in pc && IoOf(pc[t]) == {} && (forall i :: !WillUnlist(pc[t], i))
    requires idx !in sh.inFlight && sh'.inFlight == sh.inFlight[idx := sh.nextIo]
    requires sh'.ios == sh.ios[sh.nextIo := InFlightIO(false, t)] && (forall io :: io in sh.ios ==> io < sh.nextIo)
    requires forall i :: i in sh.inFlight ==> sh.inFlight[i] in sh.ios
    requires sh.nextIo in IoOf(p') && WillUnlist(p', idx)
    ensures LiveOwners(sh', pc[t := p'])
  {
  }

  lemma CloseKeepsOwners(b: seq<byte>, s: State, t: Tid, a: Action)
    requires Inv(b, s) && Enabled(b, s, t, a) && (a.DoUnlist? || a.DoNotify?)
    ensures LiveOwners(Next(b, s, t, a).sh, Next(b, s, t, a).pc)
  {
    var sh, p := s.sh, s.pc[t];
    assert PcOk(b, sh, t, p);
    forall i | i in sh.inFlight && i != p.idx ensures sh.ios[sh.inFlight[i]].owner != t {
      assert sh.ios[sh.inFlight[i]].owner == t ==> WillUnlist(p, i);
    }
  }

  lemma OwnersKept(b: seq<byte>, s: State, t: Tid, a: Action)
    requires Inv(b, s) && Enabled(b, s, t, a)
    ensures LiveOwners(Next(b, s, t, a).sh, Next(b, s, t, a).pc)
  {
    if a.DoEnroll? {
      EnrollKeepsOwners(b, s, t);
    } else if a.DoUnlist? || a.DoNotify? {
      CloseKeepsOwners(b, s, t, a);
    } else {
      SameOwners(s.sh, s.pc, NextShared(b, s, t, a), t, NextPc(b, s, t, a));
    }
  }

  lemma LockKept(b: seq<byte>, s: State, t: Tid, a: Action)
    requires Inv(b, s) && Enabled(b, s, t, a)
    ensures Exclusive(Next(b, s, t, a).pc)
  {
  }

  lemma StepKeepsInv(b: seq<byte>, s: State, t: Tid, a: Action)
    requires Inv(b, s) && Enabled(b, s, t, a)
    ensures Inv(b, Next(b, s, t, a))
  {
    var s' := Next(b, s, t, a);
    SharedKept(b, s, t, a);
    OwnersKept(b, s, t, a);
    LockKept(b, s, t, a);
    forall u | u in s'.pc ensures PcOk(b, s'.sh, u, s'.pc[u]) {
      if u == t {
        OwnPcKept(b, s, t, a);
      } else {
        assert PcOk(b, s.sh, u, s.pc[u]);
        if a.ClearBit? || a.PunchBytes? {
          assert HoldsWrite(s.pc[t]);
        } else if s.pc[u].Punch? {
          assert HoldsWrite(s.pc[u]);
        } else {
          BenignStep(b, s, t, a);
          OthersUndisturbed(b, s.sh, s'.sh, t, u, s.pc[u]);
        }
      }
    }
  }

  // ---- Runs ----------------------------------------------------------------------------------------

  datatype Step = Step(t: Tid, a: Action)

  /** The cache is opened over files whose bitmap is truthful; no thread has started. */
  ghost predicate Init(b: seq<byte>, s: State) {
    && Truth(s.sh.raw, s.sh.bits, b)
    && s.sh.inFlight == map[] && s.sh.ios == map[]
    && forall t :: t in s.pc ==> s.pc[t].Idle?
  }

  ghost predicate Reaches(b: seq<byte>, s: State, steps: seq<Step>, s': State)
    decreases |steps|
  {
    if steps == [] then s' == s
    else Enabled(b, s, steps[0].t, steps[0].a)
         && Reaches(b, Next(b, s, steps[0].t, steps[0].a), steps[1..], s')
  }

  lemma {:induction false} RunKeepsInv(b: seq<byte>, s: State, steps: seq<Step>, s': State)
    requires Inv(b, s) && Reaches(b, s, steps, s')
    ensures Inv(b, s')
    decreases |steps|
  {
    if steps != [] {
      StepKeepsInv(b, s, steps[0].t, steps[0].a);
      RunKeepsInv(b, Next(b, s, steps[0].t, steps[0].a), steps[1..], s');
    }
  }

  lemma {:induction false} ReachesThen(b: seq<byte>, s: State, steps: seq<Step>, s1: State, t: Tid, a: Action)
    requires Reaches(b, s, steps, s1) && Enabled(b, s1, t, a)
    ensures Reaches(b, s, steps + [Step(t, a)], Next(b, s1, t, a))
    decreases |steps|
  {
    var more := steps + [Step(t, a)];
    if steps == [] {
      assert more[1..] == [];
    } else {
      ReachesThen(b, Next(b, s, steps[0].t, steps[0].a), steps[1..], s1, t, a);
      assert more[1..] == steps[1..] + [Step(t, a)];
    }
  }

  /** In every state of every run a set bit tells the truth, also while chunks are being fetched,
      refetched or punched, and every read that has succeeded holds the backend's bytes. */
  lemma CacheTruth(b: seq<byte>, s: State, steps: seq<Step>, s': State)
    requires Init(b, s) && Reaches(b, s, steps, s')
    ensures Truth(s'.sh.raw, s'.sh.bits, b)
    ensures forall t :: t in s'.pc && s'.pc[t].ReadOk? && s'.pc[t].want > 0 ==>
              var r := s'.pc[t]; r.off < |b| && r.out == b[r.off..MinOf(r.off + r.want, |b|)]
  {
    RunKeepsInv(b, s, steps, s');
    forall t | t in s'.pc && s'.pc[t].ReadOk? && s'.pc[t].want > 0
      ensures var r := s'.pc[t]; r.off < |b| && r.out == b[r.off..MinOf(r.off + r.want, |b|)]
    {
      assert PcOk(b, s'.sh, t, s'.pc[t]);
    }
  }

  /** Between registration and removal a chunk has one owner at most, and the lock excludes. */
  lemma OneOwnerPerChunk(b: seq<byte>, s: State, steps: seq<Step>, s': State, t: Tid, u: Tid, idx: nat)
    requires Init(b, s) && Reaches(b, s, steps, s') && t in s'.pc && u in s'.pc && t != u
    ensures !(WillUnlist(s'.pc[t], idx) && WillUnlist(s'.pc[u], idx))
    ensures HoldsWrite(s'.pc[t]) ==> !HoldsRead(s'.pc[u]) && !HoldsWrite(s'.pc[u])
    ensures IoOf(s'.pc[t]) !! IoOf(s'.pc[u])
  {
    RunKeepsInv(b, s, steps, s');
    TwoOwners(b, s'.sh, t, u, s'.pc[t], s'.pc[u], idx);
  }

  lemma TwoOwners(b: seq<byte>, sh: Shared, t: Tid, u: Tid, p: Pc, q: Pc, idx: nat)
    requires PcOk(b, sh, t, p) && PcOk(b, sh, u, q) && t != u
    ensures !(WillUnlist(p, idx) && WillUnlist(q, idx))
    ensures IoOf(p) !! IoOf(q)
  {
  }

  /** A reader that waits, waits on a fetch that is done or whose owner is another reader, still
      at work on it; and whatever the in-flight map holds is such a fetch. */
  lemma NoOrphanedWait(b: seq<byte>, s: State, steps: seq<Step>, s': State, t: Tid)
    requires Init(b, s) && Reaches(b, s, steps, s')
    requires t in s'.pc && s'.pc[t].Reader? && s'.pc[t].phase.Wait?
    ensures var io := s'.pc[t].phase.io;
            && io in s'.sh.ios
            && (!s'.sh.ios[io].done ==>
                  var u := s'.sh.ios[io].owner; u != t && u in s'.pc && io in IoOf(s'.pc[u]))
    ensures forall i :: i in s'.sh.inFlight ==>
              && s'.sh.inFlight[i] in s'.sh.ios && !s'.sh.ios[s'.sh.inFlight[i]].done
              && s'.sh.ios[s'.sh.inFlight[i]].owner in s'.pc && WillUnlist(s'.pc[s'.sh.ios[s'.sh.inFlight[i]].owner], i)
  {
    RunKeepsInv(b, s, steps, s');
    assert PcOk(b, s'.sh, t, s'.pc[t]);
  }

  /** Where a waiter of a finished fetch goes from the wake-up: past the chunk if its bit is set, else to
      wait for the fetch that another thread has registered, else to be the owner of a new one. */
  function AfterWait(s: State, t: Tid): Pc
    requires t in s.pc && s.pc[t].Reader? && s.pc[t].phase.Wait? && s.pc[t].idx < |s.sh.bits| && s.pc[t].end > 0
  {
    var p := s.pc[t];
    if s.sh.bits[p.idx] then NextChunk(p)
    else if p.idx in s.sh.inFlight then p.(phase := Wait(s.sh.inFlight[p.idx]))
    else p.(phase := Fetch(s.sh.nextIo, 0))
  }

  /** Whatever the fetch it waited for has come to, a waiter gets there by its own steps; if it has to
      wait again, that is for a fetch not yet over. So a failed fetch is retried by one of its waiters. */
  lemma WaiterGoesOn(b: seq<byte>, s: State, t: Tid)
    requires Inv(b, s) && t in s.pc && s.pc[t].Reader? && s.pc[t].phase.Wait? && s.sh.ios[s.pc[t].phase.io].done
    ensures s.pc[t].idx < |s.sh.bits| && s.pc[t].end > 0
    ensures var steps := [Step(t, Wake), Step(t, DoLoadBit)] +
              if s.sh.bits[s.pc[t].idx] then [] else [Step(t, DoEnroll)];
            exists s' :: Reaches(b, s, steps, s') && t in s'.pc && s'.pc[t] == AfterWait(s, t)
    ensures AfterWait(s, t).phase.Wait? ==> !s.sh.ios[AfterWait(s, t).phase.io].done
  {
    assert PcOk(b, s.sh, t, s.pc[t]);
    var s1 := Next(b, s, t, Wake);
    var s2 := Next(b, s1, t, DoLoadBit);
    TwoSteps(b, s, Step(t, Wake), Step(t, DoLoadBit), s2);
    if s.sh.bits[s.pc[t].idx] {
      assert [Step(t, Wake), Step(t, DoLoadBit)] + [] == [Step(t, Wake), Step(t, DoLoadBit)];
    } else {
      ReachesThen(b, s, [Step(t, Wake), Step(t, DoLoadBit)], s2, t, DoEnroll);
    }
  }

  lemma TwoSteps(b: seq<byte>, s: State, x: Step, y: Step, s': State)
    requires Enabled(b, s, x.t, x.a) && Enabled(b, Next(b, s, x.t, x.a), y.t, y.a)
    requires s' == Next(b, Next(b, s, x.t, x.a), y.t, y.a)
    ensures Reaches(b, s, [x, y], s')
  {
    assert [x, y][1..] == [y] && [y][1..] == [];
    assert Reaches(b, Next(b, s, x.t, x.a), [y], s');
  }

  // ---- How an operation ends -----------------------------------------------------------------------------

  /** What a thread has been asked for, if it has not returned since; whether a fetch or a wait of it has
      failed, or it has cleared a bit, since then. */
  datatype History = History(asked: Option<Action>, failed: bool, cleared: bool)

  const NOTHING_ASKED: History := History(None, false, false)

  function After(h: History, a: Action): History {
    match a
    case StartRead(_, _) => History(Some(a), false, false)
    case StartInvalidate(_) => History(Some(a), false, false)
    case FetchErr => h.(failed := true)
    case TimeOut => h.(failed := true)
    case ClearBit => h.(cleared := true)
    case Return => NOTHING_ASKED
    case _ => h
  }

  function HistoryOf(steps: seq<Step>, t: Tid): History {
    if steps == [] then NOTHING_ASKED
    else
      var h, last := HistoryOf(steps[..|steps| - 1], t), steps[|steps| - 1];
      if last.t == t then After(h, last.a) else h
  }

  /** Where a thread can be, given its history: at work on what it was asked for, until it returns; in a
      read, failed iff it is on its way to the error, or there. */
  ghost predicate Follows(b: seq<byte>, h: History, p: Pc) {
    match p
    case Idle => h == NOTHING_ASKED
    case WantRead(off, want) => h == History(Some(StartRead(off, want)), false, false)
    case Reader(off, end, want, idx, phase) =>
      && h.asked == Some(StartRead(off, want)) && !h.cleared
      && h.failed == ((phase.Unlist? || phase.Notify?) && !phase.ok)
    case ReadOk(off, want, _) => h == History(Some(StartRead(off, want)), false, false)
    case ReadErr => h.asked.Some? && h.asked.value.StartRead? && (h.failed || h.asked.value.off >= |b|)
    case WantWrite(chunk) => h == History(Some(StartInvalidate(chunk)), false, false)
    case TestBit(chunk) => h == History(Some(StartInvalidate(chunk)), false, false)
    case Punch(chunk, _) => h == History(Some(StartInvalidate(chunk)), false, true)
    case Invalidated => h.asked.Some? && h.asked.value.StartInvalidate? && h.cleared
  }

  lemma StepFollows(b: seq<byte>, s: State, t: Tid, a: Action, h: History)
    requires Enabled(b, s, t, a) && Follows(b, h, s.pc[t])
    ensures Follows(b, After(h, a), NextPc(b, s, t, a))
  {
  }

  /** A run, seen from its last step. */
  lemma {:induction false} LastStep(b: seq<byte>, s: State, steps: seq<Step>, s': State) returns (s1: State)
    requires steps != [] && Reaches(b, s, steps, s')
    ensures var last := steps[|steps| - 1];
            && Reaches(b, s, steps[..|steps| - 1], s1) && Enabled(b, s1, last.t, last.a)
            && s' == Next(b, s1, last.t, last.a)
    decreases |steps|
  {
    if |steps| == 1 {
      s1 := s;
      assert steps[1..] == [] && steps[..0] == [];
    } else {
      var next := Next(b, s, steps[0].t, steps[0].a);
      s1 := LastStep(b, next, steps[1..], s');
      assert steps[1..][..|steps| - 2] == steps[..|steps| - 1][1..];
      assert steps[1..][|steps| - 2] == steps[|steps| - 1];
    }
  }

  lemma {:induction false} RunFollows(b: seq<byte>, s: State, steps: seq<Step>, s': State, t: Tid)
    requires Init(b, s) && Reaches(b, s, steps, s') && t in s'.pc
    ensures Follows(b, HistoryOf(steps, t), s'.pc[t])
    decreases |steps|
  {
    if steps != [] {
      var s1 := LastStep(b, s, steps, s');
      var last := steps[|steps| - 1];
      RunFollows(b, s, steps[..|steps| - 1], s1, t);
      if last.t == t {
        StepFollows(b, s1, t, last.a, HistoryOf(steps[..|steps| - 1], t));
      }
    }
  }

  /** How an operation ends, in every run: a thread that has been asked for something is not idle until it
      returns, and returns from an end. A read ends in an error only if it was asked to start past the end of
      the blob, or one of its own fetches or waits has failed; in success only if none has, with the backend's
      bytes of the range it was asked for. An invalidation ends only after it has cleared its bit. */
  lemma Outcome(b: seq<byte>, s: State, steps: seq<Step>, s': State, t: Tid)
    requires Init(b, s) && Reaches(b, s, steps, s') && t in s'.pc
    ensures var h, p := HistoryOf(steps, t), s'.pc[t];
            && (p.Idle? <==> h.asked.None?)
            && (p.ReadErr? ==>
                  h.asked.Some? && h.asked.value.StartRead? && (h.asked.value.off >= |b| || h.failed))
            && (p.ReadOk? ==>
                  && h.asked.Some? && h.asked.value.StartRead? && !h.failed
                  && var off, want := h.asked.value.off, h.asked.value.want;
                     p.out == if want == 0 then [] else b[MinOf(off, |b|)..MinOf(off + want, |b|)])
            && (p.Invalidated? ==> h.asked.Some? && h.asked.value.StartInvalidate? && h.cleared)
  {
    RunFollows(b, s, steps, s', t);
    RunKeepsInv(b, s, steps, s');
    assert PcOk(b, s'.sh, t, s'.pc[t]);
  }

  /** What a step does to the cache: a bit is set only by a reader of its chunk, and cleared only by an
      invalidator of it; and bytes change only by a fetch of their chunk, to the backend's, and by the hole
      of their chunk, to zero. */
  lemma WhoChangesWhat(b: seq<byte>, s: State, t: Tid, a: Action)
    requires Inv(b, s) && Enabled(b, s, t, a)
    ensures var sh, sh', p := s.sh, Next(b, s, t, a).sh, s.pc[t];
            && (forall i :: 0 <= i < |sh.bits| && sh'.bits[i] != sh.bits[i] ==>
                  if sh'.bits[i] then a.DoSetBit? && i == p.idx else a.ClearBit? && i == p.chunk)
            && (forall k :: 0 <= k < |b| && sh'.raw[k] != sh.raw[k] ==>
                  || (a.FetchBytes? && sh'.raw[k] == b[k] && p.idx * CHUNK_SIZE <= k < ChunkEnd(|b|, p.idx))
                  || (a.PunchBytes? && sh'.raw[k] == 0 && p.chunk * CHUNK_SIZE <= k < ChunkEnd(|b|, p.chunk)))
            && (a.DoSetBit? ==> sh'.bits[p.idx])
            && (a.ClearBit? && p.chunk < |sh.bits| ==> !sh'.bits[p.chunk])
            && (a.PunchBytes? ==>
                  var at := p.chunk * CHUNK_SIZE + p.zeroed; forall k :: at <= k < at + a.n ==> sh'.raw[k] == 0)
  {
    assert PcOk(b, s.sh, t, s.pc[t]);
  }

  /** An invalidator clears the bit of the chunk it was asked to, whoever else is at work. */
  lemma InvalidatesAsked(b: seq<byte>, s: State, steps: seq<Step>, s': State, t: Tid)
    requires Init(b, s) && Reaches(b, s, steps, s') && Enabled(b, s', t, ClearBit)
    ensures var asked := HistoryOf(steps, t).asked;
            && asked.Some? && asked.value.StartInvalidate?
            && var chunk, bits := asked.value.chunk, Next(b, s', t, ClearBit).sh.bits;
               && |bits| == NumChunks(|b|)
               && forall i :: 0 <= i < |bits| ==> bits[i] == (i != chunk && s'.sh.bits[i])
  {
    RunFollows(b, s, steps, s', t);
    RunKeepsInv(b, s, steps, s');
  }

  // ---- Progress -------------------------------------------------------------------------------------

  /** Steps that get somewhere: not an arrival, a spurious wake-up, or a piece of no bytes. */
  predicate Productive(a: Action) {
    match a
    case StartRead(_, _) => false
    case StartInvalidate(_) => false
    case SpuriousWake => false
    case TimeOut => false
    case FetchBytes(n) => n > 0
    case CopyBytes(n) => n > 0
    case PunchBytes(n) => n > 0
    case _ => true
  }

  /** What thread `u` itself can do next; only waiting for a lock or a fetch leaves it nothing. */
  lemma OwnStep(b: seq<byte>, s: State, u: Tid) returns (a: Action)
    requires Inv(b, s) && u in s.pc
    requires var p := s.pc[u];
             !p.Idle? && !p.WantRead? && !p.WantWrite?
             && (p.Reader? && p.phase.Wait? ==> s.sh.ios[p.phase.io].done)
    ensures Enabled(b, s, u, a) && Productive(a)
  {
    var p := s.pc[u];
    assert PcOk(b, s.sh, u, p);
    match p
    case Reader(off, end, want, idx, phase) =>
      match phase {
        case LoadBit => a := DoLoadBit;
        case Enroll => a := DoEnroll;
        case Wait(_) => a := Wake;
        case Fetch(_, got) =>
          var left := ChunkEnd(|b|, idx) - idx * CHUNK_SIZE - got;
          a := if left == 0 then FetchOk else FetchBytes(left);
        case SetBit(_) => a := DoSetBit;
        case Unlist(_, _) => a := DoUnlist;
        case Notify(_, _) => a := DoNotify;
        case Copy(out) => a := if off + |out| == end then FinishRead else CopyBytes(end - off - |out|);
      }
    case TestBit(_) => a := ClearBit;
    case Punch(_, _) => a := FinishInvalidate;
    case _ => a := Return;
  }

  /** No deadlock: while any operation is under way, some thread can take a productive step. */
  lemma NoDeadlock(b: seq<byte>, s: State, t: Tid) returns (u: Tid, a: Action)
    requires Inv(b, s) && t in s.pc && !s.pc[t].Idle?
    ensures Enabled(b, s, u, a) && Productive(a)
  {
    if w :| w in s.pc && (HoldsWrite(s.pc[w]) || HoldsRead(s.pc[w])) {
      assert PcOk(b, s.sh, w, s.pc[w]);
      u := w;
      if HoldsRead(s.pc[w]) && s.pc[w].phase.Wait? && !s.sh.ios[s.pc[w].phase.io].done {
        u := s.sh.ios[s.pc[w].phase.io].owner;
      }
      a := OwnStep(b, s, u);
    } else {
      u := t;
      if s.pc[t].WantRead? {
        a := LockRead;
      } else if s.pc[t].WantWrite? {
        a := LockWrite;
      } else {
        a := OwnStep(b, s, t);
      }
    }
  }

  /** How many chunks, and then stages, thread `p` still has before it. */
  function Stages(b: seq<byte>, p: Pc): nat {
    match p
    case Idle => 0
    case WantRead(_, _) => NumChunks(|b|) + 4
    case Reader(_, end, _, idx, phase) =>
      if phase.Copy? || end == 0 || idx > (end - 1) / CHUNK_SIZE then 2 else 3 + (end - 1) / CHUNK_SIZE - idx
    case WantWrite(_) => 4
    case TestBit(_) => 3
    case Punch(_, _) => 2
    case _ => 1
  }

  function Most(b: seq<byte>): nat {
    |b| + CHUNK_SIZE + 10
  }

  /** How much it has to do within its stage, as long as no fetch ends. */
  function Work(b: seq<byte>, sh: Shared, p: Pc): (w: nat)
    ensures w <= Most(b)
  {
    match p
    case Reader(off, end, _, _, phase) =>
      (match phase
       case Wait(io) => if io in sh.ios && sh.ios[io].done then CHUNK_SIZE + 9 else 0
       case LoadBit => CHUNK_SIZE + 8
       case Enroll => CHUNK_SIZE + 7
       case Fetch(_, got) => if got <= CHUNK_SIZE then CHUNK_SIZE - got + 4 else 0
       case SetBit(_) => 3
       case Unlist(_, _) => 2
       case Notify(_, _) => 1
       case Copy(out) => if off + |out| <= end <= |b| then end - off - |out| else 0)
    case Punch(_, zeroed) => if zeroed <= CHUNK_SIZE then CHUNK_SIZE - zeroed else 0
    case _ => 0
  }

  ghost function Sum(m: map<Tid, nat>): nat {
    if m == map[] then 0 else
      var t :| t in m;
      m[t] + Sum(m - {t})
  }

  lemma {:induction false} SumTakeOut(m: map<Tid, nat>, t: Tid)
    requires t in m
    ensures Sum(m) == m[t] + Sum(m - {t})
    decreases |m|
  {
    var u :| u in m && Sum(m) == m[u] + Sum(m - {u});
    if u != t {
      SumTakeOut(m - {u}, t);
      SumTakeOut(m - {t}, u);
      assert m - {u} - {t} == m - {t} - {u};
    }
  }

  lemma SumUpdate(m: map<Tid, nat>, t: Tid, n: nat)
    requires t in m
    ensures Sum(m[t := n]) == Sum(m) - m[t] + n
  {
    SumTakeOut(m, t);
    SumTakeOut(m[t := n], t);
    assert m[t := n] - {t} == m - {t};
  }

  function Times(n: nat, k: nat): nat {
    if n == 0 then 0 else k + Times(n - 1, k)
  }

  lemma {:induction false} SumAtMost(m: map<Tid, nat>, most: nat)
    requires forall t :: t in m ==> m[t] <= most
    ensures Sum(m) <= Times(|m|, most)
    decreases |m|
  {
    if m != map[] {
      var t :| t in m && Sum(m) == m[t] + Sum(m - {t});
      SumAtMost(m - {t}, most);
      assert (m - {t}).Keys == m.Keys - {t};
      assert |m - {t}| == |m| - 1;
    }
  }

  ghost function StagesOf(b: seq<byte>, s: State): map<Tid, nat> {
    map t | t in s.pc :: Stages(b, s.pc[t])
  }

  ghost function WorkOf(b: seq<byte>, s: State): map<Tid, nat> {
    map t | t in s.pc :: Work(b, s.sh, s.pc[t])
  }

  /** A stage outweighs all the work the threads may find in it. */
  ghost function Potential(b: seq<byte>, s: State): nat {
    Times(Sum(StagesOf(b, s)), Times(|s.pc|, Most(b)) + 1) + Sum(WorkOf(b, s))
  }

  /** A productive step takes its thread a stage on, or does some of its work; other threads get
      no new work unless a fetch has ended, which takes its owner a stage on. */
  lemma StepOfOne(b: seq<byte>, s: State, t: Tid, a: Action)
    requires Inv(b, s) && Enabled(b, s, t, a) && Productive(a)
    ensures GetsOn(b, s, t, a)
  {
    assert PcOk(b, s.sh, t, s.pc[t]);
    if s.pc[t].Reader? {
      StepOfReader(b, s, t, a);
    } else {
      StepOfOther(b, s, t, a);
    }
  }

  /** A stage further, or as far and with less work left. */
  ghost predicate GetsOn(b: seq<byte>, s: State, t: Tid, a: Action)
    requires Enabled(b, s, t, a)
  {
    var p, p' := s.pc[t], NextPc(b, s, t, a);
    || Stages(b, p') < Stages(b, p)
    || (Stages(b, p') == Stages(b, p) && Work(b, NextShared(b, s, t, a), p') < Work(b, s.sh, p) && !a.DoNotify?)
  }

  lemma StepOfReader(b: seq<byte>, s: State, t: Tid, a: Action)
    requires Enabled(b, s, t, a) && Productive(a) && s.pc[t].Reader? && PcOk(b, s.sh, t, s.pc[t])
    requires SharedOk(b, s.sh)
    ensures GetsOn(b, s, t, a)
  {
  }

  lemma StepOfOther(b: seq<byte>, s: State, t: Tid, a: Action)
    requires Enabled(b, s, t, a) && Productive(a) && !s.pc[t].Reader? && PcOk(b, s.sh, t, s.pc[t])
    requires SharedOk(b, s.sh)
    ensures GetsOn(b, s, t, a)
  {
  }

  lemma WorkOfOthers(b: seq<byte>, s: State, t: Tid, a: Action, u: Tid)
    requires Inv(b, s) && Enabled(b, s, t, a) && !a.DoNotify? && u in s.pc && u != t
    ensures Work(b, NextShared(b, s, t, a), s.pc[u]) == Work(b, s.sh, s.pc[u])
  {
    assert PcOk(b, s.sh, u, s.pc[u]);
  }

  lemma StagesDrop(b: seq<byte>, s: State, s': State, t: Tid)
    requires t in s.pc && t in s'.pc && s'.pc == s.pc[t := s'.pc[t]]
    ensures Sum(StagesOf(b, s')) == Sum(StagesOf(b, s)) - Stages(b, s.pc[t]) + Stages(b, s'.pc[t])
  {
    SumUpdate(StagesOf(b, s), t, Stages(b, s'.pc[t]));
    assert StagesOf(b, s') == StagesOf(b, s)[t := Stages(b, s'.pc[t])];
  }

  lemma WorkBounded(b: seq<byte>, s: State)
    ensures Sum(WorkOf(b, s)) <= Times(|s.pc|, Most(b))
  {
    SumAtMost(WorkOf(b, s), Most(b));
    assert WorkOf(b, s).Keys == s.pc.Keys;
    assert |WorkOf(b, s)| == |WorkOf(b, s).Keys| == |s.pc.Keys| == |s.pc|;
  }

  lemma WorkDrops(b: seq<byte>, s: State, t: Tid, a: Action)
    requires Inv(b, s) && Enabled(b, s, t, a) && !a.DoNotify?
    ensures var s' := Next(b, s, t, a);
            Sum(WorkOf(b, s')) == Sum(WorkOf(b, s)) - Work(b, s.sh, s.pc[t]) + Work(b, s'.sh, s'.pc[t])
  {
    var s' := Next(b, s, t, a);
    forall u | u in s.pc && u != t ensures Work(b, s'.sh, s.pc[u]) == Work(b, s.sh, s.pc[u]) {
      WorkOfOthers(b, s, t, a, u);
    }
    WorkOfOne(b, s, s', t, s'.pc[t]);
  }

  lemma WorkOfOne(b: seq<byte>, s: State, s': State, t: Tid, p: Pc)
    requires t in s.pc && s'.pc == s.pc[t := p]
    requires forall u :: u in s.pc && u != t ==> Work(b, s'.sh, s.pc[u]) == Work(b, s.sh, s.pc[u])
    ensures Sum(WorkOf(b, s')) == Sum(WorkOf(b, s)) - Work(b, s.sh, s.pc[t]) + Work(b, s'.sh, p)
  {
    SumUpdate(WorkOf(b, s), t, Work(b, s'.sh, p));
    assert WorkOf(b, s') == WorkOf(b, s)[t := Work(b, s'.sh, p)];
  }

  /** The two sums after a productive step: fewer stages, or as many and less work. */
  lemma StepLowersSums(b: seq<byte>, s: State, t: Tid, a: Action, s': State)
    requires Inv(b, s) && Enabled(b, s, t, a) && Productive(a) && s' == Next(b, s, t, a)
    ensures || Sum(StagesOf(b, s')) < Sum(StagesOf(b, s))
            || (Sum(StagesOf(b, s')) == Sum(StagesOf(b, s)) && Sum(WorkOf(b, s')) < Sum(WorkOf(b, s)))
  {
    StepOfOne(b, s, t, a);
    StagesDrop(b, s, s', t);
    if Stages(b, s'.pc[t]) == Stages(b, s.pc[t]) {
      WorkDrops(b, s, t, a);
    }
  }

  lemma PotentialFalls(b: seq<byte>, s: State, s': State)
    requires |s'.pc| == |s.pc|
    requires || Sum(StagesOf(b, s')) < Sum(StagesOf(b, s))
             || (Sum(StagesOf(b, s')) == Sum(StagesOf(b, s)) && Sum(WorkOf(b, s')) < Sum(WorkOf(b, s)))
    ensures Potential(b, s') < Potential(b, s)
  {
    WorkBounded(b, s');
    Heavier(Sum(StagesOf(b, s')), Sum(StagesOf(b, s)), Times(|s.pc|, Most(b)), Sum(WorkOf(b, s')), Sum(WorkOf(b, s)));
  }

  lemma StepLowersPotential(b: seq<byte>, s: State, t: Tid, a: Action, s': State)
    requires Inv(b, s) && Enabled(b, s, t, a) && Productive(a) && s' == Next(b, s, t, a)
    ensures Potential(b, s') < Potential(b, s)
  {
    SameThreads(s.pc, t, s'.pc[t]);
    StepLowersSums(b, s, t, a, s');
    PotentialFalls(b, s, s');
  }

  lemma SameThreads(pc: map<Tid, Pc>, t: Tid, p: Pc)
    requires t in pc
    ensures |pc[t := p]| == |pc|
  {
    assert pc[t := p].Keys == pc.Keys;
    assert |pc[t := p].Keys| == |pc.Keys|;
  }

  lemma {:induction false} Heavier(m: nat, n: nat, k: nat, v: nat, w: nat)
    requires (m < n && v <= k) || (m == n && v < w)
    ensures Times(m, k + 1) + v < Times(n, k + 1) + w
  {
    if m + 1 < n { Heavier(m, n - 1, k, v, w); }
  }

  /** The work is finite: however they interleave, productive steps come to an end. Together with
      `NoDeadlock`: without new arrivals every operation returns, and no wait needs its timeout. */
  lemma {:induction false} ProductiveRunsEnd(b: seq<byte>, s: State, steps: seq<Step>, s': State)
    requires Inv(b, s) && Reaches(b, s, steps, s')
    requires forall i :: 0 <= i < |steps| ==> Productive(steps[i].a)
    ensures |steps| + Potential(b, s') <= Potential(b, s)
    decreases |steps|
  {
    if steps != [] {
      StepKeepsInv(b, s, steps[0].t, steps[0].a);
      var s1 := Next(b, s, steps[0].t, steps[0].a);
      StepLowersPotential(b, s, steps[0].t, steps[0].a, s1);
      ProductiveRunsEnd(b, s1, steps[1..], s');
    }
  }

  // ---- What does not hold ----------------------------------------------------------------------------

  /** On a one-byte blob: both readers have loaded the clear bit, and the first goes on to fetch.
      (From there the second registers, too late to see the bit.) */
  function LatePath(i: nat): State
    requires i <= 11
  {
    var io := map[0 := InFlightIO(false, 1)];
    var at := (ph: Phase) => Reader(0, 1, 1, 0, ph);
    var blank := Shared([0], [false], map[], map[], 0);
    if i == 0 then State(blank, map[1 := Idle, 2 := Idle])
    else if i == 1 then State(blank, map[1 := WantRead(0, 1), 2 := Idle])
    else if i == 2 then State(blank, map[1 := at(LoadBit), 2 := Idle])
    else if i == 3 then State(blank, map[1 := at(Enroll), 2 := Idle])
    else if i == 4 then State(blank, map[1 := at(Enroll), 2 := WantRead(0, 1)])
    else if i == 5 then State(blank, map[1 := at(Enroll), 2 := at(LoadBit)])
    else if i == 6 then State(blank, map[1 := at(Enroll), 2 := at(Enroll)])
    else if i == 7 then State(Shared([0], [false], map[0 := 0], io, 1), map[1 := at(Fetch(0, 0)), 2 := at(Enroll)])
    else if i == 8 then State(Shared([7], [false], map[0 := 0], io, 1), map[1 := at(Fetch(0, 1)), 2 := at(Enroll)])
    else if i == 9 then State(Shared([7], [false], map[0 := 0], io, 1), map[1 := at(SetBit(0)), 2 := at(Enroll)])
    else if i == 10 then State(Shared([7], [true], map[0 := 0], io, 1), map[1 := at(Unlist(0, true)), 2 := at(Enroll)])
    else State(Shared([7], [true], map[], io, 1), map[1 := at(Notify(0, true)), 2 := at(Enroll)])
  }

  function LateStep(i: nat): Step
    requires i < 11
  {
    [Step(1, StartRead(0, 1)), Step(1, LockRead), Step(1, DoLoadBit),
     Step(2, StartRead(0, 1)), Step(2, LockRead), Step(2, DoLoadBit),
     Step(1, DoEnroll), Step(1, FetchBytes(1)), Step(1, FetchOk), Step(1, DoSetBit), Step(1, DoUnlist)][i]
  }

  lemma LatePathReads(i: nat)
    requires i < 6
    ensures Enabled([7], LatePath(i), LateStep(i).t, LateStep(i).a)
    ensures Next([7], LatePath(i), LateStep(i).t, LateStep(i).a) == LatePath(i + 1)
  {
    var s, s', st := LatePath(i), LatePath(i + 1), LateStep(i);
    assert Next([7], s, st.t, st.a).pc == s'.pc;
  }

  lemma LatePathFetches(i: nat)
    requires 6 <= i < 8
    ensures Enabled([7], LatePath(i), LateStep(i).t, LateStep(i).a)
    ensures Next([7], LatePath(i), LateStep(i).t, LateStep(i).a) == LatePath(i + 1)
  {
    var s, s', st := LatePath(i), LatePath(i + 1), LateStep(i);
    assert Next([7], s, st.t, st.a).sh == s'.sh;
    assert Next([7], s, st.t, st.a).pc == s'.pc;
  }

  lemma LatePathEnds(i: nat)
    requires 8 <= i < 11
    ensures Enabled([7], LatePath(i), LateStep(i).t, LateStep(i).a)
    ensures Next([7], LatePath(i), LateStep(i).t, LateStep(i).a) == LatePath(i + 1)
  {
    var s, s', st := LatePath(i), LatePath(i + 1), LateStep(i);
    assert Next([7], s, st.t, st.a).sh == s'.sh;
    assert Next([7], s, st.t, st.a).pc == s'.pc;
  }

  /** A chunk may be fetched again although its bit is set: the bit is loaded before the thread
      registers, and the fetch that set it may finish in between. */
  lemma LateRefetch() returns (steps: seq<Step>, s': State)
    ensures Init([7], LatePath(0)) && Reaches([7], LatePath(0), steps, s')
    ensures s'.sh.bits == [true] && 2 in s'.pc && s'.pc[2] == Reader(0, 1, 1, 0, Fetch(1, 0))
  {
    steps, s' := [], LatePath(0);
    for i := 0 to 11
      invariant s' == LatePath(i) && Reaches([7], LatePath(0), steps, s')
    {
      if i < 6 { LatePathReads(i); } else if i < 8 { LatePathFetches(i); } else { LatePathEnds(i); }
      ReachesThen([7], LatePath(0), steps, s', LateStep(i).t, LateStep(i).a);
      steps := steps + [LateStep(i)];
      s' := LatePath(i + 1);
    }
    ReachesThen([7], LatePath(0), steps, s', 2, DoEnroll);
    steps := steps + [Step(2, DoEnroll)];
    s' := Next([7], s', 2, DoEnroll);
  }

  // ---- When a present chunk can be fetched again -------------------------------------------------------

  /** Thread `t` has loaded the bit of chunk `idx`, found it clear, and not yet registered. */
  predicate AboutToEnroll(s: State, t: Tid, idx: nat) {
    t in s.pc && s.pc[t].Reader? && s.pc[t].idx == idx && s.pc[t].phase.Enroll?
  }

  /** Its registration would open a fetch. */
  predicate CanOpen(s: State, t: Tid, idx: nat) {
    AboutToEnroll(s, t, idx) && idx !in s.sh.inFlight
  }

  /** No invalidator clears bit `idx` in the run. */
  ghost predicate KeepsBit(b: seq<byte>, s: State, steps: seq<Step>, idx: nat)
    decreases |steps|
  {
    steps == [] || !Enabled(b, s, steps[0].t, steps[0].a)
    || (!(steps[0].a.ClearBit? && s.pc[steps[0].t].chunk == idx)
        && KeepsBit(b, Next(b, s, steps[0].t, steps[0].a), steps[1..], idx))
  }

  /** Some run that keeps the bit leads to a state in which a thread opens a fetch of the chunk. */
  ghost predicate CanBeRefetched(b: seq<byte>, s: State, idx: nat) {
    exists steps, s', t :: Reaches(b, s, steps, s') && KeepsBit(b, s, steps, idx) && CanOpen(s', t, idx)
  }

  /** While a bit is set no thread comes to the point of registering for its chunk. */
  lemma NoneComesToEnroll(b: seq<byte>, s: State, u: Tid, a: Action, t: Tid, idx: nat)
    requires Enabled(b, s, u, a) && idx < |s.sh.bits| && s.sh.bits[idx] && !(a.ClearBit? && s.pc[u].chunk == idx)
    requires AboutToEnroll(Next(b, s, u, a), t, idx)
    ensures AboutToEnroll(s, t, idx)
  {
  }

  lemma BitStays(b: seq<byte>, s: State, u: Tid, a: Action, idx: nat)
    requires Enabled(b, s, u, a) && idx < |s.sh.bits| && s.sh.bits[idx] && !(a.ClearBit? && s.pc[u].chunk == idx)
    ensures var sh' := Next(b, s, u, a).sh; idx < |sh'.bits| && sh'.bits[idx]
  {
  }

  lemma {:induction false} RefetchNeedsEnroll(b: seq<byte>, s: State, steps: seq<Step>, s': State, t: Tid, idx: nat)
    requires idx < |s.sh.bits| && s.sh.bits[idx]
    requires Reaches(b, s, steps, s') && KeepsBit(b, s, steps, idx) && AboutToEnroll(s', t, idx)
    ensures AboutToEnroll(s, t, idx)
    decreases |steps|
  {
    if steps != [] {
      var u, a := steps[0].t, steps[0].a;
      BitStays(b, s, u, a, idx);
      RefetchNeedsEnroll(b, Next(b, s, u, a), steps[1..], s', t, idx);
      NoneComesToEnroll(b, s, u, a, t, idx);
    }
  }

  /** The owner of a listed fetch can take it off the list, if need be by failing. */
  lemma OwnerUnlists(b: seq<byte>, s: State, idx: nat) returns (steps: seq<Step>, s': State)
    requires Inv(b, s) && idx in s.sh.inFlight
    ensures Reaches(b, s, steps, s') && KeepsBit(b, s, steps, idx) && idx !in s'.sh.inFlight
    ensures forall t :: AboutToEnroll(s, t, idx) ==> AboutToEnroll(s', t, idx)
  {
    var io := s.sh.inFlight[idx];
    var u := s.sh.ios[io].owner;
    assert WillUnlist(s.pc[u], idx) && PcOk(b, s.sh, u, s.pc[u]);
    var p := s.pc[u];
    if p.phase.Unlist? {
      s' := Next(b, s, u, DoUnlist);
      steps := [Step(u, DoUnlist)];
      assert steps[1..] == [];
    } else {
      var first := if p.phase.Fetch? then FetchErr else DoSetBit;
      var s1 := Next(b, s, u, first);
      s' := Next(b, s1, u, DoUnlist);
      steps := [Step(u, first), Step(u, DoUnlist)];
      TwoSteps(b, s, steps[0], steps[1], s');
      assert steps[1..] == [Step(u, DoUnlist)] && steps[1..][1..] == [];
      assert KeepsBit(b, s1, steps[1..], idx);
    }
  }

  /** Exactly when a chunk whose bit is set can be fetched again without its bit being cleared: when some
      thread has loaded the bit before it was set, and not registered since. */
  lemma RefetchIff(b: seq<byte>, s: State, idx: nat)
    requires Inv(b, s) && idx < |s.sh.bits| && s.sh.bits[idx]
    ensures CanBeRefetched(b, s, idx) <==> exists t :: AboutToEnroll(s, t, idx)
  {
    if CanBeRefetched(b, s, idx) {
      var steps, s', t :| Reaches(b, s, steps, s') && KeepsBit(b, s, steps, idx) && CanOpen(s', t, idx);
      RefetchNeedsEnroll(b, s, steps, s', t, idx);
    }
    if t :| AboutToEnroll(s, t, idx) {
      var steps: seq<Step>, s' := [], s;
      if idx in s.sh.inFlight {
        steps, s' := OwnerUnlists(b, s, idx);
      }
      assert Reaches(b, s, steps, s') && KeepsBit(b, s, steps, idx) && CanOpen(s', t, idx);
    }
  }
}
