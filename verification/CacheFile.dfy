/** The cache as one thread runs it: a raw file and a bitmap, both mapped and changed in place.
    (The in-flight map and the locks, which only matter between threads, are in CacheProtocol.) */
module CacheFile {
  import opened Bytes
  import opened DedupQuery
  import C = CacheProtocol

  datatype CacheError = IoError | InvalidRange

  datatype CacheResult<T> = Ok(value: T) | Err(error: CacheError)

  function AlignUp(v: nat, align: nat): nat
    requires align > 0
  {
    (v + align - 1) / align * align
  }

  /** `bitmap_file_size`. */
  function BitmapFileSize(size: nat, pageSize: nat): nat {
    var n := AlignUp(AlignUp(size, CHUNK_SIZE) / CHUNK_SIZE, 8) / 8;
    if n >= pageSize then n else pageSize
  }

  /** The bitmap has a bit for every chunk of the blob. */
  lemma BitmapCoversChunks(size: nat, pageSize: nat, off: nat)
    requires off < size
    ensures AlignUp(size, CHUNK_SIZE) / CHUNK_SIZE == C.NumChunks(size)
    ensures off / CHUNK_SIZE < C.NumChunks(size) <= 8 * BitmapFileSize(size, pageSize)
    ensures BitmapFileSize(size, pageSize) == pageSize || 8 * (BitmapFileSize(size, pageSize) - 1) < C.NumChunks(size)
    ensures BitmapFileSize(size, pageSize) >= pageSize
  {
  }

  function Mask(shift: nat): bv8
    requires shift < 8
  {
    1 << shift
  }

  /** Is bit `i` of the bitmap set? */
  predicate BitAt(bytes: seq<bv8>, i: nat)
    requires i / 8 < |bytes|
  {
    bytes[i / 8] & Mask(i % 8) != 0
  }

  lemma MaskOneBit(shift: nat)
    requires shift < 8
    ensures Mask(shift) == [1, 2, 4, 8, 16, 32, 64, 128][shift]
  {
  }

  lemma SetInByte(v: bv8, s: nat, u: nat)
    requires s < 8 && u < 8
    ensures (v | Mask(s)) & Mask(u) != 0 <==> u == s || v & Mask(u) != 0
    ensures v & !Mask(s) & Mask(u) != 0 <==> u != s && v & Mask(u) != 0
  {
    MaskOneBit(s);
    MaskOneBit(u);
  }

  lemma SetBitFrame(bytes: seq<bv8>, i: nat, k: nat)
    requires i / 8 < |bytes| && k / 8 < |bytes|
    ensures BitAt(bytes[i / 8 := bytes[i / 8] | Mask(i % 8)], k) <==> k == i || BitAt(bytes, k)
  {
    if k / 8 == i / 8 { SetInByte(bytes[i / 8], i % 8, k % 8); }
  }

  lemma ClearBitFrame(bytes: seq<bv8>, i: nat, k: nat)
    requires i / 8 < |bytes| && k / 8 < |bytes|
    ensures BitAt(bytes[i / 8 := bytes[i / 8] & !Mask(i % 8)], k) <==> k != i && BitAt(bytes, k)
  {
    if k / 8 == i / 8 { SetInByte(bytes[i / 8], i % 8, k % 8); }
  }

  /** The bits as the protocol model has them. */
  ghost function Bits(bytes: seq<bv8>, n: nat): (bits: seq<bool>)
    requires n <= 8 * |bytes|
    ensures |bits| == n && forall i :: 0 <= i < n ==> bits[i] == BitAt(bytes, i)
  {
    seq(n, i requires 0 <= i < n => BitAt(bytes, i))
  }

  lemma BitsAfterSet(bytes: seq<bv8>, i: nat, n: nat)
    requires i < n <= 8 * |bytes|
    ensures Bits(bytes[i / 8 := bytes[i / 8] | Mask(i % 8)], n) == Bits(bytes, n)[i := true]
  {
    var after := Bits(bytes[i / 8 := bytes[i / 8] | Mask(i % 8)], n);
    forall k | 0 <= k < n ensures after[k] == Bits(bytes, n)[i := true][k] {
      SetBitFrame(bytes, i, k);
    }
  }

  lemma BitsAfterClear(bytes: seq<bv8>, i: nat, n: nat)
    requires i < n <= 8 * |bytes|
    ensures Bits(bytes[i / 8 := bytes[i / 8] & !Mask(i % 8)], n) == Bits(bytes, n)[i := false]
  {
    var after := Bits(bytes[i / 8 := bytes[i / 8] & !Mask(i % 8)], n);
    forall k | 0 <= k < n ensures after[k] == Bits(bytes, n)[i := false][k] {
      ClearBitFrame(bytes, i, k);
    }
  }

  /** A fetch writes all that is asked for, or fails after writing so many bytes. */
  datatype Fetched = Delivered | Broken(n: nat)

  /** How the drop of a chunk ends once its bit is clear: the bitmap cannot be synced, or the hole not be
      punched, or all is done. */
  datatype Dropped = NotSynced | NotPunched | Punched

  /** How many of the bits from `first` up to `end` are clear. */
  function Missing(bits: seq<bool>, first: nat, end: nat): nat
    requires end <= |bits|
    decreases end
  {
    if end <= first then 0 else Missing(bits, first, end - 1) + (if bits[end - 1] then 0 else 1)
  }

  /** The bits from `first` up to `end` set. */
  function SetRange(bits: seq<bool>, first: nat, end: nat): (r: seq<bool>)
    requires end <= |bits|
    ensures |r| == |bits|
    decreases end
  {
    if end <= first then bits else SetRange(bits, first, end - 1)[end - 1 := true]
  }

  lemma {:induction false} SetRangeBit(bits: seq<bool>, first: nat, end: nat, i: nat)
    requires end <= |bits| && i < |bits|
    ensures SetRange(bits, first, end)[i] == (first <= i < end || bits[i])
    decreases end
  {
    if first < end {
      SetRangeBit(bits, first, end - 1, i);
    }
  }

  lemma SetRangeSets(bits: seq<bool>, first: nat, end: nat)
    requires end <= |bits|
    ensures C.BitsSet(SetRange(bits, first, end), first, end)
    ensures forall i :: 0 <= i < |bits| && bits[i] ==> SetRange(bits, first, end)[i]
  {
    forall i | 0 <= i < |bits| ensures SetRange(bits, first, end)[i] == (first <= i < end || bits[i]) {
      SetRangeBit(bits, first, end, i);
    }
  }

  class Cache {
    /** The bytes of the backend. */
    const b: seq<byte>
    /** What the i-th fetch from it does, and how many there have been. */
    const fetches: nat -> Fetched
    var fetched: nat
    /** How the i-th drop of a chunk ends, and how many there have been. */
    const drops: nat -> Dropped
    var dropped: nat
    const raw: array<byte>
    const bitmap: array<bv8>

    constructor (b: seq<byte>, pageSize: nat, fetches: nat -> Fetched, drops: nat -> Dropped)
      ensures Valid() && this.b == b && fresh(raw) && fresh(bitmap)
      ensures this.fetches == fetches && fetched == 0 && this.drops == drops && dropped == 0
      ensures forall i :: 0 <= i < C.NumChunks(|b|) ==> !GetBits()[i]
    {
      this.b, this.fetches, fetched, this.drops, dropped := b, fetches, 0, drops, 0;
      raw := new byte[|b|];
      bitmap := new bv8[BitmapFileSize(|b|, pageSize)](_ => 0);
      new;
      if |b| > 0 { BitmapCoversChunks(|b|, pageSize, 0); }
      forall i | 0 <= i < C.NumChunks(|b|) ensures !BitAt(bitmap[..], i) {
        assert bitmap[..][i / 8] == 0;
      }
    }

    ghost predicate Sized() {
      raw as object != bitmap && raw.Length == |b| && C.NumChunks(|b|) <= 8 * bitmap.Length
    }

    ghost function GetBits(): (bits: seq<bool>)
      requires Sized()
      reads bitmap
    {
      Bits(bitmap[..], C.NumChunks(|b|))
    }

    /** Cache truth. */
    ghost predicate Valid()
      reads raw, bitmap
    {
      Sized() && C.Truth(raw[..], GetBits(), b)
    }

    /** The compare-and-swap of a byte, undisturbed; it is left out where nothing changes. */
    method StoreByte(at: nat, new_: bv8)
      requires at < bitmap.Length
      modifies bitmap
      ensures bitmap[..] == old(bitmap[..])[at := new_]
    {
      ghost var before := bitmap[..];
      if bitmap[at] != new_ {
        bitmap[at] := new_;
      }
      assert bitmap[..] == before[at := new_];
    }

    /** `set_bit`. */
    method SetBit(i: nat)
      requires Sized() && i < C.NumChunks(|b|)
      modifies bitmap
      ensures GetBits() == old(GetBits())[i := true]
    {
      BitsAfterSet(bitmap[..], i, C.NumChunks(|b|));
      StoreByte(i / 8, bitmap[i / 8] | Mask(i % 8));
    }

    /** `clear_bit`. */
    method ClearBit(i: nat)
      requires Sized() && i < C.NumChunks(|b|)
      modifies bitmap
      ensures GetBits() == old(GetBits())[i := false]
    {
      BitsAfterClear(bitmap[..], i, C.NumChunks(|b|));
      StoreByte(i / 8, bitmap[i / 8] & !Mask(i % 8));
    }

    method TestBit(i: nat) returns (r: bool)
      requires Sized() && i < C.NumChunks(|b|)
      ensures r == GetBits()[i]
    {
      assert bitmap[..][i / 8] == bitmap[i / 8];
      r := bitmap[i / 8] & Mask(i % 8) != 0;
    }

    /** All fetches from the `from`-th up to the `to`-th deliver. */
    ghost predicate AllDeliver(from: nat, to: nat) {
      forall i :: from <= i < to ==> fetches(i).Delivered?
    }

    /** All drops from the `from`-th up to the `to`-th come to their end. */
    ghost predicate AllDropped(from: nat, to: nat) {
      forall i :: from <= i < to ==> drops(i).Punched?
    }

    /** The backend writes the range, or fails after writing part of it. */
    method BackendFetch(start: nat, end: nat) returns (ok: bool, ghost got: nat)
      requires start <= end <= raw.Length == |b|
      modifies this`fetched, raw
      ensures fetched == old(fetched) + 1 && ok == fetches(old(fetched)).Delivered?
      ensures got <= end - start && (ok ==> got == end - start)
      ensures raw[..] == C.Overwrite(old(raw[..]), b, start, got)
    {
      var f := fetches(fetched);
      fetched := fetched + 1;
      ok := f.Delivered?;
      var n := if f.Delivered? || f.n > end - start then end - start else f.n;
      got := n;
      forall k | start <= k < start + n {
        raw[k] := b[k];
      }
      assert raw[..] == C.Overwrite(old(raw[..]), b, start, n);
    }

    /** Bytes only change to what the backend has. */
    twostate predicate OnlyBackendBytes()
      requires Sized()
      reads raw
    {
      forall k :: 0 <= k < |b| ==> raw[k] == old(raw[k]) || raw[k] == b[k]
    }

    /** A reader's effect on the cache: more bits, and more backend bytes. */
    twostate predicate OnlyFetched()
      requires Sized()
      reads raw, bitmap
    {
      (forall i :: 0 <= i < C.NumChunks(|b|) && old(GetBits()[i]) ==> GetBits()[i]) && OnlyBackendBytes()
    }

    method FetchChunk(idx: nat) returns (ok: bool)
      requires Valid() && idx < C.NumChunks(|b|)
      modifies this`fetched, raw, bitmap
      ensures fetched == old(fetched) + 1 && ok == fetches(old(fetched)).Delivered?
      ensures Valid() && OnlyBackendBytes()
      ensures ok ==> GetBits() == old(GetBits())[idx := true]
      ensures !ok ==> GetBits() == old(GetBits())
    {
      var start := idx * CHUNK_SIZE;
      var end := if (idx + 1) * CHUNK_SIZE <= |b| then (idx + 1) * CHUNK_SIZE else |b|;
      ghost var was := raw[..];
      ghost var got;
      ok, got := BackendFetch(start, end);
      assert bitmap[..] == old(bitmap[..]);
      FetchKeepsTruth(was, raw[..], GetBits(), idx, got, b);
      assert forall k :: 0 <= k < |b| ==> raw[..][k] == raw[k];
      if ok {
        SetBit(idx);
      }
    }

    /** One round of the loop below: the chunk is fetched unless it is there. */
    method FetchIfMissing(idx: nat) returns (ok: bool)
      requires Valid() && idx < C.NumChunks(|b|)
      modifies this`fetched, raw, bitmap
      ensures Valid() && OnlyBackendBytes()
      ensures fetched == old(fetched) + (if old(GetBits()[idx]) then 0 else 1)
      ensures ok <==> AllDeliver(old(fetched), fetched)
      ensures GetBits() == if ok then old(GetBits())[idx := true] else old(GetBits())
    {
      var present := TestBit(idx);
      if present {
        assert GetBits()[idx := true] == GetBits();
        return true;
      }
      ok := FetchChunk(idx);
    }

    /** The loop of `fetch_data`: it succeeds unless a fetch fails, and fetches each missing chunk once and
        no other. `end` is where it stops. */
    method FetchChunks(first: nat, last: nat) returns (ok: bool, ghost end: nat)
      requires Valid() && first <= last < C.NumChunks(|b|)
      modifies this`fetched, raw, bitmap
      ensures Valid() && OnlyBackendBytes() && fetched >= old(fetched)
      ensures ok <==> AllDeliver(old(fetched), fetched)
      ensures first <= end <= last + 1 && GetBits() == SetRange(old(GetBits()), first, end)
      ensures ok ==> end == last + 1 && fetched == old(fetched) + Missing(old(GetBits()), first, end)
    {
      var idx := first;
      ghost var bits := GetBits();
      end := idx;
      while idx <= last
        invariant first <= idx == end <= last + 1 <= |bits|
        invariant Valid() && OnlyBackendBytes()
        invariant GetBits() == SetRange(bits, first, idx)
        invariant fetched == old(fetched) + Missing(bits, first, idx) && AllDeliver(old(fetched), fetched)
      {
        SetRangeBit(bits, first, idx, idx);
        ok := FetchIfMissing(idx);
        if !ok {
          return;
        }
        idx := idx + 1;
        end := idx;
      }
      ok := true;
    }

    /** On success exactly the bits of the range have been added. */
    method FetchData(off: nat, len: nat) returns (r: CacheResult<()>)
      requires Valid() && off + len <= |b|
      modifies this`fetched, raw, bitmap
      ensures Valid() && OnlyFetched() && fetched >= old(fetched)
      ensures r.Ok? <==> AllDeliver(old(fetched), fetched)
      ensures r.Ok? && len == 0 ==> fetched == old(fetched)
      ensures r.Ok? && len > 0 ==>
                var first, end := off / CHUNK_SIZE, (off + len - 1) / CHUNK_SIZE + 1;
                && end <= C.NumChunks(|b|) && GetBits() == SetRange(old(GetBits()), first, end)
                && fetched == old(fetched) + Missing(old(GetBits()), first, end)
      ensures r.Err? ==> r.error == IoError
    {
      if len == 0 {
        return Ok(());
      }
      ghost var bits, end := GetBits(), 0;
      var ok;
      ok, end := FetchChunks(off / CHUNK_SIZE, (off + len - 1) / CHUNK_SIZE);
      SetRangeSets(bits, off / CHUNK_SIZE, end);
      return if ok then Ok(()) else Err(IoError);
    }

    method FixRange(off: nat, size: nat) returns (r: CacheResult<nat>)
      ensures r == if off >= |b| then Err(CacheError.InvalidRange) else Ok(MinOf(off + size, |b|))
    {
      if off >= |b| {
        return Err(CacheError.InvalidRange);
      }
      return Ok(if off + size > |b| then |b| else off + size);
    }

    /** Out of the mapped file. */
    method CopyOut(off: nat, n: nat, buf: array<byte>, at: nat)
      requires off + n <= raw.Length && at + n <= buf.Length && buf != raw
      modifies buf
      ensures buf[..] == old(buf[..at]) + raw[off..off + n] + old(buf[at + n..])
    {
      forall k | 0 <= k < n {
        buf[at + k] := raw[off + k];
      }
      assert buf[..] == old(buf[..at]) + raw[off..off + n] + old(buf[at + n..]);
    }

    /** `fetch_data` of a range that is not empty: afterwards its bytes are the backend's. */
    method FetchBytes(off: nat, end: nat) returns (r: CacheResult<()>)
      requires Valid() && off < end <= |b|
      modifies this`fetched, raw, bitmap
      ensures Valid() && OnlyFetched() && fetched >= old(fetched)
      ensures r.Ok? <==> AllDeliver(old(fetched), fetched)
      ensures r.Ok? ==> raw[off..end] == b[off..end]
      ensures r.Err? ==> r.error == IoError
    {
      ghost var bits := GetBits();
      r := FetchData(off, end - off);
      if r.Ok? {
        SetRangeSets(bits, off / CHUNK_SIZE, (end - 1) / CHUNK_SIZE + 1);
        MarkedIsBackend(raw[..], GetBits(), b, off, end);
        assert raw[off..end] == raw[..][off..end];
      }
    }

    /** `read_at` and `fetch`: on success the first bytes of the buffer are the backend's. */
    method ReadAt(off: nat, buf: array<byte>, at: nat, want: nat) returns (r: CacheResult<nat>)
      requires Valid() && at + want <= buf.Length && buf != raw && buf as object != bitmap
      modifies this`fetched, raw, bitmap, buf
      ensures Valid() && OnlyFetched() && fetched >= old(fetched)
      ensures r.Ok? <==> want == 0 || (off < |b| && AllDeliver(old(fetched), fetched))
      ensures r.Ok? ==>
        && r.value == (if want == 0 then 0 else MinOf(off + want, |b|) - off)
        && (want == 0 ==> buf[..] == old(buf[..]))
        && (want > 0 ==> buf[..] == old(buf[..at]) + b[off..off + r.value] + old(buf[at + r.value..]))
      ensures r.Err? ==> buf[..] == old(buf[..]) && (r.error == CacheError.InvalidRange <==> off >= |b|)
    {
      if want == 0 {
        return Ok(0);
      }
      var range := FixRange(off, want);
      if range.Err? {
        return Err(range.error);
      }
      var fetched := FetchBytes(off, range.value);
      if fetched.Err? {
        return Err(fetched.error);
      }
      CopyOut(off, range.value - off, buf, at);
      return Ok(range.value - off);
    }

    /** The chunk's bit goes first, then, if the bitmap could be synced, its bytes. */
    method InvalidateChunk(chunk: nat) returns (ok: bool)
      requires Valid()
      modifies this`dropped, raw, bitmap
      ensures Valid()
      ensures GetBits() == if chunk < C.NumChunks(|b|) then old(GetBits())[chunk := false] else old(GetBits())
      ensures var present := chunk < C.NumChunks(|b|) && old(GetBits()[chunk]);
              && dropped == old(dropped) + (if present then 1 else 0)
              && ok == (present ==> drops(old(dropped)).Punched?)
              && forall k :: 0 <= k < |b| ==>
                   raw[k] == if present && ok && chunk * CHUNK_SIZE <= k < ChunkEnd(|b|, chunk) then 0 else old(raw[k])
    {
      if chunk * CHUNK_SIZE >= |b| {
        return true;
      }
      var present := TestBit(chunk);
      if !present {
        return true;
      }
      ghost var was := raw[..];
      ClearBit(chunk);
      assert raw[..] == was;
      var how := drops(dropped);
      dropped := dropped + 1;
      if !how.Punched? {
        return false;
      }
      PunchHole(chunk);
      assert forall k :: 0 <= k < |b| ==> raw[k] == raw[..][k] && was[k] == old(raw[k]);
      HoleKeepsTruth(was, raw[..], GetBits(), chunk, b);
      return true;
    }

    /** The file with a hole in the place of the chunk. */
    ghost function Punch(was: seq<byte>, chunk: nat): seq<byte>
      requires |was| == |b| && chunk < C.NumChunks(|b|)
    {
      C.Overwrite(was, Zeros(|b|), chunk * CHUNK_SIZE, ChunkEnd(|b|, chunk) - chunk * CHUNK_SIZE)
    }

    method PunchHole(chunk: nat)
      requires raw.Length == |b| && chunk < C.NumChunks(|b|)
      modifies raw
      ensures raw[..] == Punch(old(raw[..]), chunk)
    {
      forall k | chunk * CHUNK_SIZE <= k < ChunkEnd(|b|, chunk) {
        raw[k] := 0;
      }
      assert raw[..] == Punch(old(raw[..]), chunk);
    }
  }

  /** Bytes below chunks that are all marked are the backend's. */
  lemma MarkedIsBackend(raw: seq<byte>, bits: seq<bool>, b: seq<byte>, off: nat, end: nat)
    requires C.Truth(raw, bits, b) && off < end <= |b|
    requires C.BitsSet(bits, off / CHUNK_SIZE, (end - 1) / CHUNK_SIZE + 1)
    ensures raw[off..end] == b[off..end]
  {
    var sh := C.Shared(raw, bits, map[], map[], 0);
    C.CopyIsBackend(b, sh, C.Reader(off, end, 0, 0, C.Copy([])), end - off);
    assert off + (end - off) == end;
  }

  lemma FetchKeepsTruth(was: seq<byte>, now: seq<byte>, bits: seq<bool>, idx: nat, got: nat, b: seq<byte>)
    requires C.Truth(was, bits, b) && idx < |bits| && idx * CHUNK_SIZE + got <= ChunkEnd(|b|, idx)
    requires now == C.Overwrite(was, b, idx * CHUNK_SIZE, got)
    ensures C.Truth(now, bits, b)
    ensures forall k :: 0 <= k < |b| ==> now[k] == was[k] || now[k] == b[k]
    ensures idx * CHUNK_SIZE + got == ChunkEnd(|b|, idx) ==> C.Truth(now, bits[idx := true], b)
  {
  }

  lemma HoleKeepsTruth(was: seq<byte>, now: seq<byte>, bits: seq<bool>, chunk: nat, b: seq<byte>)
    requires C.Truth(was, bits, b) && chunk < |bits| && !bits[chunk]
    requires now == C.Overwrite(was, Zeros(|b|), chunk * CHUNK_SIZE, ChunkEnd(|b|, chunk) - chunk * CHUNK_SIZE)
    ensures C.Truth(now, bits, b)
  {
    forall i | 0 <= i < |bits| && bits[i] ensures C.Agree(now, b, i * CHUNK_SIZE, ChunkEnd(|b|, i)) {
      assert C.Agree(was, b, i * CHUNK_SIZE, ChunkEnd(|b|, i));
      assert i < chunk || i > chunk;
    }
  }
}
