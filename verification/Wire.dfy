/** The peer protocol on the wire: request and response frames, the server's parse loop, and the
    vectored writes that put a response on a stream. */
module Wire {
  import opened Basics
  import opened Bytes
  import opened CheckSums
  import opened DedupQuery

  const REQUEST_LEN: nat := 50
  const RESPONSE_HEADER_LEN: nat := 13
  const MAX_CHUNK_PAYLOAD_SIZE: nat := CHUNK_SIZE

  datatype MessageType =
    GetChunk | PrefetchChunk | RegisterChunk | UnregisterChunk | RegisterChunks | UnregisterChunks | HealthCheck
  {
    function ToByte(): byte {
      match this
      case GetChunk => 1
      case PrefetchChunk => 2
      case RegisterChunk => 3
      case UnregisterChunk => 4
      case RegisterChunks => 5
      case UnregisterChunks => 6
      case HealthCheck => 7
    }

    static function TryFrom(b: byte): Option<MessageType> {
      match b
      case 1 => Some(GetChunk)
      case 2 => Some(PrefetchChunk)
      case 3 => Some(RegisterChunk)
      case 4 => Some(UnregisterChunk)
      case 5 => Some(RegisterChunks)
      case 6 => Some(UnregisterChunks)
      case 7 => Some(HealthCheck)
      case _ => None
    }

    predicate IsBatch() {
      RegisterChunks? || UnregisterChunks?
    }
  }

  datatype Request = Request(requestId: u64, kind: MessageType, cs: CheckSum, offset: u32, length: u32)

  function EncodeRequest(r: Request): (buf: seq<byte>)
    ensures |buf| == REQUEST_LEN
  {
    WordCapacities();
    ToBE(r.requestId, 8) + [r.kind.ToByte(), r.cs.algo.ToByte()] + r.cs.raw + ToBE(r.offset, 4) + ToBE(r.length, 4)
  }

  /** The layout of a request header: id, kind and hash method, digest, offset, length. */
  lemma RequestLayout(r: Request)
    ensures Capacity(8) == 0x1_0000_0000_0000_0000 && Capacity(4) == 0x1_0000_0000
    ensures var s := EncodeRequest(r);
            && FromBE(s[..8]) == r.requestId && s[8] == r.kind.ToByte() && s[9] == r.cs.algo.ToByte()
            && s[10..42] == r.cs.raw && FromBE(s[42..46]) == r.offset && FromBE(s[46..]) == r.length
  {
    WordCapacities();
    var s := EncodeRequest(r);
    assert s[..8] == ToBE(r.requestId, 8) && s[42..46] == ToBE(r.offset, 4) && s[46..] == ToBE(r.length, 4);
    FromToBE(r.requestId, 8);
    FromToBE(r.offset, 4);
    FromToBE(r.length, 4);
  }

  function DecodeRequest(buf: seq<byte>): Option<Request>
    requires |buf| == REQUEST_LEN
  {
    WordCapacities();
    match MessageType.TryFrom(buf[8])
    case None => None
    case Some(kind) =>
      Some(Request(FromBE(buf[..8]), kind, CheckSum(buf[10..42], HashMethod.FromByte(buf[9])),
                   FromBE(buf[42..46]), FromBE(buf[46..])))
  }

  lemma RequestRoundTrip(r: Request)
    ensures DecodeRequest(EncodeRequest(r)) == Some(r)
  {
    WordCapacities();
    var buf := EncodeRequest(r);
    assert buf[..8] == ToBE(r.requestId, 8) && buf[10..42] == r.cs.raw;
    assert buf[42..46] == ToBE(r.offset, 4) && buf[46..] == ToBE(r.length, 4);
    FromToBE(r.requestId, 8);
    FromToBE(r.offset, 4);
    FromToBE(r.length, 4);
  }

  /** Decoding loses nothing but the value of an unknown hash method. */
  lemma DecodeIsInjectiveUpToMethod(buf: seq<byte>)
    requires |buf| == REQUEST_LEN && DecodeRequest(buf).Some?
    ensures EncodeRequest(DecodeRequest(buf).value) == buf <==> buf[9] <= 2
  {
    WordCapacities();
    var r := DecodeRequest(buf).value;
    ToFromBE(buf[..8]);
    ToFromBE(buf[42..46]);
    ToFromBE(buf[46..]);
    var again := EncodeRequest(r);
    assert again[..8] == buf[..8] && again[8] == buf[8] && again[10..42] == buf[10..42];
    assert again[42..46] == buf[42..46] && again[46..] == buf[46..];
    assert again[9] == buf[9] <==> buf[9] <= 2;
    if again[9] == buf[9] {
      assert again == again[..8] + [again[8], again[9]] + again[10..42] + again[42..46] + again[46..];
      assert buf == buf[..8] + [buf[8], buf[9]] + buf[10..42] + buf[42..46] + buf[46..];
    }
  }

  // ---- Batch payloads ---------------------------------------------------------------------------------

  function EncodeSums(sums: seq<CheckSum>): (s: seq<byte>)
    ensures |s| == 33 * |sums|
  {
    if sums == [] then [] else [sums[0].algo.ToByte()] + sums[0].raw + EncodeSums(sums[1..])
  }

  function DecodeSums(s: seq<byte>, count: nat): (sums: seq<CheckSum>)
    requires |s| >= 33 * count
    ensures |sums| == count
    decreases count
  {
    if count == 0 then [] else [CheckSum(s[1..33], HashMethod.FromByte(s[0]))] + DecodeSums(s[33..], count - 1)
  }

  lemma {:induction false} SumsRoundTrip(sums: seq<CheckSum>, rest: seq<byte>)
    ensures DecodeSums(EncodeSums(sums) + rest, |sums|) == sums
  {
    if sums != [] {
      var s, more := EncodeSums(sums) + rest, EncodeSums(sums[1..]) + rest;
      assert s == [sums[0].algo.ToByte()] + sums[0].raw + more;
      assert s[0] == sums[0].algo.ToByte() && s[1..33] == sums[0].raw && s[33..] == more;
      SumsRoundTrip(sums[1..], rest);
      assert sums == [sums[0]] + sums[1..];
    }
  }

  function SumAt(stream: seq<byte>, p: nat): CheckSum
    requires p + 33 <= |stream|
  {
    CheckSum(stream[p + 1..p + 33], HashMethod.FromByte(stream[p]))
  }

  lemma {:induction false} SumsInPlace(stream: seq<byte>, p: nat, count: nat, j: nat)
    requires j < count && p + 33 * count <= |stream|
    ensures DecodeSums(stream[p..], count)[j] == SumAt(stream, p + 33 * j)
    decreases j
  {
    var rest := stream[p..];
    assert rest[1..33] == stream[p + 1..p + 33] && rest[33..] == stream[p + 33..];
    if j > 0 {
      SumsInPlace(stream, p + 33, count - 1, j - 1);
      assert p + 33 + 33 * (j - 1) == p + 33 * j;
    }
  }

  /** `read_checksum_batch`. */
  method ReadChecksumBatch(stream: seq<byte>, at: nat, count: nat) returns (r: Option<seq<CheckSum>>)
    requires at <= |stream|
    ensures r == if |stream| - at < 33 * count then None else Some(DecodeSums(stream[at..], count))
  {
    var sums := [];
    var p := at;
    while |sums| < count
      invariant |sums| <= count && p == at + 33 * |sums| && p <= |stream|
      invariant forall j :: 0 <= j < |sums| ==> at + 33 * j + 33 <= |stream| && sums[j] == SumAt(stream, at + 33 * j)
    {
      if p + 33 > |stream| {
        return None;
      }
      sums := sums + [SumAt(stream, p)];
      p := p + 33;
    }
    ghost var all := DecodeSums(stream[at..], count);
    forall j | 0 <= j < count ensures sums[j] == all[j] {
      SumsInPlace(stream, at, count, j);
    }
    assert sums == all;
    return Some(sums);
  }

  // ---- The request stream -------------------------------------------------------------------------------

  datatype Inbound = Inbound(request: Request, sums: Option<seq<CheckSum>>)

  /** `send_request` or `send_batch_request`: a batch request announces its count, as 32 bits. */
  function Outgoing(requestId: u64, kind: MessageType, cs: CheckSum, sums: seq<CheckSum>): Inbound {
    if kind.IsBatch() then Inbound(Request(requestId, kind, EMPTY, 0, |sums| % 0x1_0000_0000), Some(sums))
    else Inbound(Request(requestId, kind, cs, 0, 0), None)
  }

  /** What a client may put on the stream: a batch carries as many checksums as it announces. */
  predicate WellFormed(i: Inbound) {
    if i.request.kind.IsBatch() then i.request.offset == 0 && i.sums.Some? && |i.sums.value| == i.request.length
    else i.sums.None?
  }

  lemma OutgoingWellFormed(requestId: u64, kind: MessageType, cs: CheckSum, sums: seq<CheckSum>)
    ensures WellFormed(Outgoing(requestId, kind, cs, sums)) <==> !kind.IsBatch() || |sums| < 0x1_0000_0000
  {
  }

  function Frame(i: Inbound): seq<byte> {
    EncodeRequest(i.request) + if i.sums.Some? then EncodeSums(i.sums.value) else []
  }

  function Frames(all: seq<Inbound>): seq<byte> {
    if all == [] then [] else Frame(all[0]) + Frames(all[1..])
  }

  datatype End = Closed | Invalid

  datatype Parsed = Parsed(requests: seq<Inbound>, end: End)

  /** What stands at the head of a stream: no whole request header, a frame that cannot be read, or
      a request of so many bytes. */
  datatype Head = Ended | Bad | Head(inbound: Inbound, size: nat)

  function ReadHead(stream: seq<byte>): (h: Head)
    ensures h.Head? ==> REQUEST_LEN <= h.size <= |stream|
  {
    if |stream| < REQUEST_LEN then Ended
    else
      match DecodeRequest(stream[..REQUEST_LEN])
      case None => Bad
      case Some(request) =>
        if !request.kind.IsBatch() then Head(Inbound(request, None), REQUEST_LEN)
        else if request.offset != 0 || |stream| - REQUEST_LEN < 33 * request.length then Bad
        else Head(Inbound(request, Some(DecodeSums(stream[REQUEST_LEN..], request.length))),
                  REQUEST_LEN + 33 * request.length)
  }

  /** A request is read iff its header is there and names a message, and, for a batch, its offset is zero and
      all its checksums are there; a header alone that does not do is a frame that cannot be read. */
  lemma ReadHeadExact(stream: seq<byte>)
    ensures ReadHead(stream).Ended? <==> |stream| < REQUEST_LEN
    ensures ReadHead(stream).Head? <==>
              && |stream| >= REQUEST_LEN && 1 <= stream[8] <= 7
              && (stream[8] == 5 || stream[8] == 6 ==>
                    FromBE(stream[42..46]) == 0 && |stream| >= REQUEST_LEN + 33 * FromBE(stream[46..REQUEST_LEN]))
    ensures ReadHead(stream).Head? ==>
              ReadHead(stream).size == REQUEST_LEN + if stream[8] == 5 || stream[8] == 6
                                                     then 33 * FromBE(stream[46..REQUEST_LEN]) else 0
  {
    if |stream| >= REQUEST_LEN {
      var s := stream[..REQUEST_LEN];
      assert s[42..46] == stream[42..46] && s[46..] == stream[46..REQUEST_LEN];
    }
  }

  /** The requests on a stream, and how the connection ends: closed by an end of stream before a
      whole request header, or on a frame that cannot be read. */
  function Parse(stream: seq<byte>): Parsed
    decreases |stream|
  {
    match ReadHead(stream)
    case Ended => Parsed([], Closed)
    case Bad => Parsed([], Invalid)
    case Head(inbound, size) =>
      var more := Parse(stream[size..]);
      Parsed([inbound] + more.requests, more.end)
  }

  /** What is left of a stream when all its requests are taken. */
  function Left(stream: seq<byte>): seq<byte>
    decreases |stream|
  {
    if ReadHead(stream).Head? then Left(stream[ReadHead(stream).size..]) else stream
  }

  /** A connection ends well iff less than a header is left of its stream. */
  lemma {:induction false} ParseEnds(stream: seq<byte>)
    ensures Parse(stream).end.Closed? <==> |Left(stream)| < REQUEST_LEN
    decreases |stream|
  {
    ReadHeadExact(stream);
    if ReadHead(stream).Head? {
      ParseEnds(stream[ReadHead(stream).size..]);
    }
  }

  /** One round of the loop below: the request read at `at`, and where the next one begins. */
  method ReadInbound(stream: seq<byte>, at: nat) returns (r: Option<Inbound>, next: nat)
    requires at + REQUEST_LEN <= |stream|
    ensures ReadHead(stream[at..]) == if r.None? then Bad else if next <= at then Ended else Head(r.value, next - at)
    ensures r.Some? ==> at + REQUEST_LEN <= next <= |stream|
  {
    ghost var rest := stream[at..];
    next := at + REQUEST_LEN;
    assert rest[..REQUEST_LEN] == stream[at..next] && rest[REQUEST_LEN..] == stream[next..];
    var decoded := DecodeRequest(stream[at..next]);
    if decoded.None? {
      return None, next;
    }
    var request := decoded.value;
    if !request.kind.IsBatch() {
      return Some(Inbound(request, None)), next;
    }
    if request.offset != 0 {
      return None, next;
    }
    var sums := ReadChecksumBatch(stream, next, request.length);
    if sums.None? {
      return None, next;
    }
    return Some(Inbound(request, sums)), next + 33 * request.length;
  }

  /** What has been read of the stream up to `at`, and what is still to come, make up its parse. */
  ghost predicate Reads(stream: seq<byte>, requests: seq<Inbound>, at: nat) {
    at <= |stream|
    && var rest := Parse(stream[at..]);
       Parse(stream) == Parsed(requests + rest.requests, rest.end)
  }

  lemma NothingRead(stream: seq<byte>)
    ensures Reads(stream, [], 0)
  {
    assert stream[0..] == stream;
    assert [] + Parse(stream).requests == Parse(stream).requests;
  }

  lemma OneMoreRead(stream: seq<byte>, requests: seq<Inbound>, at: nat, inbound: Inbound, next: nat)
    requires Reads(stream, requests, at) && at <= next <= |stream| && ReadHead(stream[at..]) == Head(inbound, next - at)
    ensures Reads(stream, requests + [inbound], next)
  {
    var more := Parse(stream[next..]).requests;
    assert stream[at..][next - at..] == stream[next..];
    assert requests + ([inbound] + more) == requests + [inbound] + more;
  }

  lemma NothingMore(stream: seq<byte>, requests: seq<Inbound>, at: nat)
    requires Reads(stream, requests, at) && !ReadHead(stream[at..]).Head?
    ensures Parse(stream) == Parsed(requests, if ReadHead(stream[at..]).Bad? then Invalid else Closed)
  {
    assert requests + [] == requests;
  }

  /** The loop of `RequestHandler::handle`. */
  method HandleStream(stream: seq<byte>) returns (requests: seq<Inbound>, end: End)
    ensures Parsed(requests, end) == Parse(stream)
  {
    requests := [];
    var at := 0;
    NothingRead(stream);
    while |stream| - at >= REQUEST_LEN
      invariant 0 <= at <= |stream| && Reads(stream, requests, at)
      decreases |stream| - at
    {
      var inbound, next := ReadInbound(stream, at);
      if inbound.None? {
        NothingMore(stream, requests, at);
        return requests, Invalid;
      }
      OneMoreRead(stream, requests, at, inbound.value, next);
      requests := requests + [inbound.value];
      at := next;
    }
    NothingMore(stream, requests, at);
    return requests, Closed;
  }

  lemma FramesFirst(all: seq<Inbound>, tail: seq<byte>)
    requires all != []
    ensures Frames(all) + tail == Frame(all[0]) + (Frames(all[1..]) + tail)
  {
  }

  /** Framing round trip: whatever well-formed requests follow one another on the stream, the server
      reads exactly these; a last request cut short in its header is dropped cleanly. */
  lemma {:induction false} FramingRoundTrip(all: seq<Inbound>, tail: seq<byte>)
    requires (forall i :: i in all ==> WellFormed(i)) && |tail| < REQUEST_LEN
    ensures Parse(Frames(all) + tail) == Parsed(all, Closed)
  {
    if all == [] {
      assert Frames(all) + tail == tail;
    } else {
      var i := all[0];
      assert i in all;
      FramingRoundTrip(all[1..], tail);
      FrameParses(i, Frames(all[1..]) + tail);
      FramesFirst(all, tail);
      assert all == [i] + all[1..];
    }
  }

  lemma PlainAtHead(i: Inbound, more: seq<byte>)
    requires WellFormed(i) && !i.request.kind.IsBatch()
    ensures ReadHead(Frame(i) + more) == Head(i, |Frame(i)|)
  {
    RequestRoundTrip(i.request);
    assert (Frame(i) + more)[..REQUEST_LEN] == EncodeRequest(i.request);
  }

  lemma BatchAtHead(i: Inbound, head: seq<byte>, sums: seq<byte>, more: seq<byte>)
    requires WellFormed(i) && i.request.kind.IsBatch()
    requires head == EncodeRequest(i.request) && sums == EncodeSums(i.sums.value)
    ensures ReadHead(head + sums + more) == Head(i, |head| + |sums|)
  {
    var s := head + sums + more;
    RequestRoundTrip(i.request);
    SumsRoundTrip(i.sums.value, more);
    assert s[..REQUEST_LEN] == head && s[REQUEST_LEN..] == sums + more;
  }

  lemma FrameAtHead(i: Inbound, more: seq<byte>)
    requires WellFormed(i)
    ensures ReadHead(Frame(i) + more) == Head(i, |Frame(i)|)
  {
    if i.request.kind.IsBatch() {
      BatchAtHead(i, EncodeRequest(i.request), EncodeSums(i.sums.value), more);
    } else {
      PlainAtHead(i, more);
    }
  }

  lemma FrameParses(i: Inbound, more: seq<byte>)
    requires WellFormed(i)
    ensures Parse(Frame(i) + more) == Parsed([i] + Parse(more).requests, Parse(more).end)
  {
    FrameAtHead(i, more);
    assert (Frame(i) + more)[|Frame(i)|..] == more;
  }

  lemma HeadStays(s: seq<byte>, t: seq<byte>)
    requires ReadHead(s).Head?
    ensures ReadHead(s + t) == ReadHead(s)
  {
    assert (s + t)[..REQUEST_LEN] == s[..REQUEST_LEN];
    var request := DecodeRequest(s[..REQUEST_LEN]).value;
    if request.kind.IsBatch() {
      assert (s + t)[REQUEST_LEN..] == s[REQUEST_LEN..] + t;
      SumsOfPrefix(s[REQUEST_LEN..], t, request.length);
    }
  }

  /** What the server has read is not changed by what follows on the stream. */
  lemma {:induction false} ParseGrows(s: seq<byte>, t: seq<byte>)
    ensures Parse(s).requests <= Parse(s + t).requests
    decreases |s|
  {
    if ReadHead(s).Head? {
      var n := ReadHead(s).size;
      HeadStays(s, t);
      ParseGrows(s[n..], t);
      assert (s + t)[n..] == s[n..] + t;
    }
  }

  lemma {:induction false} SumsOfPrefix(s: seq<byte>, t: seq<byte>, count: nat)
    requires |s| >= 33 * count
    ensures DecodeSums(s + t, count) == DecodeSums(s, count)
    decreases count
  {
    if count > 0 {
      SumsOfPrefix(s[33..], t, count - 1);
      assert (s + t)[33..] == s[33..] + t && (s + t)[1..33] == s[1..33];
    }
  }

  // ---- Responses ------------------------------------------------------------------------------------------

  datatype WireResponse = WireResponse(requestId: u64, status: byte, payload: seq<byte>)

  function EncodeResponseHeader(requestId: u64, status: byte, payloadLen: nat): (header: seq<byte>)
    ensures |header| == RESPONSE_HEADER_LEN
  {
    WordCapacities();
    ToBE(requestId, 8) + [status] + ToBE(payloadLen % 0x1_0000_0000, 4)
  }

  function EncodeResponse(r: WireResponse): seq<byte> {
    EncodeResponseHeader(r.requestId, r.status, |r.payload|) + r.payload
  }

  /** The layout of a response: id, status, size of the payload, payload. */
  lemma ResponseLayout(r: WireResponse)
    requires |r.payload| < 0x1_0000_0000
    ensures var s := EncodeResponse(r);
            && |s| == RESPONSE_HEADER_LEN + |r.payload| && FromBE(s[..8]) == r.requestId && s[8] == r.status
            && FromBE(s[9..13]) == |r.payload| && s[13..] == r.payload
  {
    WordCapacities();
    var s := EncodeResponse(r);
    assert s[..8] == ToBE(r.requestId, 8) && s[9..13] == ToBE(|r.payload|, 4);
    FromToBE(r.requestId, 8);
    FromToBE(|r.payload|, 4);
  }

  datatype ReadResult = Response(response: WireResponse, rest: seq<byte>) | UnexpectedEof | TooLarge

  /** `WireResponse::read_from`. */
  function ReadResponse(stream: seq<byte>): ReadResult {
    WordCapacities();
    if |stream| < RESPONSE_HEADER_LEN then UnexpectedEof
    else
      var len := FromBE(stream[9..13]);
      if len > MAX_CHUNK_PAYLOAD_SIZE then TooLarge
      else if |stream| - RESPONSE_HEADER_LEN < len then UnexpectedEof
      else Response(WireResponse(FromBE(stream[..8]), stream[8], stream[13..13 + len]), stream[13 + len..])
  }

  lemma ResponseFields(r: WireResponse, more: seq<byte>)
    requires |r.payload| < 0x1_0000_0000
    ensures var s := EncodeResponse(r) + more;
            && FromBE(s[..8]) == r.requestId && s[8] == r.status && FromBE(s[9..13]) == |r.payload|
            && s[13..] == r.payload + more
  {
    WordCapacities();
    var s := EncodeResponse(r) + more;
    assert s[..8] == ToBE(r.requestId, 8) && s[9..13] == ToBE(|r.payload|, 4);
    FromToBE(r.requestId, 8);
    FromToBE(|r.payload|, 4);
  }

  /** A response is read back as it was written, if its payload is no larger than a chunk. */
  lemma ResponseRoundTrip(r: WireResponse, more: seq<byte>)
    ensures |r.payload| <= MAX_CHUNK_PAYLOAD_SIZE ==> ReadResponse(EncodeResponse(r) + more) == Response(r, more)
    ensures MAX_CHUNK_PAYLOAD_SIZE < |r.payload| < 0x1_0000_0000 ==> ReadResponse(EncodeResponse(r) + more) == TooLarge
  {
    if |r.payload| < 0x1_0000_0000 {
      ResponseFields(r, more);
      var s := EncodeResponse(r) + more;
      assert s[13..13 + |r.payload|] == s[13..][..|r.payload|] == r.payload;
      assert s[13 + |r.payload|..] == s[13..][|r.payload|..] == more;
    }
  }

  // ---- Vectored writes --------------------------------------------------------------------------------------

  function Concat(slices: seq<seq<byte>>): seq<byte> {
    if slices == [] then [] else slices[0] + Concat(slices[1..])
  }

  class VectoredWriteCursor {
    const header: seq<byte>
    const payload: seq<byte>
    var written: nat

    constructor (header: seq<byte>, payload: seq<byte>)
      ensures this.header == header && this.payload == payload && written == 0
    {
      this.header, this.payload, written := header, payload, 0;
    }

    function Whole(): seq<byte> {
      header + payload
    }

    method IsEmpty() returns (r: bool)
      ensures r <==> written >= |Whole()|
    {
      r := written >= |header| + |payload|;
    }

    /** The slices offered to the next write: together, all that is not yet written. */
    method FillIoSlices() returns (slices: seq<seq<byte>>)
      requires written <= |Whole()|
      ensures Concat(slices) == Whole()[written..]
      ensures |slices| <= 2
    {
      if written < |header| {
        slices := [header[written..], payload];
        assert slices[1..] == [payload] && slices[1..][1..] == [];
        assert Concat(slices[1..]) == payload;
        assert Whole()[written..] == header[written..] + payload;
        return;
      }
      var offset := written - |header|;
      slices := if offset < |payload| then [payload[offset..]] else [];
      assert slices != [] ==> slices[1..] == [];
      assert Whole()[written..] == payload[offset..];
    }

    method Advance(n: nat)
      modifies this
      ensures written == MinOf(old(written) + n, |Whole()|)
    {
      written := MinOf(written + n, |header| + |payload|);
    }
  }

  /** What the socket does with a vectored write: takes some of it, none for now, or breaks. */
  datatype WriteEvent = Accept(n: nat) | WouldBlock | Broken

  datatype WriteOutcome = Written | WriteZero | IoError | StillWriting

  /** No attempt at a write fails or takes nothing. */
  predicate Willing(events: seq<WriteEvent>) {
    forall i :: 0 <= i < |events| ==> events[i].WouldBlock? || (events[i].Accept? && events[i].n > 0)
  }

  /** How many bytes the attempts would take. */
  function Room(events: seq<WriteEvent>): nat {
    if events == [] then 0
    else Room(events[..|events| - 1]) + match events[|events| - 1] case Accept(n) => n case _ => 0
  }

  /** `write_response_parts`: however the writes are cut up, the stream carries header and payload,
      whole on success and otherwise a prefix; a socket that goes on taking bytes gets them all. */
  method WriteResponseParts(requestId: u64, status: byte, payload: seq<byte>, events: seq<WriteEvent>, flushes: bool)
      returns (out: seq<byte>, r: WriteOutcome)
    ensures var frame := EncodeResponse(WireResponse(requestId, status, payload));
            && out <= frame && (r.Written? ==> out == frame)
            && (out == frame ==> r == if flushes then Written else IoError)
            && (Willing(events) ==> out == frame[..MinOf(Room(events), |frame|)])
  {
    var header := EncodeResponseHeader(requestId, status, |payload|);
    var cursor := new VectoredWriteCursor(header, payload);
    out := [];
    var i := 0;
    ghost var size := |cursor.Whole()|;
    var empty := cursor.IsEmpty();
    while !empty
      invariant fresh(cursor) && cursor.header == header && cursor.payload == payload
      invariant 0 <= i <= |events| && cursor.written <= |cursor.Whole()| == size
      invariant out == cursor.Whole()[..cursor.written]
      invariant empty <==> cursor.written == size
      invariant Willing(events) ==> cursor.written == MinOf(Room(events[..i]), size)
      decreases |events| - i, !empty
    {
      if i == |events| {
        assert events[..i] == events;
        return out, StillWriting;
      }
      assert events[..i + 1][..i] == events[..i];
      var slices := cursor.FillIoSlices();
      match events[i] {
        case Accept(n) =>
          var offered := Concat(slices);
          var taken := MinOf(n, |offered|);
          if taken == 0 {
            return out, WriteZero;
          }
          assert cursor.Whole()[..cursor.written] + offered[..taken] == cursor.Whole()[..cursor.written + taken];
          out := out + offered[..taken];
          cursor.Advance(taken);
        case WouldBlock =>
        case Broken =>
          return out, IoError;
      }
      i := i + 1;
      empty := cursor.IsEmpty();
    }
    RoomGrows(events, i);
    return out, if flushes then Written else IoError;
  }

  lemma {:induction false} RoomGrows(events: seq<WriteEvent>, i: nat)
    requires i <= |events|
    ensures Room(events[..i]) <= Room(events)
    decreases |events| - i
  {
    if i < |events| {
      assert events[..i + 1][..i] == events[..i];
      RoomGrows(events, i + 1);
    } else {
      assert events[..i] == events;
    }
  }
}
