/** The multiplexed peer session: any number of requests share one connection, each waiting for
    the response that carries its id. A step is one atomic action of the code: an atomic counter,
    one critical section of the pending map, a piece of a write, one message of the reader or the
    server. A request is known by its id once it has drawn one. */
module Session {
  import opened Basics
  import opened Bytes
  import opened CheckSums
  import opened Wire

  type Id = nat

  /** A response, and as a history variable the request that the server answered with it. */
  datatype Reply = Reply(origin: Inbound, response: WireResponse)

  datatype Result = Ok(reply: Reply) | Err

  /** Where a request is within `send_request_with_payload`. */
  datatype Stage =
    | Numbered           // id drawn
    | Registered         // sender in the pending map
    | Counted            // in flight; waiting for the writer
    | Writing            // holds the writer
    | WriteFailed        // by error or timeout; writer released
    | Unregistered
    | Sent               // frame flushed; waiting for the response
    | Got(result: Result)
    | Expired            // the wait timed out; receiver dropped
    | Uncounted
    | Closing            // about to close the session
    | Draining           // closing it
    | Returned(result: Result)

  datatype Call = Call(content: Inbound, stage: Stage)

  /** A turn at the writer: so many bytes of the frame are on the stream. */
  datatype Write = Write(frame: Inbound, sent: nat)

  /** `close`; `who` is None for the reader task. */
  datatype Closer = Open | Swapped(who: Option<Id>) | Failing(who: Option<Id>, left: set<Id>) | Done

  datatype Reader = Reading | Routing(reply: Reply) | Sending(reply: Reply) | ReaderClosing | ReaderDraining | Stopped

  datatype State = State(
    nextId: Id, passed: nat, calls: map<Id, Call>, pending: set<Id>, inflight: int, closer: Closer,
    writer: Option<Id>, writes: seq<Write>, answered: set<nat>, wire: seq<Reply>, reader: Reader,
    inbox: map<Id, Result>, deliveries: multiset<Id>)

  datatype Action =
    | Check
    | Draw(kind: MessageType, cs: CheckSum, sums: seq<CheckSum>)
    | Register(id: Id)
    | Count(id: Id)
    | LockWriter(id: Id)
    | WriteBytes(id: Id, n: nat)
    | Flush(id: Id)
    | BreakWrite(id: Id)
    | ForgetFailed(id: Id)
    | UncountFailed(id: Id)
    | Wake(id: Id)
    | Expire(id: Id)
    | UncountGot(id: Id)
    | UncountExpired(id: Id)
    | ForgetExpired(id: Id)
    | Close(id: Id)
    | TakePending
    | FailOne(id: Id)
    | EndClose
    | Answer(k: nat, status: byte, payload: seq<byte>)   // the server answers the k-th request it has read
    | Receive
    | Route
    | Send
    | ReadError
    | CloseByReader

  /** All that the writers have put on the stream. */
  function Stream(writes: seq<Write>): seq<byte> {
    if writes == [] then [] else Piece(writes[0]) + Stream(writes[1..])
  }

  function Piece(w: Write): seq<byte> {
    if w.sent <= |Frame(w.frame)| then Frame(w.frame)[..w.sent] else []
  }

  predicate At(s: State, id: Id, stage: Stage) {
    id in s.calls && s.calls[id].stage == stage
  }

  predicate HasWriter(s: State, id: Id) {
    id in s.calls && s.writer == Some(id) && s.writes != []
  }

  function Last(writes: seq<Write>): Write
    requires writes != []
  {
    writes[|writes| - 1]
  }

  predicate Enabled(s: State, a: Action) {
    match a
    case Check => s.closer.Open?
    case Draw(kind, _, sums) =>
      s.passed > 0 && s.nextId < 0x1_0000_0000_0000_0000 && (kind.IsBatch() ==> |sums| < 0x1_0000_0000)
    case Register(id) => At(s, id, Numbered)
    case Count(id) => At(s, id, Registered)
    case LockWriter(id) => At(s, id, Counted) && s.writer.None?
    case WriteBytes(id, n) => HasWriter(s, id) && Last(s.writes).sent + n <= |Frame(Last(s.writes).frame)|
    case Flush(id) => HasWriter(s, id) && Last(s.writes).sent == |Frame(Last(s.writes).frame)|
    case BreakWrite(id) => HasWriter(s, id)
    case ForgetFailed(id) => At(s, id, WriteFailed)
    case UncountFailed(id) => At(s, id, Unregistered)
    case Wake(id) => At(s, id, Sent) && id in s.inbox
    case Expire(id) => At(s, id, Sent) && id !in s.inbox
    case UncountGot(id) => id in s.calls && s.calls[id].stage.Got?
    case UncountExpired(id) => At(s, id, Expired)
    case ForgetExpired(id) => At(s, id, Uncounted)
    case Close(id) => At(s, id, Closing)
    case TakePending => s.closer.Swapped?
    case FailOne(id) => s.closer.Failing? && id in s.closer.left
    case EndClose => s.closer.Failing? && s.closer.left == {} && (s.closer.who.Some? ==> s.closer.who.value in s.calls)
    case Answer(k, _, _) => k < |Parse(Stream(s.writes)).requests| && k !in s.answered
    case Receive => s.reader.Reading? && s.wire != []
    case Route => s.reader.Routing?
    case Send => s.reader.Sending?
    case ReadError => s.reader.Reading?
    case CloseByReader => s.reader.ReaderClosing?
  }

  function Move(s: State, id: Id, stage: Stage): State
    requires id in s.calls
  {
    s.(calls := s.calls[id := s.calls[id].(stage := stage)])
  }

  /** The request may still look at what its receiver gets. */
  predicate Listening(stage: Stage) {
    stage.Registered? || stage.Counted? || stage.Writing? || stage.Sent?
  }

  /** A sender is used up; what it sends is lost if no one listens any more. */
  function Deliver(s: State, id: Id, r: Result): State {
    s.(deliveries := s.deliveries + multiset{id},
    inbox := if id in s.calls && Listening(s.calls[id].stage) then s.inbox[id := r] else s.inbox)
  }

  function Next(s: State, a: Action): State
    requires Enabled(s, a)
  {
    match a
    case Check => s.(passed := s.passed + 1)
    case Draw(kind, cs, sums) =>
      s.(passed := s.passed - 1, nextId := s.nextId + 1,
      calls := s.calls[s.nextId := Call(Outgoing(s.nextId, kind, cs, sums), Numbered)])
    case Register(id) => Move(s, id, Registered).(pending := s.pending + {id})
    case Count(id) => Move(s, id, Counted).(inflight := s.inflight + 1)
    case LockWriter(id) =>
      Move(s, id, Writing).(writer := Some(id), writes := s.writes + [Write(s.calls[id].content, 0)])
    case WriteBytes(id, n) =>
      s.(writes := s.writes[|s.writes| - 1 := Last(s.writes).(sent := Last(s.writes).sent + n)])
    case Flush(id) => Move(s, id, Sent).(writer := None)
    case BreakWrite(id) => Move(s, id, WriteFailed).(writer := None)
    case ForgetFailed(id) => Move(s, id, Unregistered).(pending := s.pending - {id})
    case UncountFailed(id) => Move(s, id, Closing).(inflight := s.inflight - 1)
    case Wake(id) => Move(s, id, Got(s.inbox[id]))
    case Expire(id) => Move(s, id, Expired)
    case UncountGot(id) => Move(s, id, Returned(s.calls[id].stage.result)).(inflight := s.inflight - 1)
    case UncountExpired(id) => Move(s, id, Uncounted).(inflight := s.inflight - 1)
    case ForgetExpired(id) => Move(s, id, Closing).(pending := s.pending - {id})
    case Close(id) =>
      if s.closer.Open? then Move(s, id, Draining).(closer := Swapped(Some(id))) else Move(s, id, Returned(Err))
    case TakePending => s.(closer := Failing(s.closer.who, s.pending), pending := {})
    case FailOne(id) => Deliver(s, id, Err).(closer := s.closer.(left := s.closer.left - {id}))
    case EndClose =>
      if s.closer.who.Some? then Move(s, s.closer.who.value, Returned(Err)).(closer := Done)
      else s.(reader := Stopped, closer := Done)
    case Answer(k, status, payload) =>
      var request := Parse(Stream(s.writes)).requests[k];
      var response := WireResponse(request.request.requestId, status, payload);
      s.(answered := s.answered + {k}, wire := s.wire + [Reply(request, response)])
    case Receive => s.(reader := Routing(s.wire[0]), wire := s.wire[1..])
    case Route =>
      var id := s.reader.reply.response.requestId;
      if id in s.pending then s.(pending := s.pending - {id}, reader := Sending(s.reader.reply))
      else s.(reader := ReaderClosing)
    case Send => Deliver(s, s.reader.reply.response.requestId, Ok(s.reader.reply)).(reader := Reading)
    case ReadError => s.(reader := ReaderClosing)
    case CloseByReader =>
      if s.closer.Open? then s.(reader := ReaderDraining, closer := Swapped(None)) else s.(reader := Stopped)
  }

  const INIT := State(1, 0, map[], {}, 0, Open, None, [], {}, [], Reading, map[], multiset{})

  predicate Reaches(s: State, actions: seq<Action>, s': State)
    decreases |actions|
  {
    if actions == [] then s' == s else Enabled(s, actions[0]) && Reaches(Next(s, actions[0]), actions[1..], s')
  }

  // ---- The stream ------------------------------------------------------------------------------------

  predicate WriteOk(w: Write) {
    WellFormed(w.frame) && w.sent <= |Frame(w.frame)|
  }

  predicate WritesOk(writes: seq<Write>) {
    forall i :: 0 <= i < |writes| ==> WriteOk(writes[i])
  }

  /** Cut short within its frame. */
  predicate Torn(w: Write) {
    0 < w.sent < |Frame(w.frame)|
  }

  /** The requests written in full before the first torn frame. */
  function Whole(writes: seq<Write>): seq<Inbound> {
    if writes == [] then []
    else if writes[0].sent == 0 then Whole(writes[1..])
    else if Torn(writes[0]) then []
    else [writes[0].frame] + Whole(writes[1..])
  }

  /** From the first torn frame on, the stream has no readable request at its head. */
  predicate Clean(writes: seq<Write>) {
    writes == []
    || (if Torn(writes[0]) then !ReadHead(Stream(writes)).Head? else Clean(writes[1..]))
  }

  lemma FrameNotEmpty(w: Write)
    ensures |Frame(w.frame)| >= REQUEST_LEN
  {
  }

  /** Exactly when the server reads the requests written in full before any tear, in order, and nothing
      else: when what follows the first tear reads as no request. */
  lemma {:induction false} ServerReadsWholeIff(writes: seq<Write>)
    requires WritesOk(writes)
    ensures Parse(Stream(writes)).requests == Whole(writes) <==> Clean(writes)
  {
    if writes != [] {
      var w, rest := writes[0], writes[1..];
      ServerReadsWholeIff(rest);
      FrameNotEmpty(w);
      if w.sent == 0 {
        assert Stream(writes) == Stream(rest);
      } else if w.sent == |Frame(w.frame)| {
        assert Frame(w.frame)[..w.sent] == Frame(w.frame);
        FrameParses(w.frame, Stream(rest));
        var a, b := Parse(Stream(rest)).requests, Whole(rest);
        assert ([w.frame] + a)[1..] == a && ([w.frame] + b)[1..] == b;
      }
    }
  }

  lemma {:induction false} WholeAreWritten(writes: seq<Write>, r: Inbound)
    requires r in Whole(writes)
    ensures exists i :: 0 <= i < |writes| && writes[i].frame == r
  {
    if r in Whole(writes[1..]) {
      WholeAreWritten(writes[1..], r);
      var i :| 0 <= i < |writes| - 1 && writes[1..][i].frame == r;
      assert writes[i + 1].frame == r;
    } else {
      assert writes[0].frame == r;
    }
  }

  /** The server takes no torn frame for a request. */
  lemma TornFrameIsNoRequest(w: Write)
    requires WriteOk(w) && w.sent < |Frame(w.frame)|
    ensures !ReadHead(Frame(w.frame)[..w.sent]).Head?
  {
    var p := Frame(w.frame)[..w.sent];
    if w.sent >= REQUEST_LEN {
      assert p[..REQUEST_LEN] == EncodeRequest(w.frame.request);
      RequestRoundTrip(w.frame.request);
    }
  }

  lemma Associate(a: seq<byte>, b: seq<byte>, c: seq<byte>)
    ensures (a + b) + c == a + (b + c)
  {
  }

  lemma {:induction false} StreamThen(writes: seq<Write>, w: Write)
    ensures Stream(writes + [w]) == Stream(writes) + Piece(w)
  {
    var all := writes + [w];
    if writes == [] {
      assert all[1..] == [];
      assert Stream(all) == Piece(w) + [];
    } else {
      assert all[0] == writes[0] && all[1..] == writes[1..] + [w];
      StreamThen(writes[1..], w);
      Associate(Piece(writes[0]), Stream(writes[1..]), Piece(w));
    }
  }

  /** In particular a stream is clean if no byte follows a torn frame. */
  lemma {:induction false} NothingBehindTearIsClean(writes: seq<Write>)
    requires WritesOk(writes)
    requires forall i, j :: 0 <= i < j < |writes| && Torn(writes[i]) ==> writes[j].sent == 0
    ensures Clean(writes)
  {
    if writes != [] {
      if Torn(writes[0]) {
        NothingSent(writes[1..]);
        TornFrameIsNoRequest(writes[0]);
        assert Stream(writes) == Frame(writes[0].frame)[..writes[0].sent];
      } else {
        NothingBehindTearIsClean(writes[1..]);
      }
    }
  }

  lemma {:induction false} NothingSent(writes: seq<Write>)
    requires forall i :: 0 <= i < |writes| ==> writes[i].sent == 0
    ensures Stream(writes) == []
  {
    if writes != [] { NothingSent(writes[1..]); }
  }

  // ---- The invariant -----------------------------------------------------------------------------------

  predicate InFlight(stage: Stage) {
    stage.Counted? || stage.Writing? || stage.WriteFailed? || stage.Unregistered? || stage.Sent? || stage.Got?
    || stage.Expired?
  }

  function InFlightIds(calls: map<Id, Call>): set<Id> {
    set id | id in calls && InFlight(calls[id].stage)
  }

  /** From its registration to its removal a request may be in the pending map. */
  predicate MayBePending(stage: Stage) {
    Listening(stage) || stage.WriteFailed? || stage.Expired? || stage.Uncounted?
  }

  function InHand(reader: Reader): set<Id> {
    if reader.Sending? then {reader.reply.response.requestId} else {}
  }

  function ToFail(closer: Closer): set<Id> {
    if closer.Failing? then closer.left else {}
  }

  ghost predicate CallsOk(s: State) {
    forall id :: id in s.calls ==>
      id < s.nextId && s.calls[id].content.request.requestId == id && WellFormed(s.calls[id].content)
  }

  /** A sender is in one place: the pending map, the reader's or the closer's hand, or used up. */
  ghost predicate SlotsOk(s: State) {
    && (forall id :: id in s.pending ==> id in s.calls && MayBePending(s.calls[id].stage))
    && (forall id :: id in InHand(s.reader) || id in ToFail(s.closer) || id in s.deliveries ==>
          id in s.calls && !s.calls[id].stage.Numbered? && id !in s.pending)
    && (forall id :: id in InHand(s.reader) ==> id !in ToFail(s.closer) && id !in s.deliveries)
    && (forall id :: id in ToFail(s.closer) ==> id !in s.deliveries)
    && (forall id :: id in s.deliveries ==> s.deliveries[id] == 1)
    && (forall id :: id in s.inbox ==> id in s.deliveries)
  }

  /** Whoever listens in vain still has a sender. */
  ghost predicate NoneForgotten(s: State) {
    forall id :: id in s.calls && Listening(s.calls[id].stage) && id !in s.inbox ==>
      id in s.pending || id in InHand(s.reader) || id in ToFail(s.closer)
  }

  ghost predicate WriterOk(s: State) {
    && WritesOk(s.writes)
    && (forall i :: 0 <= i < |s.writes| ==> IsContent(s.calls, s.writes[i].frame))
    && (s.writer.Some? ==> At(s, s.writer.value, Writing) && s.writes != []
                           && Last(s.writes).frame == s.calls[s.writer.value].content)
    && (forall id :: id in s.calls && s.calls[id].stage.Writing? ==> s.writer == Some(id))
  }

  predicate IsContent(calls: map<Id, Call>, r: Inbound) {
    r.request.requestId in calls && calls[r.request.requestId].content == r
  }

  ghost predicate CloserOk(s: State) {
    && (s.closer.Swapped? || s.closer.Failing? ==>
          if s.closer.who.Some? then At(s, s.closer.who.value, Draining) else s.reader.ReaderDraining?)
    && (forall id :: id in s.calls && s.calls[id].stage.Draining? ==>
          (s.closer.Swapped? || s.closer.Failing?) && s.closer.who == Some(id))
  }

  /** A reply carries the id of the request it answers, one that the server has read. */
  ghost predicate GoodReply(s: State, r: Reply) {
    r.response.requestId == r.origin.request.requestId && r.origin in Parse(Stream(s.writes)).requests
  }

  ghost predicate GoodResult(s: State, id: Id, r: Result) {
    r.Ok? ==> r.reply.response.requestId == id && GoodReply(s, r.reply)
  }

  ghost predicate OnWayOk(s: State) {
    && (forall r :: r in s.wire ==> GoodReply(s, r))
    && (s.reader.Routing? || s.reader.Sending? ==> GoodReply(s, s.reader.reply))
  }

  ghost predicate InboxOk(s: State) {
    forall id :: id in s.inbox ==> GoodResult(s, id, s.inbox[id])
  }

  ghost predicate StageResultOk(s: State, id: Id, stage: Stage) {
    stage.Got? || stage.Returned? ==> GoodResult(s, id, stage.result)
  }

  ghost predicate ResultsOk(s: State) {
    forall id :: id in s.calls ==> StageResultOk(s, id, s.calls[id].stage)
  }

  ghost predicate Inv(s: State) {
    && CallsOk(s)
    && SlotsOk(s)
    && NoneForgotten(s)
    && WriterOk(s)
    && CloserOk(s)
    && OnWayOk(s) && InboxOk(s) && ResultsOk(s)
    && s.inflight == |InFlightIds(s.calls)|
    && DrawnOk(s) && TurnsOk(s)
  }

  function IdOf(w: Write): Id {
    w.frame.request.requestId
  }

  /** The ids drawn are those below the next, each for a request of the caller's making. */
  ghost predicate DrawnOk(s: State) {
    && s.nextId >= 1
    && (forall id :: id in s.calls <==> 1 <= id < s.nextId)
    && (forall id :: id in s.calls ==> IsOutgoing(s.calls[id].content))
  }

  predicate IsOutgoing(r: Inbound) {
    var sums := if r.sums.Some? then r.sums.value else [];
    |sums| < 0x1_0000_0000 && r == Outgoing(r.request.requestId, r.request.kind, r.request.cs, sums)
  }

  predicate BeforeTurn(stage: Stage) {
    stage.Numbered? || stage.Registered? || stage.Counted?
  }

  predicate HasSent(stage: Stage) {
    stage.Sent? || stage.Got? || (stage.Returned? && stage.result.Ok?)
  }

  /** A request has one turn at the writer, and has written all of its frame once it is sent. */
  ghost predicate TurnsOk(s: State) {
    && (forall i, j :: 0 <= i < j < |s.writes| ==> IdOf(s.writes[i]) != IdOf(s.writes[j]))
    && (forall i :: 0 <= i < |s.writes| ==>
          IdOf(s.writes[i]) in s.calls && !BeforeTurn(s.calls[IdOf(s.writes[i])].stage))
    && (forall id :: id in s.calls && HasSent(s.calls[id].stage) ==> InFull(s.calls[id].content) in s.writes)
  }

  function InFull(r: Inbound): Write {
    Write(r, |Frame(r)|)
  }

  // ---- Preservation ------------------------------------------------------------------------------------

  lemma CountedOnce(calls: map<Id, Call>, id: Id, c: Call)
    ensures |InFlightIds(calls[id := c])| == |InFlightIds(calls)| + Weight(c.stage)
                                             - (if id in calls then Weight(calls[id].stage) else 0)
  {
    var others := InFlightIds(calls) - {id};
    assert InFlightIds(calls) == if id in calls && InFlight(calls[id].stage) then others + {id} else others;
    assert InFlightIds(calls[id := c]) == if InFlight(c.stage) then others + {id} else others;
  }

  /** The one request whose stage a step changes. */
  function Mover(s: State, a: Action): Option<Id>
    requires Enabled(s, a)
  {
    match a
    case Draw(_, _, _) => Some(s.nextId)
    case Register(id) => Some(id)
    case Count(id) => Some(id)
    case LockWriter(id) => Some(id)
    case Flush(id) => Some(id)
    case BreakWrite(id) => Some(id)
    case ForgetFailed(id) => Some(id)
    case UncountFailed(id) => Some(id)
    case Wake(id) => Some(id)
    case Expire(id) => Some(id)
    case UncountGot(id) => Some(id)
    case UncountExpired(id) => Some(id)
    case ForgetExpired(id) => Some(id)
    case Close(id) => Some(id)
    case EndClose => s.closer.who
    case _ => None
  }

  lemma OneMoves(s: State, a: Action)
    requires Enabled(s, a)
    ensures var m := Mover(s, a);
            if m.None? then Next(s, a).calls == s.calls
            else m.value in Next(s, a).calls && Next(s, a).calls == s.calls[m.value := Next(s, a).calls[m.value]]
                 && (!a.Draw? ==> m.value in s.calls && Next(s, a).calls[m.value].content == s.calls[m.value].content)
  {
  }

  function Weight(stage: Stage): int {
    if InFlight(stage) then 1 else 0
  }

  lemma InflightMovesOut(s: State, a: Action)
    requires Enabled(s, a) && CloserOk(s) && s.nextId !in s.calls
    requires s.writer.Some? ==> At(s, s.writer.value, Writing)
    requires Outbound(a)
    ensures var s', m := Next(s, a), Mover(s, a);
            if m.None? then s'.inflight == s.inflight
            else s'.inflight == s.inflight + Weight(s'.calls[m.value].stage)
                                - (if m.value in s.calls then Weight(s.calls[m.value].stage) else 0)
  {
  }

  lemma InflightMovesBack(s: State, a: Action)
    requires Enabled(s, a) && CloserOk(s) && s.nextId !in s.calls
    requires s.writer.Some? ==> At(s, s.writer.value, Writing)
    requires !Outbound(a)
    ensures var s', m := Next(s, a), Mover(s, a);
            if m.None? then s'.inflight == s.inflight
            else s'.inflight == s.inflight + Weight(s'.calls[m.value].stage)
                                - (if m.value in s.calls then Weight(s.calls[m.value].stage) else 0)
  {
  }

  lemma InflightMoves(s: State, a: Action)
    requires Enabled(s, a) && CloserOk(s) && s.nextId !in s.calls
    requires s.writer.Some? ==> At(s, s.writer.value, Writing)
    ensures var s', m := Next(s, a), Mover(s, a);
            if m.None? then s'.inflight == s.inflight
            else s'.inflight == s.inflight + Weight(s'.calls[m.value].stage)
                                - (if m.value in s.calls then Weight(s.calls[m.value].stage) else 0)
  {
    if Outbound(a) { InflightMovesOut(s, a); } else { InflightMovesBack(s, a); }
  }

  lemma InflightKept(s: State, a: Action)
    requires CallsOk(s) && WriterOk(s) && CloserOk(s) && Enabled(s, a) && s.inflight == |InFlightIds(s.calls)|
    ensures Next(s, a).inflight == |InFlightIds(Next(s, a).calls)|
  {
    OneMoves(s, a);
    InflightMoves(s, a);
    var m := Mover(s, a);
    if m.Some? {
      CountedOnce(s.calls, m.value, Next(s, a).calls[m.value]);
    }
  }

  lemma CallsKept(s: State, a: Action)
    requires CallsOk(s) && Enabled(s, a)
    ensures CallsOk(Next(s, a))
  {
    OneMoves(s, a);
  }

  predicate ByCaller(a: Action) {
    !ByCloser(a) && !ByPeer(a)
  }

  /** A caller's actions up to the end of its turn at the writer, and what follows a failed one. */
  predicate Outbound(a: Action) {
    a.Check? || a.Draw? || a.Register? || a.Count? || a.LockWriter? || a.WriteBytes? || a.Flush? || a.BreakWrite?
    || a.ForgetFailed? || a.UncountFailed?
  }

  predicate ByCloser(a: Action) {
    a.Close? || a.TakePending? || a.FailOne? || a.EndClose? || a.CloseByReader?
  }

  predicate ByPeer(a: Action) {
    a.Answer? || a.Receive? || a.Route? || a.Send? || a.ReadError?
  }

  lemma CallerFrame(s: State, a: Action)
    requires Enabled(s, a) && ByCaller(a)
    ensures var s' := Next(s, a);
            s'.reader == s.reader && s'.closer == s.closer && s'.deliveries == s.deliveries && s'.inbox == s.inbox
    ensures var s', m := Next(s, a), Mover(s, a);
            if m.None? then s'.calls == s.calls && s'.pending == s.pending
            else s'.pending - {m.value} == s.pending - {m.value}
                 && (m.value in s'.pending && m.value !in s.pending ==> a.Register?)
  {
  }

  lemma PendingStagesOut(s: State, a: Action)
    requires CallsOk(s) && SlotsOk(s) && Enabled(s, a) && ByCaller(a) && Mover(s, a).Some?
    requires s.writer.Some? ==> At(s, s.writer.value, Writing)
    requires Outbound(a)
    ensures var s', m := Next(s, a), Mover(s, a).value;
            && (m in s'.pending ==> MayBePending(s'.calls[m].stage))
            && (m in s.calls ==> s'.calls[m].stage != Numbered)
            && (a.Register? ==> m in s.calls && s.calls[m].stage == Numbered)
  {
  }

  lemma PendingStagesBack(s: State, a: Action)
    requires CallsOk(s) && SlotsOk(s) && Enabled(s, a) && ByCaller(a) && Mover(s, a).Some?
    requires s.writer.Some? ==> At(s, s.writer.value, Writing)
    requires !Outbound(a)
    ensures var s', m := Next(s, a), Mover(s, a).value;
            && (m in s'.pending ==> MayBePending(s'.calls[m].stage))
            && (m in s.calls ==> s'.calls[m].stage != Numbered)
  {
  }

  lemma PendingStages(s: State, a: Action)
    requires CallsOk(s) && SlotsOk(s) && Enabled(s, a) && ByCaller(a) && Mover(s, a).Some?
    requires s.writer.Some? ==> At(s, s.writer.value, Writing)
    ensures var s', m := Next(s, a), Mover(s, a).value;
            && (m in s'.pending ==> MayBePending(s'.calls[m].stage))
            && (m in s.calls ==> s'.calls[m].stage != Numbered)
            && (a.Register? ==> m in s.calls && s.calls[m].stage == Numbered)
  {
    if Outbound(a) { PendingStagesOut(s, a); } else { PendingStagesBack(s, a); }
  }

  lemma SlotsAfterMove(s: State, s': State, m: Id, c: Call)
    requires SlotsOk(s) && s'.calls == s.calls[m := c] && SameHands(s, s')
    requires s'.pending - {m} == s.pending - {m}
    requires m in s'.pending ==> MayBePending(c.stage)
                                 && (m in s.pending || (m in s.calls && s.calls[m].stage.Numbered?))
    requires m in s.calls ==> c.stage != Numbered
    ensures SlotsOk(s')
  {
    assert forall id :: id != m ==> (id in s'.pending <==> id in s'.pending - {m});
    assert forall id :: id != m ==> (id in s.pending <==> id in s.pending - {m});
  }

  /** No sender leaves or reaches a hand. */
  predicate SameHands(s: State, s': State) {
    && InHand(s'.reader) == InHand(s.reader) && ToFail(s'.closer) == ToFail(s.closer)
    && s'.deliveries == s.deliveries && s'.inbox == s.inbox
  }

  lemma SlotsAsBefore(s: State, s': State)
    requires SlotsOk(s) && SameHands(s, s') && s'.calls == s.calls && s'.pending == s.pending
    ensures SlotsOk(s')
  {
  }

  predicate MovesSender(a: Action) {
    a.TakePending? || a.FailOne? || a.Route? || a.Send?
  }

  lemma HandsFrame(s: State, a: Action)
    requires CloserOk(s) && Enabled(s, a) && !ByCaller(a) && !MovesSender(a)
    ensures SameHands(s, Next(s, a)) && Next(s, a).pending == s.pending
  {
    if ByCloser(a) { HandsFrameOfCloser(s, a); }
  }

  lemma HandsFrameOfCloser(s: State, a: Action)
    requires CloserOk(s) && Enabled(s, a) && ByCloser(a) && !MovesSender(a)
    ensures SameHands(s, Next(s, a)) && Next(s, a).pending == s.pending
  {
  }

  lemma DrainingIsNotPending(s: State, a: Action)
    requires SlotsOk(s) && CloserOk(s) && Enabled(s, a) && (a.Close? || a.EndClose?) && Mover(s, a).Some?
    ensures Mover(s, a).value !in s.pending && Next(s, a).calls[Mover(s, a).value].stage != Numbered
  {
  }

  lemma SlotsKeptByTake(s: State)
    requires SlotsOk(s) && Enabled(s, TakePending)
    ensures SlotsOk(Next(s, TakePending))
  {
  }

  lemma SlotsKeptByFail(s: State, id: Id)
    requires SlotsOk(s) && Enabled(s, FailOne(id))
    ensures SlotsOk(Next(s, FailOne(id)))
  {
  }

  lemma SlotsKeptByRoute(s: State)
    requires SlotsOk(s) && Enabled(s, Route)
    ensures SlotsOk(Next(s, Route))
  {
  }

  lemma SlotsKeptBySend(s: State)
    requires SlotsOk(s) && Enabled(s, Send)
    ensures SlotsOk(Next(s, Send))
  {
  }

  lemma SlotsKept(s: State, a: Action, s': State)
    requires CallsOk(s) && SlotsOk(s) && WriterOk(s) && CloserOk(s) && Enabled(s, a) && s' == Next(s, a)
    ensures SlotsOk(s')
  {
    if a.TakePending? {
      SlotsKeptByTake(s);
    } else if a.FailOne? {
      SlotsKeptByFail(s, a.id);
    } else if a.Route? {
      SlotsKeptByRoute(s);
    } else if a.Send? {
      SlotsKeptBySend(s);
    } else if ByCaller(a) {
      SlotsKeptByCaller(s, a, s');
    } else {
      SlotsKeptInPlace(s, a, s');
    }
  }

  lemma SlotsKeptByCaller(s: State, a: Action, s': State)
    requires CallsOk(s) && SlotsOk(s) && WriterOk(s) && Enabled(s, a) && ByCaller(a) && s' == Next(s, a)
    ensures SlotsOk(s')
  {
    OneMoves(s, a);
    CallerFrame(s, a);
    var m := Mover(s, a);
    if m.Some? {
      PendingStages(s, a);
      SlotsAfterMove(s, s', m.value, s'.calls[m.value]);
    }
  }

  lemma SlotsKeptInPlace(s: State, a: Action, s': State)
    requires SlotsOk(s) && CloserOk(s) && Enabled(s, a) && !ByCaller(a) && !MovesSender(a) && s' == Next(s, a)
    ensures SlotsOk(s')
  {
    OneMoves(s, a);
    HandsFrame(s, a);
    var m := Mover(s, a);
    if m.Some? {
      DrainingIsNotPending(s, a);
      SlotsAfterMove(s, s', m.value, s'.calls[m.value]);
    } else {
      SlotsAsBefore(s, s');
    }
  }

  lemma NoneForgottenKeptByCaller(s: State, a: Action)
    requires CallsOk(s) && NoneForgotten(s) && WriterOk(s) && Enabled(s, a) && ByCaller(a)
    ensures NoneForgotten(Next(s, a))
  {
  }

  lemma NoneForgottenKeptByCloser(s: State, a: Action)
    requires NoneForgotten(s) && CloserOk(s) && Enabled(s, a) && ByCloser(a)
    ensures NoneForgotten(Next(s, a))
  {
  }

  lemma NoneForgottenKeptByPeer(s: State, a: Action)
    requires NoneForgotten(s) && Enabled(s, a) && ByPeer(a)
    ensures NoneForgotten(Next(s, a))
  {
  }

  predicate MovesWriter(a: Action) {
    a.LockWriter? || a.WriteBytes? || a.Flush? || a.BreakWrite?
  }

  lemma WriterFrameOut(s: State, a: Action)
    requires CallsOk(s) && WriterOk(s) && CloserOk(s) && Enabled(s, a) && !MovesWriter(a)
    requires Outbound(a)
    ensures Next(s, a).writes == s.writes && Next(s, a).writer == s.writer
    ensures var m := Mover(s, a);
            m.Some? ==> Next(s, a).calls[m.value].stage != Writing && s.writer != m
  {
  }

  lemma WriterFrameBack(s: State, a: Action)
    requires CallsOk(s) && WriterOk(s) && CloserOk(s) && Enabled(s, a) && !MovesWriter(a)
    requires !Outbound(a)
    ensures Next(s, a).writes == s.writes && Next(s, a).writer == s.writer
    ensures var m := Mover(s, a);
            m.Some? ==> Next(s, a).calls[m.value].stage != Writing && s.writer != m
  {
  }

  lemma WriterFrame(s: State, a: Action)
    requires CallsOk(s) && WriterOk(s) && CloserOk(s) && Enabled(s, a) && !MovesWriter(a)
    ensures Next(s, a).writes == s.writes && Next(s, a).writer == s.writer
    ensures var m := Mover(s, a);
            m.Some? ==> Next(s, a).calls[m.value].stage != Writing && s.writer != m
  {
    if Outbound(a) { WriterFrameOut(s, a); } else { WriterFrameBack(s, a); }
  }

  lemma WriterAfterMove(s: State, s': State, m: Id, c: Call)
    requires WriterOk(s) && s'.writes == s.writes && s'.writer == s.writer && s'.calls == s.calls[m := c]
    requires c.stage != Writing && s.writer != Some(m)
    requires m in s.calls ==> c.content == s.calls[m].content
    ensures WriterOk(s')
  {
  }

  lemma WriterKeptByLock(s: State, id: Id)
    requires CallsOk(s) && WriterOk(s) && Enabled(s, LockWriter(id))
    ensures WriterOk(Next(s, LockWriter(id)))
  {
  }

  lemma WriterKeptByWrite(s: State, a: Action)
    requires WriterOk(s) && Enabled(s, a) && (a.WriteBytes? || a.Flush? || a.BreakWrite?)
    ensures WriterOk(Next(s, a))
  {
  }

  lemma WriterKept(s: State, a: Action)
    requires CallsOk(s) && WriterOk(s) && CloserOk(s) && Enabled(s, a)
    ensures WriterOk(Next(s, a))
  {
    if a.LockWriter? {
      WriterKeptByLock(s, a.id);
    } else if MovesWriter(a) {
      WriterKeptByWrite(s, a);
    } else {
      var s', m := Next(s, a), Mover(s, a);
      OneMoves(s, a);
      WriterFrame(s, a);
      if m.Some? {
        WriterAfterMove(s, s', m.value, s'.calls[m.value]);
      }
    }
  }

  lemma CloserKeptByCaller(s: State, a: Action)
    requires CloserOk(s) && Enabled(s, a) && ByCaller(a) && s.nextId !in s.calls
    requires s.writer.Some? ==> At(s, s.writer.value, Writing)
    ensures CloserOk(Next(s, a))
  {
  }

  lemma CloserKeptByCloser(s: State, a: Action)
    requires CloserOk(s) && Enabled(s, a) && ByCloser(a)
    ensures CloserOk(Next(s, a))
  {
  }

  lemma CloserKeptByPeer(s: State, a: Action)
    requires CloserOk(s) && Enabled(s, a) && ByPeer(a)
    ensures CloserOk(Next(s, a))
  {
  }

  lemma WritesOfStep(s: State, a: Action)
    requires Enabled(s, a)
    ensures a.LockWriter? ==> Next(s, a).writes == s.writes + [Write(s.calls[a.id].content, 0)]
    ensures a.WriteBytes? ==> s.writes != [] && Next(s, a).writes == Longer(s.writes, a.n)
    ensures !a.LockWriter? && !a.WriteBytes? ==> Next(s, a).writes == s.writes
  {
  }

  function Longer(writes: seq<Write>, n: nat): seq<Write>
    requires writes != []
  {
    writes[..|writes| - 1] + [Last(writes).(sent := Last(writes).sent + n)]
  }

  lemma StreamGrows(s: State, a: Action) returns (t: seq<byte>)
    requires Enabled(s, a)
    ensures Stream(Next(s, a).writes) == Stream(s.writes) + t
  {
    t := [];
    WritesOfStep(s, a);
    if a.LockWriter? {
      StreamThen(s.writes, Write(s.calls[a.id].content, 0));
    } else if a.WriteBytes? {
      t := LastGrows(s.writes, a.n);
    }
  }

  lemma LastGrows(writes: seq<Write>, n: nat) returns (t: seq<byte>)
    requires writes != [] && Last(writes).sent + n <= |Frame(Last(writes).frame)|
    ensures Stream(Longer(writes, n)) == Stream(writes) + t
  {
    var i, w := |writes| - 1, Last(writes);
    t := PieceGrows(w, n);
    assert writes == writes[..i] + [w];
    StreamThen(writes[..i], w);
    StreamThen(writes[..i], w.(sent := w.sent + n));
    Associate(Stream(writes[..i]), Piece(w), t);
  }

  lemma PieceGrows(w: Write, n: nat) returns (t: seq<byte>)
    requires w.sent + n <= |Frame(w.frame)|
    ensures Piece(w.(sent := w.sent + n)) == Piece(w) + t
  {
    var f := Frame(w.frame);
    t := f[w.sent..w.sent + n];
    assert f[..w.sent + n] == f[..w.sent] + t;
  }

  lemma GoodReplyKept(s: State, a: Action, r: Reply)
    requires Enabled(s, a) && GoodReply(s, r)
    ensures GoodReply(Next(s, a), r)
  {
    var t := StreamGrows(s, a);
    ParseGrows(Stream(s.writes), t);
  }

  lemma OnWayKept(s: State, a: Action)
    requires Enabled(s, a) && OnWayOk(s) && !a.Answer?
    requires forall r :: GoodReply(s, r) ==> GoodReply(Next(s, a), r)
    ensures OnWayOk(Next(s, a))
  {
    OnWayMoves(s, a);
    var s' := Next(s, a);
    forall r | r in s'.wire ensures GoodReply(s', r) {
      assert r in s.wire && GoodReply(s, r);
    }
  }

  /** Replies only move on: from the wire to the reader's hand. */
  lemma OnWayMoves(s: State, a: Action)
    requires Enabled(s, a) && !a.Answer?
    ensures var s' := Next(s, a);
            && (forall r :: r in s'.wire ==> r in s.wire)
            && (s'.reader.Routing? || s'.reader.Sending? ==>
                  s'.reader.reply in s.wire
                  || ((s.reader.Routing? || s.reader.Sending?) && s'.reader.reply == s.reader.reply))
  {
  }

  lemma OnWayKeptByAnswer(s: State, a: Action)
    requires Enabled(s, a) && OnWayOk(s) && a.Answer?
    ensures OnWayOk(Next(s, a))
  {
  }

  lemma InboxKept(s: State, a: Action)
    requires Enabled(s, a) && OnWayOk(s) && InboxOk(s)
    requires forall r :: GoodReply(s, r) ==> GoodReply(Next(s, a), r)
    ensures InboxOk(Next(s, a))
  {
  }

  lemma ResultOfMoveOut(s: State, a: Action)
    requires Enabled(s, a) && InboxOk(s) && ResultsOk(s) && CallsOk(s)
    requires Outbound(a)
    ensures var s', m := Next(s, a), Mover(s, a);
            m.Some? ==> StageResultOk(s, m.value, s'.calls[m.value].stage)
  {
  }

  lemma ResultOfMoveBack(s: State, a: Action)
    requires Enabled(s, a) && InboxOk(s) && ResultsOk(s) && CallsOk(s)
    requires !Outbound(a)
    ensures var s', m := Next(s, a), Mover(s, a);
            m.Some? ==> StageResultOk(s, m.value, s'.calls[m.value].stage)
  {
  }

  lemma ResultOfMove(s: State, a: Action)
    requires Enabled(s, a) && InboxOk(s) && ResultsOk(s) && CallsOk(s)
    ensures var s', m := Next(s, a), Mover(s, a);
            m.Some? ==> StageResultOk(s, m.value, s'.calls[m.value].stage)
  {
    if Outbound(a) { ResultOfMoveOut(s, a); } else { ResultOfMoveBack(s, a); }
  }

  lemma ResultsKept(s: State, a: Action, s': State)
    requires CallsOk(s) && InboxOk(s) && ResultsOk(s) && Enabled(s, a) && s' == Next(s, a)
    requires forall r :: GoodReply(s, r) ==> GoodReply(s', r)
    ensures ResultsOk(s')
  {
    OneMoves(s, a);
    ResultOfMove(s, a);
    var m := Mover(s, a);
    if m.Some? {
      ResultsAfterMove(s, s', m.value, s'.calls[m.value]);
    } else {
      ResultsAsBefore(s, s');
    }
  }

  lemma ResultsAsBefore(s: State, s': State)
    requires ResultsOk(s) && s'.calls == s.calls && forall r :: GoodReply(s, r) ==> GoodReply(s', r)
    ensures ResultsOk(s')
  {
    forall id | id in s'.calls ensures StageResultOk(s', id, s'.calls[id].stage) {
      assert StageResultOk(s, id, s.calls[id].stage);
    }
  }

  lemma ResultsAfterMove(s: State, s': State, m: Id, c: Call)
    requires ResultsOk(s) && s'.calls == s.calls[m := c] && StageResultOk(s, m, c.stage)
    requires forall r :: GoodReply(s, r) ==> GoodReply(s', r)
    ensures ResultsOk(s')
  {
    forall id | id in s'.calls ensures StageResultOk(s', id, s'.calls[id].stage) {
      assert id != m ==> StageResultOk(s, id, s.calls[id].stage);
    }
  }

  lemma RepliesKept(s: State, a: Action)
    requires CallsOk(s) && OnWayOk(s) && InboxOk(s) && ResultsOk(s) && Enabled(s, a)
    ensures OnWayOk(Next(s, a)) && InboxOk(Next(s, a)) && ResultsOk(Next(s, a))
  {
    forall r | GoodReply(s, r) ensures GoodReply(Next(s, a), r) {
      GoodReplyKept(s, a, r);
    }
    if a.Answer? {
      OnWayKeptByAnswer(s, a);
    } else {
      OnWayKept(s, a);
    }
    InboxKept(s, a);
    ResultsKept(s, a, Next(s, a));
  }

  lemma OnlyDrawDraws(s: State, a: Action)
    requires Enabled(s, a)
    ensures !a.Draw? ==> Next(s, a).nextId == s.nextId
    ensures a.Draw? ==> Next(s, a).nextId == s.nextId + 1 && s.nextId in Next(s, a).calls
                        && IsOutgoing(Next(s, a).calls[s.nextId].content)
  {
  }

  lemma DrawnKept(s: State, a: Action)
    requires DrawnOk(s) && Enabled(s, a)
    ensures DrawnOk(Next(s, a))
  {
    OnlyDrawDraws(s, a);
    OneMoves(s, a);
    var s', m := Next(s, a), Mover(s, a);
    if m.Some? {
      DrawnAfterMove(s, s', m.value, s'.calls[m.value]);
    } else {
      DrawnAsBefore(s, s');
    }
  }

  lemma DrawnAsBefore(s: State, s': State)
    requires DrawnOk(s) && s'.calls == s.calls && s'.nextId == s.nextId
    ensures DrawnOk(s')
  {
  }

  lemma DrawnAfterMove(s: State, s': State, m: Id, c: Call)
    requires DrawnOk(s) && s'.calls == s.calls[m := c]
    requires if m in s.calls then s'.nextId == s.nextId && c.content == s.calls[m].content
             else m == s.nextId && s'.nextId == m + 1 && IsOutgoing(c.content)
    ensures DrawnOk(s')
  {
  }

  /** Where a step that is not the writer's takes a request, as to its turn at the writer. */
  lemma TurnOfMover(s: State, a: Action)
    requires Enabled(s, a) && !MovesWriter(a) && CloserOk(s) && Mover(s, a).Some?
    ensures var m, stage := Mover(s, a).value, Next(s, a).calls[Mover(s, a).value].stage;
            && (m in s.calls && !a.Draw? && !BeforeTurn(s.calls[m].stage) ==> !BeforeTurn(stage))
            && (HasSent(stage) ==> m in s.calls && HasSent(s.calls[m].stage))
  {
  }

  lemma TurnsAfterMove(s: State, s': State, m: Id, c: Call)
    requires TurnsOk(s) && s'.writes == s.writes && s'.calls == s.calls[m := c]
    requires m in s.calls ==> c.content == s.calls[m].content
    requires m in s.calls && !BeforeTurn(s.calls[m].stage) ==> !BeforeTurn(c.stage)
    requires HasSent(c.stage) ==> m in s.calls && HasSent(s.calls[m].stage)
    ensures TurnsOk(s')
  {
  }

  lemma TurnsKeptByLock(s: State, id: Id)
    requires CallsOk(s) && TurnsOk(s) && Enabled(s, LockWriter(id))
    ensures TurnsOk(Next(s, LockWriter(id)))
  {
  }

  lemma TurnsKeptByWrite(s: State, id: Id, n: nat)
    requires CallsOk(s) && WriterOk(s) && TurnsOk(s) && Enabled(s, WriteBytes(id, n))
    ensures TurnsOk(Next(s, WriteBytes(id, n)))
  {
    var s' := Next(s, WriteBytes(id, n));
    assert IdOf(Last(s.writes)) == id && s.calls[id].stage == Writing;
    TurnsAsFrames(s, s');
  }

  /** Only the last of the writes has changed, whose request has not sent, and not its frame. */
  lemma TurnsAsFrames(s: State, s': State)
    requires CallsOk(s) && TurnsOk(s) && s'.calls == s.calls && s.writes != []
    requires !HasSent(s.calls[IdOf(Last(s.writes))].stage)
    requires |s'.writes| == |s.writes| && Last(s'.writes).frame == Last(s.writes).frame
    requires forall i :: 0 <= i < |s.writes| - 1 ==> s'.writes[i] == s.writes[i]
    ensures TurnsOk(s')
  {
    forall c | c in s.calls && HasSent(s.calls[c].stage) ensures InFull(s.calls[c].content) in s'.writes {
      var i :| 0 <= i < |s.writes| && s.writes[i] == InFull(s.calls[c].content);
      assert s'.writes[i] == s.writes[i];
    }
  }

  lemma TurnsKeptByEnd(s: State, a: Action)
    requires CallsOk(s) && WriterOk(s) && TurnsOk(s) && Enabled(s, a) && (a.Flush? || a.BreakWrite?)
    ensures TurnsOk(Next(s, a))
  {
    if a.Flush? {
      assert Last(s.writes) == InFull(s.calls[a.id].content);
    }
  }

  lemma TurnsKept(s: State, a: Action)
    requires CallsOk(s) && WriterOk(s) && CloserOk(s) && TurnsOk(s) && Enabled(s, a)
    ensures TurnsOk(Next(s, a))
  {
    if a.LockWriter? {
      TurnsKeptByLock(s, a.id);
    } else if a.WriteBytes? {
      TurnsKeptByWrite(s, a.id, a.n);
    } else if a.Flush? || a.BreakWrite? {
      TurnsKeptByEnd(s, a);
    } else {
      var s', m := Next(s, a), Mover(s, a);
      OneMoves(s, a);
      WriterFrame(s, a);
      if m.Some? {
        TurnOfMover(s, a);
        TurnsAfterMove(s, s', m.value, s'.calls[m.value]);
      }
    }
  }

  lemma StepKeepsInv(s: State, a: Action)
    requires Inv(s) && Enabled(s, a)
    ensures Inv(Next(s, a))
  {
    CallsKept(s, a);
    SlotsKept(s, a, Next(s, a));
    WriterKept(s, a);
    if ByCaller(a) {
      NoneForgottenKeptByCaller(s, a);
      CloserKeptByCaller(s, a);
    } else if ByCloser(a) {
      NoneForgottenKeptByCloser(s, a);
      CloserKeptByCloser(s, a);
    } else {
      NoneForgottenKeptByPeer(s, a);
      CloserKeptByPeer(s, a);
    }
    RepliesKept(s, a);
    InflightKept(s, a);
    DrawnKept(s, a);
    TurnsKept(s, a);
  }

  lemma {:induction false} RunKeepsInv(s: State, actions: seq<Action>, s': State)
    requires Inv(s) && Reaches(s, actions, s')
    ensures Inv(s')
    decreases |actions|
  {
    if actions != [] {
      StepKeepsInv(s, actions[0]);
      RunKeepsInv(Next(s, actions[0]), actions[1..], s');
    }
  }

  lemma InitOk()
    ensures Inv(INIT)
  {
    assert InFlightIds(INIT.calls) == {};
  }

  // ---- Over every run -------------------------------------------------------------------------------------

  /** The server has read, under the id of a request that was written in full, something else. */
  ghost predicate Confuses(writes: seq<Write>) {
    exists r, w :: Confused(writes, r, w)
  }

  predicate Confused(writes: seq<Write>, r: Inbound, w: Write) {
    r in Parse(Stream(writes)).requests && w in writes && w == InFull(w.frame)
    && r.request.requestId == IdOf(w) && r != w.frame
  }

  /** A caller that gets Ok gets a response with its own id; and unless the server has read something else
      under that id, which it has not on a clean stream, its answer to the very request that was made. */
  lemma OwnReply(actions: seq<Action>, s: State, id: Id)
    requires Reaches(INIT, actions, s) && id in s.calls
    requires s.calls[id].stage.Returned? && s.calls[id].stage.result.Ok?
    ensures var reply := s.calls[id].stage.result.reply;
            && reply.response.requestId == id
            && (!Confuses(s.writes) ==> reply.origin == s.calls[id].content)
            && (Clean(s.writes) ==> reply.origin == s.calls[id].content)
  {
    InitOk();
    RunKeepsInv(INIT, actions, s);
    var reply := s.calls[id].stage.result.reply;
    assert StageResultOk(s, id, s.calls[id].stage);
    if reply.origin != s.calls[id].content {
      assert Confused(s.writes, reply.origin, InFull(s.calls[id].content));
      if Clean(s.writes) {
        CleanConfusesNothing(s);
      }
    }
  }

  /** A clean stream confuses nothing. */
  lemma CleanConfusesNothing(s: State)
    requires WriterOk(s) && Clean(s.writes)
    ensures !Confuses(s.writes)
  {
    ServerReadsWholeIff(s.writes);
    forall r, w | r in Whole(s.writes) && w in s.writes && r.request.requestId == IdOf(w) ensures r == w.frame {
      WholeAreWritten(s.writes, r);
      var i :| 0 <= i < |s.writes| && s.writes[i].frame == r;
      assert IsContent(s.calls, r) && IsContent(s.calls, w.frame);
    }
  }

  /** No request is answered twice, and no answer reaches a request that may still be answered. */
  lemma DeliveredOnce(actions: seq<Action>, s: State, id: Id)
    requires Reaches(INIT, actions, s)
    ensures s.deliveries[id] <= 1
    ensures id in s.deliveries ==>
              id in s.calls && id !in s.pending && id !in InHand(s.reader) && id !in ToFail(s.closer)
  {
    InitOk();
    RunKeepsInv(INIT, actions, s);
  }

  /** Nothing is left in the pending map for a request that has returned. */
  lemma PendingUnreturned(actions: seq<Action>, s: State, id: Id)
    requires Reaches(INIT, actions, s) && id in s.pending
    ensures id in s.calls && !s.calls[id].stage.Got? && !s.calls[id].stage.Returned?
  {
    assert SlotsOk(s) by {
      InitOk();
      RunKeepsInv(INIT, actions, s);
    }
  }

  /** `inflight` is the number of requests between its increment and its decrement. */
  lemma InflightIsExact(actions: seq<Action>, s: State)
    requires Reaches(INIT, actions, s)
    ensures s.inflight == |InFlightIds(s.calls)|
  {
    InitOk();
    RunKeepsInv(INIT, actions, s);
  }

  /** A request that waits without an answer has a sender that can still answer it: its receiver
      never finds the channel closed. Once the session is closed and its reader has stopped, that
      sender is in the pending map, where only the request itself will remove it. */
  lemma WaiterHasSender(actions: seq<Action>, s: State, id: Id)
    requires Reaches(INIT, actions, s) && At(s, id, Sent) && id !in s.inbox
    ensures id in s.pending || id in InHand(s.reader) || id in ToFail(s.closer)
    ensures s.closer.Done? && s.reader.Stopped? ==> id in s.pending
  {
    InitOk();
    RunKeepsInv(INIT, actions, s);
  }

  /** The server has read exactly the requests written in full before any tear, each one that a caller
      made, if and only if the stream is clean. */
  lemma ServerReadsTheCalls(actions: seq<Action>, s: State)
    requires Reaches(INIT, actions, s)
    ensures Parse(Stream(s.writes)).requests == Whole(s.writes) <==> Clean(s.writes)
    ensures forall r :: r in Whole(s.writes) ==> IsContent(s.calls, r)
  {
    InitOk();
    RunKeepsInv(INIT, actions, s);
    ServerReadsWholeIff(s.writes);
    forall r | r in Whole(s.writes) ensures IsContent(s.calls, r) {
      WholeAreWritten(s.writes, r);
      var i :| 0 <= i < |s.writes| && s.writes[i].frame == r;
    }
  }

  /** Along a run a sender in the closer's hand stays there or is used up. */
  lemma {:induction false} TakenAreAnswered(s: State, actions: seq<Action>, s': State, id: Id)
    requires Inv(s) && Reaches(s, actions, s') && (id in ToFail(s.closer) || id in s.deliveries)
    ensures Inv(s') && (id in ToFail(s'.closer) || id in s'.deliveries)
    decreases |actions|
  {
    if actions != [] {
      StepKeepsInv(s, actions[0]);
      AnswersStay(s, actions[0], id);
      TakenAreAnswered(Next(s, actions[0]), actions[1..], s', id);
    }
  }

  lemma AnswersStay(s: State, a: Action, id: Id)
    requires Enabled(s, a) && (id in ToFail(s.closer) || id in s.deliveries)
    ensures id in ToFail(Next(s, a).closer) || id in Next(s, a).deliveries
  {
  }

  /** What a close finds in the pending map it fails: whoever is in that map later registered after. */
  lemma PendingAfterClose(actions: seq<Action>, s1: State, more: seq<Action>, s: State, id: Id)
    requires Reaches(INIT, actions, s1) && Enabled(s1, TakePending) && Reaches(Next(s1, TakePending), more, s)
    requires id in s.pending
    ensures id !in s1.pending
  {
    InitOk();
    RunKeepsInv(INIT, actions, s1);
    StepKeepsInv(s1, TakePending);
    if id in s1.pending {
      TakenAreAnswered(Next(s1, TakePending), more, s, id);
    }
  }

  /** Closing happens once: no step reopens a session, and what a caller was given stays. */
  lemma ClosedAndReturnedAreFinal(s: State, a: Action, id: Id)
    requires CallsOk(s) && WriterOk(s) && CloserOk(s) && Enabled(s, a)
    ensures !s.closer.Open? ==> !Next(s, a).closer.Open?
    ensures id in s.calls && s.calls[id].stage.Returned? ==>
              id in Next(s, a).calls && Next(s, a).calls[id] == s.calls[id]
  {
    OneMoves(s, a);
    if id in s.calls && s.calls[id].stage.Returned? {
      ReturnedStays(s, a, id);
    }
  }

  lemma ReturnedStays(s: State, a: Action, id: Id)
    requires Enabled(s, a) && id in s.calls && s.calls[id].stage.Returned? && CloserOk(s) && s.nextId != id
    requires s.writer.Some? ==> At(s, s.writer.value, Writing)
    ensures Mover(s, a) != Some(id)
  {
  }

  // ---- How a call ends -------------------------------------------------------------------------------------

  /** The requests that have given up: their write was broken off, or their wait has expired. */
  function GaveUp(a: Action): set<Id> {
    match a
    case BreakWrite(id) => {id}
    case Expire(id) => {id}
    case _ => {}
  }

  function GaveUpIn(actions: seq<Action>): set<Id>
    decreases |actions|
  {
    if actions == [] then {} else GaveUpIn(actions[..|actions| - 1]) + GaveUp(actions[|actions| - 1])
  }

  /** What a stage says of whether the request has given up and the session is closed. */
  predicate Tells(stage: Stage, gaveUp: bool, closed: bool) {
    match stage
    case Got(r) => !gaveUp && (r.Err? ==> closed)
    case Returned(r) => if r.Ok? then !gaveUp else closed
    case _ => gaveUp == (stage.WriteFailed? || stage.Unregistered? || stage.Expired? || stage.Uncounted?
                         || stage.Closing? || stage.Draining?)
  }

  ghost predicate Told(s: State, gave: set<Id>) {
    && (forall id :: id in gave ==> id in s.calls)
    && (forall id :: id in s.calls ==> Tells(s.calls[id].stage, id in gave, !s.closer.Open?))
    && (forall id :: id in s.inbox && s.inbox[id].Err? ==> !s.closer.Open?)
  }

  lemma MoverTells(s: State, a: Action, gave: set<Id>)
    requires Enabled(s, a) && Told(s, gave) && DrawnOk(s) && WriterOk(s) && CloserOk(s) && Mover(s, a).Some?
    ensures var m, s' := Mover(s, a).value, Next(s, a);
            Tells(s'.calls[m].stage, m in gave + GaveUp(a), !s'.closer.Open?)
  {
    if Outbound(a) { MoverTellsOut(s, a, gave); } else { MoverTellsBack(s, a, gave); }
  }

  lemma MoverTellsOut(s: State, a: Action, gave: set<Id>)
    requires Enabled(s, a) && Told(s, gave) && DrawnOk(s) && WriterOk(s) && Mover(s, a).Some? && Outbound(a)
    ensures var m, s' := Mover(s, a).value, Next(s, a);
            Tells(s'.calls[m].stage, m in gave + GaveUp(a), !s'.closer.Open?)
  {
    if a.Flush? || a.BreakWrite? { WriterTells(s, a, gave); } else if !a.Draw? { BeforeTurnTells(s, a, gave); }
  }

  lemma WriterTells(s: State, a: Action, gave: set<Id>)
    requires Enabled(s, a) && Told(s, gave) && WriterOk(s) && (a.Flush? || a.BreakWrite?)
    ensures Tells(Next(s, a).calls[a.id].stage, a.id in gave + GaveUp(a), !Next(s, a).closer.Open?)
  {
    assert Tells(s.calls[a.id].stage, a.id in gave, !s.closer.Open?);
  }

  lemma BeforeTurnTells(s: State, a: Action, gave: set<Id>)
    requires Enabled(s, a) && Told(s, gave)
    requires a.Register? || a.Count? || a.LockWriter? || a.ForgetFailed? || a.UncountFailed?
    ensures Tells(Next(s, a).calls[a.id].stage, a.id in gave, !Next(s, a).closer.Open?)
  {
    assert Tells(s.calls[a.id].stage, a.id in gave, !s.closer.Open?);
  }

  lemma MoverTellsBack(s: State, a: Action, gave: set<Id>)
    requires Enabled(s, a) && Told(s, gave) && CloserOk(s) && Mover(s, a).Some? && !Outbound(a)
    ensures var m, s' := Mover(s, a).value, Next(s, a);
            Tells(s'.calls[m].stage, m in gave + GaveUp(a), !s'.closer.Open?)
  {
  }

  /** Only a mover gives up. */
  lemma OnlyMoverGivesUp(s: State, a: Action)
    requires Enabled(s, a)
    ensures GaveUp(a) <= if Mover(s, a).Some? then {Mover(s, a).value} else {}
  {
  }

  lemma StaysClosed(s: State, a: Action)
    requires Enabled(s, a)
    ensures !s.closer.Open? ==> !Next(s, a).closer.Open?
  {
  }

  /** Errors come from a closed session. */
  lemma ErrorsOfClosed(s: State, a: Action)
    requires Enabled(s, a)
    ensures forall id :: id in Next(s, a).inbox && Next(s, a).inbox[id].Err? ==>
              (id in s.inbox && s.inbox[id].Err?) || !s.closer.Open?
  {
  }

  lemma ToldAfterMove(s: State, s': State, gave: set<Id>, gave': set<Id>, m: Id, c: Call)
    requires Told(s, gave) && s'.calls == s.calls[m := c] && gave <= gave' <= gave + {m}
    requires Tells(c.stage, m in gave', !s'.closer.Open?) && (!s.closer.Open? ==> !s'.closer.Open?)
    requires forall id :: id in s'.inbox && s'.inbox[id].Err? ==> (id in s.inbox && s.inbox[id].Err?) || !s.closer.Open?
    ensures Told(s', gave')
  {
    forall id | id in s'.calls ensures Tells(s'.calls[id].stage, id in gave', !s'.closer.Open?) {
      if id != m { assert Tells(s.calls[id].stage, id in gave, !s.closer.Open?); }
    }
  }

  lemma ToldAsBefore(s: State, s': State, gave: set<Id>)
    requires Told(s, gave) && s'.calls == s.calls && (!s.closer.Open? ==> !s'.closer.Open?)
    requires forall id :: id in s'.inbox && s'.inbox[id].Err? ==> (id in s.inbox && s.inbox[id].Err?) || !s.closer.Open?
    ensures Told(s', gave)
  {
    forall id | id in s'.calls ensures Tells(s'.calls[id].stage, id in gave, !s'.closer.Open?) {
      assert Tells(s.calls[id].stage, id in gave, !s.closer.Open?);
    }
  }

  lemma StepTold(s: State, a: Action, gave: set<Id>)
    requires Enabled(s, a) && Told(s, gave) && DrawnOk(s) && WriterOk(s) && CloserOk(s)
    ensures Told(Next(s, a), gave + GaveUp(a))
  {
    OnlyMoverGivesUp(s, a);
    StaysClosed(s, a);
    ErrorsOfClosed(s, a);
    OneMoves(s, a);
    var s', m := Next(s, a), Mover(s, a);
    if m.Some? {
      MoverTells(s, a, gave);
      ToldAfterMove(s, s', gave, gave + GaveUp(a), m.value, s'.calls[m.value]);
    } else {
      ToldAsBefore(s, s', gave);
      assert gave + GaveUp(a) == gave;
    }
  }

  /** A run, seen from its last step. */
  lemma {:induction false} LastStep(s: State, actions: seq<Action>, s': State) returns (s1: State)
    requires actions != [] && Reaches(s, actions, s')
    ensures var a := actions[|actions| - 1];
            Reaches(s, actions[..|actions| - 1], s1) && Enabled(s1, a) && s' == Next(s1, a)
    decreases |actions|
  {
    if |actions| == 1 {
      s1 := s;
      assert actions[1..] == [] && actions[..0] == [];
    } else {
      s1 := LastStep(Next(s, actions[0]), actions[1..], s');
      assert actions[1..][..|actions| - 2] == actions[..|actions| - 1][1..];
    }
  }

  lemma ReachableOk(actions: seq<Action>, s: State)
    requires Reaches(INIT, actions, s)
    ensures DrawnOk(s) && WriterOk(s) && CloserOk(s)
  {
    InitOk();
    RunKeepsInv(INIT, actions, s);
  }

  lemma {:induction false} RunTold(actions: seq<Action>, s: State)
    requires Reaches(INIT, actions, s)
    ensures Told(s, GaveUpIn(actions))
    decreases |actions|
  {
    if actions != [] {
      var front := actions[..|actions| - 1];
      var s1 := LastStep(INIT, actions, s);
      RunTold(front, s1);
      ReachableOk(front, s1);
      StepTold(s1, actions[|actions| - 1], GaveUpIn(front));
    }
  }

  /** In every run: a call that returns an error leaves the session closed; and one that returns Ok has
      neither broken off its write nor given up waiting, its frame being on the stream in full. */
  lemma CallOutcome(actions: seq<Action>, s: State, id: Id)
    requires Reaches(INIT, actions, s) && id in s.calls && s.calls[id].stage.Returned?
    ensures s.calls[id].stage.result.Err? ==> !s.closer.Open?
    ensures s.calls[id].stage.result.Ok? ==> id !in GaveUpIn(actions) && InFull(s.calls[id].content) in s.writes
  {
    RunTold(actions, s);
    assert TurnsOk(s) by {
      InitOk();
      RunKeepsInv(INIT, actions, s);
    }
    assert Tells(s.calls[id].stage, id in GaveUpIn(actions), !s.closer.Open?);
  }

  /** The reader task has left its loop. */
  predicate Leaving(reader: Reader) {
    reader.ReaderClosing? || reader.ReaderDraining? || reader.Stopped?
  }

  /** A response no one waits for makes the reader leave its loop, as an error of the stream does; any other
      goes to its caller. It never comes back, and the next it does is to see the session closed. */
  lemma ReaderLeaves(s: State, a: Action)
    requires CloserOk(s) && Enabled(s, a)
    ensures a.ReadError? ==> Leaving(Next(s, a).reader)
    ensures a.Route? ==>
              if s.reader.reply.response.requestId in s.pending then Next(s, a).reader == Sending(s.reader.reply)
              else Leaving(Next(s, a).reader)
    ensures Leaving(s.reader) ==> Leaving(Next(s, a).reader)
    ensures Leaving(s.reader) && Next(s, a).reader != s.reader ==> !Next(s, a).closer.Open?
  {
    ReaderMovesIff(s, a);
  }

  lemma ReaderMovesIff(s: State, a: Action)
    requires Enabled(s, a)
    ensures Next(s, a).reader != s.reader ==>
              || a.Receive? || a.Route? || a.Send? || a.ReadError? || a.CloseByReader?
              || (a.EndClose? && s.closer.who.None?)
  {
  }

  /** Once a session is closed no call begins on it but those that had already seen it open. */
  lemma {:induction false} NoneBeginAfterClose(s: State, actions: seq<Action>, s': State)
    requires !s.closer.Open? && Reaches(s, actions, s')
    ensures s'.nextId + s'.passed == s.nextId + s.passed
    decreases |actions|
  {
    if actions != [] {
      StaysClosed(s, actions[0]);
      OnlyCheckPasses(s, actions[0]);
      NoneBeginAfterClose(Next(s, actions[0]), actions[1..], s');
    }
  }

  lemma OnlyCheckPasses(s: State, a: Action)
    requires Enabled(s, a) && !s.closer.Open?
    ensures Next(s, a).nextId + Next(s, a).passed == s.nextId + s.passed
  {
  }
}
