/** What a request frame that is torn can do to a session: exactly when an answer may go to the wrong
    caller, and runs in which it does. */
module Misrouting {
  import opened Basics
  import opened Bytes
  import opened CheckSums
  import opened Session
  import opened Wire

  lemma {:induction false} ReachesThen(s: State, actions: seq<Action>, s1: State, a: Action)
    requires Reaches(s, actions, s1) && Enabled(s1, a)
    ensures Reaches(s, actions + [a], Next(s1, a))
    decreases |actions|
  {
    var more := actions + [a];
    if actions == [] {
      assert more[1..] == [];
    } else {
      ReachesThen(Next(s, actions[0]), actions[1..], s1, a);
      assert more[1..] == actions[1..] + [a];
    }
  }

  lemma Begin(actions: seq<Action>, s: State, kind: MessageType, cs: CheckSum, sums: seq<CheckSum>)
    returns (actions': seq<Action>, s': State)
    requires Reaches(INIT, actions, s) && s.closer.Open? && s.nextId < 0x1_0000_0000_0000_0000
    requires kind.IsBatch() ==> |sums| < 0x1_0000_0000
    ensures Reaches(INIT, actions', s')
    ensures s' == s.(nextId := s.nextId + 1,
                  calls := s.calls[s.nextId := Call(Outgoing(s.nextId, kind, cs, sums), Numbered)])
  {
    var s1 := Next(s, Check);
    s' := Next(s1, Draw(kind, cs, sums));
    ReachesThen(INIT, actions, s, Check);
    ReachesThen(INIT, actions + [Check], s1, Draw(kind, cs, sums));
    actions' := actions + [Check] + [Draw(kind, cs, sums)];
  }

  /** A request up to its wait for the writer. */
  lemma Enter(actions: seq<Action>, s: State, kind: MessageType, cs: CheckSum, sums: seq<CheckSum>)
    returns (actions': seq<Action>, s': State)
    requires Reaches(INIT, actions, s) && s.closer.Open? && s.nextId < 0x1_0000_0000_0000_0000
    requires kind.IsBatch() ==> |sums| < 0x1_0000_0000
    ensures Reaches(INIT, actions', s')
    ensures s' == s.(nextId := s.nextId + 1, pending := s.pending + {s.nextId}, inflight := s.inflight + 1,
                  calls := s.calls[s.nextId := Call(Outgoing(s.nextId, kind, cs, sums), Counted)])
  {
    var id := s.nextId;
    actions', s' := Begin(actions, s, kind, cs, sums);
    actions', s' := RegisterAndCount(actions', s', id);
  }

  lemma RegisterAndCount(actions: seq<Action>, s: State, id: Id) returns (actions': seq<Action>, s': State)
    requires Reaches(INIT, actions, s) && At(s, id, Numbered)
    ensures Reaches(INIT, actions', s')
    ensures s' == s.(pending := s.pending + {id}, inflight := s.inflight + 1,
                  calls := s.calls[id := s.calls[id].(stage := Counted)])
  {
    var s1 := Next(s, Register(id));
    s' := Next(s1, Count(id));
    ReachesThen(INIT, actions, s, Register(id));
    ReachesThen(INIT, actions + [Register(id)], s1, Count(id));
    actions' := actions + [Register(id)] + [Count(id)];
  }

  lemma WritePart(actions: seq<Action>, s: State, id: Id, n: nat) returns (actions': seq<Action>, s': State)
    requires Reaches(INIT, actions, s) && At(s, id, Counted) && s.writer.None? && n <= |Frame(s.calls[id].content)|
    ensures Reaches(INIT, actions', s')
    ensures s' == Move(s, id, Writing).(writer := Some(id), writes := s.writes + [Write(s.calls[id].content, n)])
  {
    var s1 := Next(s, LockWriter(id));
    s' := Next(s1, WriteBytes(id, n));
    assert s'.writes == s.writes + [Write(s.calls[id].content, n)];
    ReachesThen(INIT, actions, s, LockWriter(id));
    ReachesThen(INIT, actions + [LockWriter(id)], s1, WriteBytes(id, n));
    actions' := actions + [LockWriter(id)] + [WriteBytes(id, n)];
  }

  /** A turn at the writer, broken off after `n` bytes unless that is the frame. */
  lemma WriteTurn(actions: seq<Action>, s: State, id: Id, n: nat) returns (actions': seq<Action>, s': State)
    requires Reaches(INIT, actions, s) && At(s, id, Counted) && s.writer.None? && n <= |Frame(s.calls[id].content)|
    ensures Reaches(INIT, actions', s')
    ensures s' == Move(s, id, if n == |Frame(s.calls[id].content)| then Sent else WriteFailed).(
                  writes := s.writes + [Write(s.calls[id].content, n)])
  {
    var actions1, s1 := WritePart(actions, s, id, n);
    var last := if n == |Frame(s.calls[id].content)| then Flush(id) else BreakWrite(id);
    s' := Next(s1, last);
    ReachesThen(INIT, actions1, s1, last);
    actions' := actions1 + [last];
  }

  /** The server's answer on its way to a request that has been sent. */
  lemma AnswerArrives(actions: seq<Action>, s: State, k: nat, id: Id) returns (actions': seq<Action>, s': State)
    requires Reaches(INIT, actions, s) && k < |Parse(Stream(s.writes)).requests| && k !in s.answered
    requires Parse(Stream(s.writes)).requests[k].request.requestId == id && id in s.pending
    requires s.wire == [] && s.reader.Reading?
    ensures Reaches(INIT, actions', s') && s'.calls == s.calls && s'.writes == s.writes && s'.reader.Sending?
    ensures s'.reader.reply.origin == Parse(Stream(s.writes)).requests[k] && s'.reader.reply.response.requestId == id
  {
    var a1 := Answer(k, 1, []);
    var s1 := Next(s, a1);
    ReachesThen(INIT, actions, s, a1);
    actions', s' := ReplyArrives(actions + [a1], s1, id);
  }

  /** The one reply on the wire reaches the hand of the reader. */
  lemma ReplyArrives(actions: seq<Action>, s: State, id: Id) returns (actions': seq<Action>, s': State)
    requires Reaches(INIT, actions, s) && |s.wire| == 1 && s.reader.Reading?
    requires s.wire[0].response.requestId == id && id in s.pending
    ensures Reaches(INIT, actions', s') && s'.calls == s.calls && s'.writes == s.writes
    ensures s'.reader == Sending(s.wire[0])
  {
    var s1 := Next(s, Receive);
    s' := Next(s1, Route);
    ReachesThen(INIT, actions, s, Receive);
    ReachesThen(INIT, actions + [Receive], s1, Route);
    actions' := actions + [Receive] + [Route];
  }

  lemma CallerReturns(actions: seq<Action>, s: State, id: Id) returns (actions': seq<Action>, s': State)
    requires Reaches(INIT, actions, s) && s.reader.Sending? && s.reader.reply.response.requestId == id
    requires At(s, id, Sent)
    ensures Reaches(INIT, actions', s') && s'.writes == s.writes
    ensures id in s'.calls && s'.calls[id] == Call(s.calls[id].content, Returned(Ok(s.reader.reply)))
  {
    var s1 := Next(s, Send);
    var s2 := Next(s1, Wake(id));
    s' := Next(s2, UncountGot(id));
    ReachesThen(INIT, actions, s, Send);
    ReachesThen(INIT, actions + [Send], s1, Wake(id));
    ReachesThen(INIT, actions + [Send] + [Wake(id)], s2, UncountGot(id));
    actions' := actions + [Send] + [Wake(id)] + [UncountGot(id)];
  }

  // ---- Exactly when an answer goes to the wrong caller ---------------------------------------------------

  /** The first `n` requests of `t` wait for the writer, and nothing else has happened. */
  ghost predicate Waiting(s: State, t: State, n: nat) {
    && s.nextId == n + 1 && s.closer.Open? && s.writer.None? && s.writes == [] && Quiet(s)
    && (forall id :: id in s.calls <==> 1 <= id <= n)
    && (forall id :: id in s.calls ==> id in t.calls && id in s.pending
                                       && s.calls[id] == Call(t.calls[id].content, Counted))
  }

  /** The server has answered nothing yet. */
  predicate Quiet(s: State) {
    s.answered == {} && s.wire == [] && s.reader.Reading?
  }

  lemma {:induction false} AllEnter(t: State, n: nat) returns (actions: seq<Action>, s: State)
    requires CallsOk(t) && DrawnOk(t) && n < t.nextId
    ensures Reaches(INIT, actions, s) && Waiting(s, t, n)
  {
    if n == 0 {
      actions, s := [], INIT;
    } else {
      actions, s := AllEnter(t, n - 1);
      var r := t.calls[n].content;
      assert IsOutgoing(r) && r.request.requestId == n;
      actions, s := Enter(actions, s, r.request.kind, r.request.cs, if r.sums.Some? then r.sums.value else []);
    }
  }

  /** The first `i` turns at the writer are those of `t`, each frame that is written in full being sent. */
  ghost predicate TurnsTaken(s: State, t: State, i: nat) {
    && i <= |t.writes| && s.writes == t.writes[..i] && s.writer.None? && Quiet(s)
    && SameCalls(s, t) && OthersWait(s, t, i) && FullSent(s, t, i)
  }

  ghost predicate SameCalls(s: State, t: State) {
    && s.calls.Keys == t.calls.Keys
    && forall id :: id in s.calls ==> id in s.pending && s.calls[id].content == t.calls[id].content
  }

  predicate HadTurn(t: State, i: nat, id: Id)
    requires i <= |t.writes|
  {
    exists j :: 0 <= j < i && IdOf(t.writes[j]) == id
  }

  ghost predicate OthersWait(s: State, t: State, i: nat)
    requires i <= |t.writes|
  {
    forall id :: id in s.calls && !HadTurn(t, i, id) ==> At(s, id, Counted)
  }

  ghost predicate FullSent(s: State, t: State, i: nat)
    requires i <= |t.writes|
  {
    forall j :: 0 <= j < i && t.writes[j] == InFull(t.writes[j].frame) ==> At(s, IdOf(t.writes[j]), Sent)
  }

  lemma TurnIsNext(s: State, t: State, i: nat)
    requires WriterOk(t) && TurnsOk(t) && i < |t.writes| && SameCalls(s, t) && OthersWait(s, t, i)
    ensures IsNext(s, t, i)
  {
    assert WriteOk(t.writes[i]) && IsContent(t.calls, t.writes[i].frame);
    assert !HadTurn(t, i, IdOf(t.writes[i]));
  }

  lemma OthersWaitOn(s: State, t: State, i: nat, s': State, c: Call)
    requires i < |t.writes| && OthersWait(s, t, i) && s'.calls == s.calls[IdOf(t.writes[i]) := c]
    ensures OthersWait(s', t, i + 1)
  {
    forall id | id in s'.calls && !HadTurn(t, i + 1, id) ensures At(s', id, Counted) {
      assert IdOf(t.writes[i]) != id;
      assert !HadTurn(t, i, id);
      assert At(s, id, Counted);
    }
  }

  lemma FullSentToo(s: State, t: State, i: nat, s': State, c: Call)
    requires i < |t.writes| && FullSent(s, t, i) && s'.calls == s.calls[IdOf(t.writes[i]) := c]
    requires forall j :: 0 <= j < i ==> IdOf(t.writes[j]) != IdOf(t.writes[i])
    requires t.writes[i] == InFull(t.writes[i].frame) ==> c.stage.Sent?
    ensures FullSent(s', t, i + 1)
  {
    forall j | 0 <= j < i + 1 && t.writes[j] == InFull(t.writes[j].frame) ensures At(s', IdOf(t.writes[j]), Sent) {
      if j < i { assert At(s, IdOf(t.writes[j]), Sent); }
    }
  }

  lemma SameCallsOn(s: State, t: State, s': State, m: Id, stage: Stage)
    requires SameCalls(s, t) && m in s.calls && s'.pending == s.pending
    requires s'.calls == s.calls[m := s.calls[m].(stage := stage)]
    ensures SameCalls(s', t)
  {
    assert s'.calls.Keys == s.calls.Keys;
  }

  /** It is the turn of the i-th frame of `t`, whose request has had none. */
  ghost predicate IsNext(s: State, t: State, i: nat)
    requires i < |t.writes|
  {
    && At(s, IdOf(t.writes[i]), Counted) && s.calls[IdOf(t.writes[i])].content == t.writes[i].frame
    && t.writes[i].sent <= |Frame(t.writes[i].frame)|
    && forall j :: 0 <= j < i ==> IdOf(t.writes[j]) != IdOf(t.writes[i])
  }

  lemma TurnTaken(s: State, t: State, i: nat, id: Id, stage: Stage)
    requires i < |t.writes| && id == IdOf(t.writes[i]) && id in s.calls && TurnsTaken(s, t, i)
    requires forall j :: 0 <= j < i ==> IdOf(t.writes[j]) != id
    requires t.writes[i] == InFull(t.writes[i].frame) ==> stage.Sent?
    ensures TurnsTaken(Move(s, id, stage).(writes := s.writes + [t.writes[i]]), t, i + 1)
  {
    var s' := Move(s, id, stage).(writes := s.writes + [t.writes[i]]);
    OthersWaitOn(s, t, i, s', s'.calls[id]);
    FullSentToo(s, t, i, s', s'.calls[id]);
    SameCallsOn(s, t, s', id, stage);
    assert t.writes[..i + 1] == t.writes[..i] + [t.writes[i]];
  }

  lemma OneMoreTurn(actions: seq<Action>, s: State, t: State, i: nat) returns (actions': seq<Action>, s': State)
    requires i < |t.writes| && IsNext(s, t, i) && Reaches(INIT, actions, s) && TurnsTaken(s, t, i)
    ensures Reaches(INIT, actions', s') && TurnsTaken(s', t, i + 1)
  {
    var w := t.writes[i];
    TurnTaken(s, t, i, IdOf(w), if w.sent == |Frame(w.frame)| then Sent else WriteFailed);
    actions', s' := WriteTurn(actions, s, IdOf(w), w.sent);
  }

  lemma AllWait(s: State, t: State)
    requires DrawnOk(t) && Waiting(s, t, t.nextId - 1)
    ensures TurnsTaken(s, t, 0)
  {
    assert s.calls.Keys == t.calls.Keys;
  }

  lemma {:induction false} AllTurns(t: State, i: nat) returns (actions: seq<Action>, s: State)
    requires CallsOk(t) && WriterOk(t) && DrawnOk(t) && TurnsOk(t) && i <= |t.writes|
    ensures Reaches(INIT, actions, s) && TurnsTaken(s, t, i)
  {
    if i == 0 {
      actions, s := AllEnter(t, t.nextId - 1);
      AllWait(s, t);
    } else {
      actions, s := AllTurns(t, i - 1);
      TurnIsNext(s, t, i - 1);
      actions, s := OneMoreTurn(actions, s, t, i - 1);
    }
  }

  /** A caller has got Ok, with the answer to something else. */
  predicate GotForeign(s: State, id: Id) {
    id in s.calls && s.calls[id].stage.Returned? && s.calls[id].stage.result.Ok?
    && s.calls[id].stage.result.reply.origin != s.calls[id].content
  }

  /** A run that leaves the same on the stream gives a caller the answer to something else. */
  ghost predicate CanMisroute(writes: seq<Write>) {
    exists actions, s, id :: Reaches(INIT, actions, s) && s.writes == writes && GotForeign(s, id)
  }

  /** After the same turns, whoever has written a frame in full waits for the answer. */
  lemma FullIsSent(t: State, w: Write) returns (actions: seq<Action>, s: State)
    requires CallsOk(t) && WriterOk(t) && DrawnOk(t) && TurnsOk(t) && w in t.writes && w == InFull(w.frame)
    ensures Reaches(INIT, actions, s) && s.writes == t.writes && Quiet(s)
    ensures At(s, IdOf(w), Sent) && s.calls[IdOf(w)].content == w.frame && IdOf(w) in s.pending
  {
    actions, s := AllTurns(t, |t.writes|);
    AllTaken(s, t);
    FullWaits(s, t, w);
  }

  lemma AllTaken(s: State, t: State)
    requires TurnsTaken(s, t, |t.writes|)
    ensures s.writes == t.writes && Quiet(s) && SameCalls(s, t) && FullSent(s, t, |t.writes|)
  {
    assert t.writes[..|t.writes|] == t.writes;
  }

  lemma FullWaits(s: State, t: State, w: Write)
    requires WriterOk(t) && SameCalls(s, t) && FullSent(s, t, |t.writes|) && w in t.writes && w == InFull(w.frame)
    ensures At(s, IdOf(w), Sent) && s.calls[IdOf(w)].content == w.frame && IdOf(w) in s.pending
  {
    var j :| 0 <= j < |t.writes| && t.writes[j] == w;
    assert At(s, IdOf(t.writes[j]), Sent) && IsContent(t.calls, t.writes[j].frame);
  }

  /** The same turns at the writer, and then the one answer that is confused. */
  lemma ConfusedAnswer(t: State, r: Inbound, w: Write) returns (actions: seq<Action>, s: State)
    requires CallsOk(t) && WriterOk(t) && DrawnOk(t) && TurnsOk(t) && Confused(t.writes, r, w)
    ensures Reaches(INIT, actions, s) && s.writes == t.writes && GotForeign(s, IdOf(w))
  {
    actions, s := FullIsSent(t, w);
    var k :| 0 <= k < |Parse(Stream(t.writes)).requests| && Parse(Stream(t.writes)).requests[k] == r;
    actions, s := AnswerArrives(actions, s, k, IdOf(w));
    actions, s := CallerReturns(actions, s, IdOf(w));
  }

  /** Whatever the writers have left on the stream: some run that leaves just that gives a caller the
      answer to something else, if and only if the server has read, under the id of a request that was
      written in full, something else. */
  lemma MisrouteIff(actions: seq<Action>, s: State)
    requires Reaches(INIT, actions, s)
    ensures CanMisroute(s.writes) <==> Confuses(s.writes)
  {
    InitOk();
    RunKeepsInv(INIT, actions, s);
    if CanMisroute(s.writes) {
      var actions', s', id :| Reaches(INIT, actions', s') && s'.writes == s.writes && GotForeign(s', id);
      OwnReply(actions', s', id);
    }
    if r, w :| Confused(s.writes, r, w) {
      var actions', s' := ConfusedAnswer(s, r, w);
    }
  }

  // ---- Torn frames that do it ------------------------------------------------------------------------------

  function ChunkRequest(id: u64, cs: CheckSum): Inbound {
    Outgoing(id, GetChunk, cs, [])
  }

  /** A digest that reads, shifted by `d` bytes, like the head of request 2. */
  function Lookalike(d: nat): CheckSum
    requires 10 <= d <= 33
  {
    WordCapacities();
    CheckSum(Zeros(d - 10) + ToBE(2, 8) + [1] + Zeros(33 - d), Sha256)
  }

  const ANY: CheckSum := CheckSum(Zeros(32), Sha256)

  /** A chunk request with a small id, byte by byte. */
  lemma PlainBytes(id: u64, cs: CheckSum, x: seq<byte>)
    requires id < 256 && cs.algo == Sha256 && x == EncodeRequest(Request(id, GetChunk, cs, 0, 0))
    ensures x[..8] == Zeros(7) + [id] && x[8] == 1 && x[9] == 0 && x[10..42] == cs.raw && x[42..] == Zeros(8)
  {
    WordCapacities();
    SmallToBE(id, 8);
    SmallToBE(0, 4);
    assert x[..8] == ToBE(id, 8) && x[42..] == ToBE(0, 4) + ToBE(0, 4);
  }

  lemma {:induction false} SmallToBE(n: byte, width: nat)
    requires 0 < width && n < Capacity(width)
    ensures ToBE(n, width) == Zeros(width - 1) + [n]
    decreases width
  {
    if width == 1 {
      assert ToBE(n, 1) == ToBE(0, 0) + [n];
    } else {
      SmallToBE(0, width - 1);
      assert Zeros(width - 2) + [0] == Zeros(width - 1);
    }
  }

  lemma LookalikeBytes(d: nat)
    requires 10 <= d <= 33
    ensures var raw := Lookalike(d).raw;
            && raw[d - 10..d - 2] == ToBE(2, 8) && raw[d - 3] == 2 && raw[d - 2] == 1
            && forall j :: d - 1 <= j < 32 ==> raw[j] == 0
  {
    WordCapacities();
    SmallToBE(2, 8);
  }

  /** The frame of request 2 from byte `d` on, and `d` bytes of the next: it reads as a request with id 2,
      for another chunk. */
  lemma ShiftedHead(d: nat, f: seq<byte>, x: seq<byte>)
    requires 10 <= d <= 33 && f == EncodeRequest(Request(2, GetChunk, Lookalike(d), 0, 0))
    requires x == EncodeRequest(Request(3, GetChunk, ANY, 0, 0))
    ensures var r := DecodeRequest(f[d..] + x[..d]);
            r.Some? && r.value.requestId == 2 && r.value.kind.GetChunk? && r.value.cs.raw[d - 3] != 2
  {
    var raw := Lookalike(d).raw;
    var b1 := f[d..] + x[..d];
    WordCapacities();
    PlainBytes(2, Lookalike(d), f);
    PlainBytes(3, ANY, x);
    LookalikeBytes(d);
    FromToBE(2, 8);
    assert b1[..8] == f[d..d + 8] == f[10..42][d - 10..d - 2] == ToBE(2, 8);
    assert b1[8] == f[d + 8] == f[10..42][d - 2] == 1;
    MisreadByte(d, f, x, b1);
  }

  lemma MisreadByte(d: nat, f: seq<byte>, x: seq<byte>, b1: seq<byte>)
    requires 10 <= d <= 33 && |f| == |x| == 50 && b1 == f[d..] + x[..d]
    requires (forall j :: d - 1 <= j < 32 ==> f[10..42][j] == 0) && f[42..] == Zeros(8)
    requires x[..8] == Zeros(7) + [3] && x[8] == 1 && x[9] == 0 && x[10..42] == Zeros(32)
    ensures b1[10..42][d - 3] != 2
  {
    assert b1[10..42][d - 3] == b1[d + 7];
    if 2 * d + 7 < 50 {
      assert b1[d + 7] == f[2 * d + 7];
      if 2 * d + 7 < 42 {
        assert f[2 * d + 7] == f[10..42][2 * d - 3] == 0;
      } else {
        assert f[2 * d + 7] == f[42..][2 * d - 35] == 0;
      }
    } else {
      var k := 2 * d - 43;
      assert b1[d + 7] == x[k];
      if k < 8 {
        assert x[k] == x[..8][k];
      } else if k >= 10 {
        assert x[k] == x[10..42][k - 10] == 0;
      }
    }
  }

  lemma TwoRequests(b0: seq<byte>, b1: seq<byte>)
    requires |b0| == |b1| == REQUEST_LEN
    requires DecodeRequest(b0).Some? && !DecodeRequest(b0).value.kind.IsBatch()
    requires DecodeRequest(b1).Some? && !DecodeRequest(b1).value.kind.IsBatch()
    ensures Parse(b0 + b1).requests == [Inbound(DecodeRequest(b0).value, None), Inbound(DecodeRequest(b1).value, None)]
  {
    assert (b0 + b1)[..REQUEST_LEN] == b0 && (b0 + b1)[REQUEST_LEN..] == b1;
    assert b1[..REQUEST_LEN] == b1 && b1[REQUEST_LEN..] == [];
    assert Parse([]).requests == [];
    assert Parse(b1).requests == [Inbound(DecodeRequest(b1).value, None)];
  }

  /** The server's view when the first of three frames stops `d` bytes short of its end. */
  lemma TwoBlocks(d: nat, x1: seq<byte>, x2: seq<byte>, x3: seq<byte>)
    requires |x1| == |x2| == REQUEST_LEN && |x3| >= d && 10 <= d <= 33 && x1[8] == 1
    requires var r := DecodeRequest(x2[d..] + x3[..d]); r.Some? && r.value.kind.GetChunk?
    ensures var rs := Parse(x1[..REQUEST_LEN - d] + x2 + x3[..d]).requests;
            |rs| == 2 && rs[1] == Inbound(DecodeRequest(x2[d..] + x3[..d]).value, None)
  {
    var b0, b1 := x1[..REQUEST_LEN - d] + x2[..d], x2[d..] + x3[..d];
    assert b0 + b1 == x1[..REQUEST_LEN - d] + x2 + x3[..d];
    assert b0[8] == x1[8];
    TwoRequests(b0, b1);
  }

  function ThreeFrames(d: nat): seq<Write>
    requires 10 <= d <= 33
  {
    [Write(ChunkRequest(1, ANY), REQUEST_LEN - d), Write(ChunkRequest(2, Lookalike(d)), REQUEST_LEN),
     Write(ChunkRequest(3, ANY), d)]
  }

  lemma ThreeMisread(d: nat)
    requires 10 <= d <= 33
    ensures var rs := Parse(Stream(ThreeFrames(d))).requests;
            |rs| == 2 && rs[1].request.requestId == 2 && rs[1] != ChunkRequest(2, Lookalike(d))
  {
    var f1, f2, f3 := ChunkRequest(1, ANY), ChunkRequest(2, Lookalike(d)), ChunkRequest(3, ANY);
    var x1, x2, x3 := Frame(f1), Frame(f2), Frame(f3);
    PlainBytes(1, ANY, x1);
    ThreeWrites(d, f1, f2, f3);
    ShiftedHead(d, x2, x3);
    TwoBlocks(d, x1, x2, x3);
    LookalikeBytes(d);
  }

  lemma ThreeWrites(d: nat, f1: Inbound, f2: Inbound, f3: Inbound)
    requires |Frame(f1)| == |Frame(f2)| == |Frame(f3)| == REQUEST_LEN && d <= REQUEST_LEN
    ensures Stream([Write(f1, REQUEST_LEN - d), Write(f2, REQUEST_LEN), Write(f3, d)])
         == Frame(f1)[..REQUEST_LEN - d] + Frame(f2) + Frame(f3)[..d]
  {
    var w := [Write(f1, REQUEST_LEN - d), Write(f2, REQUEST_LEN), Write(f3, d)];
    assert w[1..] == [Write(f2, REQUEST_LEN), Write(f3, d)] && w[1..][1..] == [Write(f3, d)];
    assert w[1..][1..][1..] == [];
    assert Stream(w[1..][1..]) == Frame(f3)[..d];
    assert Stream(w[1..]) == Frame(f2) + Frame(f3)[..d];
  }

  lemma ThreeEnter(cs: CheckSum) returns (actions: seq<Action>, s: State)
    ensures Reaches(INIT, actions, s)
    ensures s == INIT.(nextId := 4, pending := {1, 2, 3}, inflight := 3,
                    calls := map[1 := Call(ChunkRequest(1, ANY), Counted), 2 := Call(ChunkRequest(2, cs), Counted),
                             3 := Call(ChunkRequest(3, ANY), Counted)])
  {
    actions, s := Enter([], INIT, GetChunk, ANY, []);
    actions, s := Enter(actions, s, GetChunk, cs, []);
    actions, s := Enter(actions, s, GetChunk, ANY, []);
  }

  /** Three requests of one frame size wait for the writer; the first stops `d` bytes short, the last after `d`. */
  lemma ThreeTurns(actions0: seq<Action>, s0: State, f1: Inbound, f2: Inbound, f3: Inbound, d: nat)
    returns (actions: seq<Action>, s: State)
    requires Reaches(INIT, actions0, s0) && s0.writer.None? && s0.writes == []
    requires s0.calls == map[1 := Call(f1, Counted), 2 := Call(f2, Counted), 3 := Call(f3, Counted)]
    requires |Frame(f1)| == |Frame(f2)| == |Frame(f3)| == REQUEST_LEN && 0 < d < REQUEST_LEN
    ensures Reaches(INIT, actions, s) && s == s0.(calls := s.calls, writes := s.writes)
    ensures At(s, 2, Sent) && s.calls[2].content == f2
    ensures s.writes == [Write(f1, REQUEST_LEN - d), Write(f2, REQUEST_LEN), Write(f3, d)]
  {
    var actions1, s1 := WriteTurn(actions0, s0, 1, REQUEST_LEN - d);
    assert s1.calls[2] == Call(f2, Counted) && s1.calls[3] == Call(f3, Counted);
    var actions2, s2 := WriteTurn(actions1, s1, 2, REQUEST_LEN);
    assert s2.calls[2] == Call(f2, Sent) && s2.calls[3] == Call(f3, Counted);
    actions, s := WriteTurn(actions2, s2, 3, d);
  }

  lemma ThreeSent(d: nat) returns (actions: seq<Action>, s: State)
    requires 10 <= d <= 33
    ensures Reaches(INIT, actions, s) && At(s, 2, Sent) && s.calls[2].content == ChunkRequest(2, Lookalike(d))
    ensures 2 in s.pending && s.answered == {} && s.wire == [] && s.reader.Reading? && s.writes == ThreeFrames(d)
  {
    var cs := Lookalike(d);
    var actions0, s0 := ThreeEnter(cs);
    actions, s := ThreeTurns(actions0, s0, ChunkRequest(1, ANY), ChunkRequest(2, cs), ChunkRequest(3, ANY), d);
  }

  /** Three requests wait for the writer. The first is cut off after any number of bytes from 17 to 40, and
      the others still write: the server reads the end of the second and the start of the third as a
      request with the second's id, and the second's caller is given the answer to that. */
  lemma TornFrameMisroutes(cut: nat) returns (actions: seq<Action>, s: State)
    requires 17 <= cut <= 40
    ensures Reaches(INIT, actions, s) && 2 in s.calls && s.writes != [] && s.writes[0].sent == cut
    ensures s.calls[2].stage.Returned? && s.calls[2].stage.result.Ok?
    ensures s.calls[2].stage.result.reply.origin != s.calls[2].content && !Clean(s.writes)
  {
    var d := REQUEST_LEN - cut;
    actions, s := ThreeSent(d);
    ThreeMisread(d);
    actions, s := AnswerArrives(actions, s, 1, 2);
    actions, s := CallerReturns(actions, s, 2);
    OwnReply(actions, s, 2);
  }
}
