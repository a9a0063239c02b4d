/** The writer thread of the chunk store among the threads that use it. A step is the arrival of
    requests, the drain of the queues, one request served, or one batch of access updates. */
module WriterProtocol {
  import opened AccessOrder
  import opened Basics
  import opened Bytes
  import opened CheckSums
  import opened ChunkStore

  /** What the thread has in hand between a drain and the end of its round: `batches` is how many
      batches of access updates it has tried, `now` the time it read for them. */
  datatype Hand = Hand(serving: bool, stopping: bool, adds: seq<seq<Chunk>>, deletes: seq<seq<AccessKey>>,
                       updates: seq<CheckSum>, batches: nat, now: u64)

  const NOTHING: Hand := Hand(false, false, [], [], [], 0, 0)

  datatype State = State(db: Db, high: seq<seq<Chunk>>, medium: seq<seq<AccessKey>>, pending: set<CheckSum>,
                         stop: bool, stopped: bool, turn: nat, hand: Hand)

  datatype Action =
    | Arrive(adds: seq<seq<Chunk>>, deletes: seq<seq<AccessKey>>, touched: set<CheckSum>, drop: bool)
    | Drain(order: seq<CheckSum>)        // the hash set of updates comes in some order
    | ServeAdd
    | ServeDelete
    | CommitBatch(now: u64)
    | Requeue
    | EndRound

  predicate Enabled(s: State, a: Action) {
    match a
    case Arrive(adds, deletes, _, drop) =>
      // a caller waits for its reply, so the store is dropped only when no request is outstanding
      !s.stop && (drop ==> s.high + adds == [] && s.medium + deletes == [] && s.hand.adds == [] && s.hand.deletes == [])
    case Drain(order) => !s.hand.serving && !s.stopped && ToSet(order) == s.pending && |order| == |s.pending|
    case ServeAdd => s.hand.adds != []
    case ServeDelete => s.hand.adds == [] && s.hand.deletes != []
    case CommitBatch(now) =>
      && s.hand.adds == [] && s.hand.deletes == [] && s.hand.updates != []
      && (s.hand.batches > 0 ==> s.high == [] && s.medium == [] && now == s.hand.now)
    case Requeue =>
      && s.hand.adds == [] && s.hand.deletes == [] && s.hand.updates != []
      && s.hand.batches > 0 && (s.high != [] || s.medium != [])
    case EndRound => s.hand.serving && s.hand.adds == [] && s.hand.deletes == [] && s.hand.updates == []
  }

  /** The next batch of access updates. */
  function NextBatch(s: State): seq<CheckSum> {
    s.hand.updates[..FirstOf(s.hand.updates, ACCESS_BATCH_SIZE)]
  }

  ghost function Next(disk: Disk, s: State, a: Action): State
    requires Enabled(s, a)
  {
    var h := s.hand;
    match a
    case Arrive(adds, deletes, touched, drop) =>
      s.(high := s.high + adds, medium := s.medium + deletes, pending := s.pending + touched, stop := drop)
    case Drain(order) =>
      s.(high := [], medium := [], pending := {}, hand := Hand(true, s.stop, s.high, s.medium, order, 0, 0))
    case ServeAdd =>
      var r := AddAll(disk, s.db, h.adds[0], s.turn);
      s.(db := r.db, turn := r.turn, pending := s.pending + SumsOfChunks(h.adds[0][..r.done]),
         hand := h.(adds := h.adds[1..]))
    case ServeDelete =>
      var keys := h.deletes[0];
      s.(db := if keys != [] && disk(s.turn).Good? then Delete(s.db, keys) else s.db,
      turn := if keys == [] then s.turn else s.turn + 1, hand := h.(deletes := h.deletes[1..]))
    case CommitBatch(now) =>
      s.(db := CommitOne(disk, s.db, NextBatch(s), now, s.turn), turn := s.turn + 1,
      hand := h.(updates := h.updates[|NextBatch(s)|..], batches := h.batches + 1, now := now))
    case Requeue => s.(pending := s.pending + ToSet(h.updates), hand := h.(updates := []))
    case EndRound => s.(stopped := h.stopping, hand := NOTHING)
  }

  ghost predicate Reaches(disk: Disk, s: State, actions: seq<Action>, s': State)
    decreases |actions|
  {
    if actions == [] then s' == s
    else Enabled(s, actions[0]) && Reaches(disk, Next(disk, s, actions[0]), actions[1..], s')
  }

  lemma {:induction false} ReachesThen(disk: Disk, s: State, actions: seq<Action>, s1: State, a: Action)
    requires Reaches(disk, s, actions, s1) && Enabled(s1, a)
    ensures Reaches(disk, s, actions + [a], Next(disk, s1, a))
    decreases |actions|
  {
    var more := actions + [a];
    if actions == [] {
      assert more[1..] == [];
    } else {
      ReachesThen(disk, Next(disk, s, actions[0]), actions[1..], s1, a);
      assert more[1..] == actions[1..] + [a];
    }
  }

  lemma {:induction false} ReachesBoth(disk: Disk, s: State, xs: seq<Action>, s1: State, ys: seq<Action>, s2: State)
    requires Reaches(disk, s, xs, s1) && Reaches(disk, s1, ys, s2)
    ensures Reaches(disk, s, xs + ys, s2)
    decreases |xs|
  {
    if xs == [] {
      assert xs + ys == ys;
    } else {
      ReachesBoth(disk, Next(disk, s, xs[0]), xs[1..], s1, ys, s2);
      assert (xs + ys)[1..] == xs[1..] + ys;
    }
  }

  /** How many rounds a run completes. */
  function Rounds(actions: seq<Action>): nat {
    if actions == [] then 0 else Rounds(actions[..|actions| - 1]) + if actions[|actions| - 1].EndRound? then 1 else 0
  }

  lemma {:induction false} RoundsAdd(xs: seq<Action>, ys: seq<Action>)
    ensures Rounds(xs + ys) == Rounds(xs) + Rounds(ys)
    decreases |ys|
  {
    if ys == [] {
      assert xs + ys == xs;
    } else {
      RoundsAdd(xs, ys[..|ys| - 1]);
      assert (xs + ys)[..|xs + ys| - 1] == xs + ys[..|ys| - 1];
    }
  }

  // ---- Access times and index ----------------------------------------------------------------------------

  /** The access updates lost in a run: those of the batches whose transactions failed. */
  ghost function LostIn(disk: Disk, s: State, actions: seq<Action>): set<CheckSum>
    decreases |actions|
  {
    if actions == [] || !Enabled(s, actions[0]) then {}
    else LostBy(disk, s, actions[0]) + LostIn(disk, Next(disk, s, actions[0]), actions[1..])
  }

  function LostBy(disk: Disk, s: State, a: Action): set<CheckSum> {
    if a.CommitBatch? && !disk(s.turn).Good? then ToSet(NextBatch(s)) else {}
  }

  /** Every stored chunk has an access time, or waits for one in the queue or in hand, or has lost
      its update; every access time is indexed; a stopped writer has no requests. */
  ghost predicate Inv(s: State, lost: set<CheckSum>) {
    && Indexed(s.db)
    && s.db.data.Keys <= s.db.access.Keys + s.pending + ToSet(s.hand.updates) + lost
    && (s.stop ==> s.high == [] && s.medium == [] && s.hand.adds == [] && s.hand.deletes == [])
    && (s.hand.stopping || s.stopped ==> s.stop && s.pending == {})
    && (!s.hand.serving ==> s.hand == NOTHING)
  }

  lemma AddKeepsInv(disk: Disk, s: State, lost: set<CheckSum>)
    requires Inv(s, lost) && Enabled(s, ServeAdd)
    ensures Inv(Next(disk, s, ServeAdd), lost)
  {
    var chunks := s.hand.adds[0];
    var r := AddAll(disk, s.db, chunks, s.turn);
    AddAllEffect(disk, s.db, chunks, s.turn);
    var k: nat :| AllEffect(s.db, chunks, r, k);
    AddedAccounts(s.db, chunks[..r.done], r.db, s.pending + ToSet(s.hand.updates) + lost);
  }

  lemma DeleteKeepsInv(disk: Disk, s: State, lost: set<CheckSum>)
    requires Inv(s, lost) && Enabled(s, ServeDelete)
    ensures Inv(Next(disk, s, ServeDelete), lost)
  {
    DeleteKeepsIndexed(s.db, s.hand.deletes[0]);
  }

  lemma CommitKeepsInv(disk: Disk, s: State, now: u64, lost: set<CheckSum>)
    requires Inv(s, lost) && Enabled(s, CommitBatch(now))
    ensures Inv(Next(disk, s, CommitBatch(now)), lost + LostBy(disk, s, CommitBatch(now)))
  {
    TouchAllKeeps(s.db, NextBatch(s), now);
    SplitCovers(s.hand.updates, |NextBatch(s)|);
  }

  /** Every step of the writer and of the threads around it. */
  lemma StepKeepsInv(disk: Disk, s: State, a: Action, lost: set<CheckSum>)
    requires Inv(s, lost) && Enabled(s, a)
    ensures Inv(Next(disk, s, a), lost + LostBy(disk, s, a))
  {
    match a
    case ServeAdd => AddKeepsInv(disk, s, lost);
    case ServeDelete => DeleteKeepsInv(disk, s, lost);
    case CommitBatch(now) => CommitKeepsInv(disk, s, now, lost);
    case _ =>
  }

  lemma {:induction false} RunKeepsInv(disk: Disk, s: State, actions: seq<Action>, s': State, lost: set<CheckSum>)
    requires Inv(s, lost) && Reaches(disk, s, actions, s')
    ensures Inv(s', lost + LostIn(disk, s, actions))
    decreases |actions|
  {
    if actions == [] {
      assert lost + LostIn(disk, s, actions) == lost;
    } else {
      var a := actions[0];
      StepKeepsInv(disk, s, a, lost);
      RunKeepsInv(disk, Next(disk, s, a), actions[1..], s', lost + LostBy(disk, s, a));
      assert lost + LostBy(disk, s, a) + LostIn(disk, Next(disk, s, a), actions[1..])
          == lost + LostIn(disk, s, actions);
    }
  }

  /** The store as it is opened: every stored chunk has an access time, no work is queued. */
  ghost predicate Init(s: State) {
    && Indexed(s.db) && s.db.data.Keys <= s.db.access.Keys
    && s.high == [] && s.medium == [] && s.pending == {} && !s.stop && !s.stopped && s.hand == NOTHING
  }

  lemma InitOk(s: State)
    requires Init(s)
    ensures Inv(s, {})
  {
  }

  /** In every state of every run each stored chunk is accounted for, and each access time indexed. */
  lemma StoredChunksAccounted(disk: Disk, s: State, actions: seq<Action>, s': State)
    requires Init(s) && Reaches(disk, s, actions, s')
    ensures s'.db.data.Keys <= s'.db.access.Keys + s'.pending + ToSet(s'.hand.updates) + LostIn(disk, s, actions)
    ensures Indexed(s'.db)
  {
    InitOk(s);
    RunKeepsInv(disk, s, actions, s', {});
    assert {} + LostIn(disk, s, actions) == LostIn(disk, s, actions);
  }

  lemma StoppedInv(s: State, lost: set<CheckSum>)
    requires Inv(s, lost) && s.stopped
    ensures s.db.data.Keys <= s.db.access.Keys + ToSet(s.hand.updates) + lost
    ensures !s.hand.serving ==> s.db.data.Keys <= s.db.access.Keys + lost
  {
  }

  /** A clean stop leaves every stored chunk with an access time, but for the updates of the batches
      whose transactions failed. */
  lemma CleanStop(disk: Disk, s: State, actions: seq<Action>, s': State)
    requires Init(s) && Reaches(disk, s, actions, s') && s'.stopped && !s'.hand.serving
    ensures s'.db.data.Keys <= s'.db.access.Keys + LostIn(disk, s, actions)
  {
    InitOk(s);
    RunKeepsInv(disk, s, actions, s', {});
    StoppedInv(s', {} + LostIn(disk, s, actions));
    assert {} + LostIn(disk, s, actions) == LostIn(disk, s, actions);
  }

  lemma {:induction false} AddSubTurns(disk: Disk, db: Db, batch: seq<Chunk>, turn: nat)
    ensures AddSub(disk, db, batch, turn).turn > turn
    decreases |db.index|
  {
    match Try(disk, db, batch, turn)
    case Ended(_) =>
    case Again(db', turn') => AddSubTurns(disk, db', batch, turn');
  }

  lemma {:induction false} AddAllTurns(disk: Disk, db: Db, chunks: seq<Chunk>, turn: nat)
    ensures AddAll(disk, db, chunks, turn).turn >= turn
    decreases |chunks|
  {
    if chunks != [] {
      var n := FirstOf(chunks, ADD_CHUNKS_BATCH_SIZE);
      var r := AddSub(disk, db, chunks[..n], turn);
      AddSubTurns(disk, db, chunks[..n], turn);
      AddAllTurns(disk, r.db, chunks[n..], r.turn);
    }
  }

  lemma TurnsOnly(disk: Disk, s: State, a: Action)
    requires Enabled(s, a)
    ensures s.turn <= Next(disk, s, a).turn && (a.CommitBatch? ==> s.turn < Next(disk, s, a).turn)
  {
    if a.ServeAdd? {
      AddAllTurns(disk, s.db, s.hand.adds[0], s.turn);
    }
  }

  lemma {:induction false} TurnsNeverGoBack(disk: Disk, s: State, actions: seq<Action>, s': State)
    requires Reaches(disk, s, actions, s')
    ensures s.turn <= s'.turn
    decreases |actions|
  {
    if actions != [] {
      TurnsOnly(disk, s, actions[0]);
      TurnsNeverGoBack(disk, Next(disk, s, actions[0]), actions[1..], s');
    }
  }

  // ---- When a clean stop loses something -----------------------------------------------------------------

  /** From transaction `from` on, and before `to`, none fails after one has committed. */
  ghost predicate NoRelapseBefore(disk: Disk, from: nat, to: nat) {
    forall i: nat, j: nat :: from <= i <= j < to && disk(i).Good? ==> disk(j).Good?
  }

  ghost predicate NoRelapse(disk: Disk, from: nat) {
    forall i: nat, j: nat :: from <= i <= j && disk(i).Good? ==> disk(j).Good?
  }

  /** Whatever is asked of a writer whose first transaction is `t`: if it stops cleanly, every stored
      chunk has an access time. */
  ghost predicate LosesNothing(disk: Disk, t: nat) {
    forall s: State, actions, s' ::
      s.turn == t && Init(s) && Reaches(disk, s, actions, s') && s'.stopped && !s'.hand.serving ==>
        s'.db.data.Keys <= s'.db.access.Keys
  }

  /** None of these transactions commits. */
  ghost predicate NoneGood(disk: Disk, from: nat, to: nat) {
    forall i: nat :: from <= i < to ==> !disk(i).Good?
  }

  lemma {:induction false} AddSubWithoutGood(disk: Disk, db: Db, batch: seq<Chunk>, turn: nat)
    requires NoneGood(disk, turn, AddSub(disk, db, batch, turn).turn)
    ensures AddSub(disk, db, batch, turn).db == db && !AddSub(disk, db, batch, turn).outcome.Done?
  {
    AddSubTurns(disk, db, batch, turn);
    assert !disk(turn).Good?;
    var attempt := Try(disk, db, batch, turn);
    if attempt.Again? {
      AddSubTurns(disk, attempt.db, batch, attempt.turn);
      assert false;
    }
  }

  /** An add none of whose transactions commits leaves the databases as they were. */
  lemma AddAllWithoutGood(disk: Disk, db: Db, chunks: seq<Chunk>, turn: nat)
    requires NoneGood(disk, turn, AddAll(disk, db, chunks, turn).turn)
    ensures AddAll(disk, db, chunks, turn).db == db
  {
    if chunks != [] {
      var n := FirstOf(chunks, ADD_CHUNKS_BATCH_SIZE);
      var r := AddSub(disk, db, chunks[..n], turn);
      AddAllTurns(disk, r.db, chunks[n..], r.turn);
      AddSubWithoutGood(disk, db, chunks[..n], turn);
    }
  }

  /** Nothing is lost, and until a transaction commits nothing is even stored. */
  ghost predicate Lossless(disk: Disk, t: nat, s: State) {
    && t <= s.turn && Inv(s, {})
    && (NoneGood(disk, t, s.turn) ==> s.db.data.Keys <= s.db.access.Keys)
  }

  lemma StepWithoutGood(disk: Disk, s: State, a: Action)
    requires Enabled(s, a) && NoneGood(disk, s.turn, Next(disk, s, a).turn)
    ensures Next(disk, s, a).db == s.db
  {
    match a
    case ServeAdd => AddAllWithoutGood(disk, s.db, s.hand.adds[0], s.turn);
    case ServeDelete => assert s.hand.deletes[0] != [] ==> !disk(s.turn).Good?;
    case CommitBatch(now) => assert !disk(s.turn).Good?;
    case _ =>
  }

  lemma StepLosesNothing(disk: Disk, t: nat, s: State, a: Action)
    requires Lossless(disk, t, s) && Enabled(s, a) && NoRelapseBefore(disk, t, Next(disk, s, a).turn)
    ensures Lossless(disk, t, Next(disk, s, a))
  {
    var s' := Next(disk, s, a);
    TurnsOnly(disk, s, a);
    StepKeepsInv(disk, s, a, {});
    if NoneGood(disk, t, s'.turn) {
      StepWithoutGood(disk, s, a);
    }
    if LostBy(disk, s, a) == {} {
      assert {} + LostBy(disk, s, a) == {};
    } else {
      assert NoneGood(disk, t, s.turn);
      assert NoneGood(disk, s.turn, s'.turn);
      StepWithoutGood(disk, s, a);
    }
  }

  lemma {:induction false} RunLosesNothing(disk: Disk, t: nat, s: State, actions: seq<Action>, s': State)
    requires NoRelapseBefore(disk, t, s'.turn) && Lossless(disk, t, s) && Reaches(disk, s, actions, s')
    ensures Lossless(disk, t, s')
    decreases |actions|
  {
    if actions != [] {
      TurnsNeverGoBack(disk, Next(disk, s, actions[0]), actions[1..], s');
      StepLosesNothing(disk, t, s, actions[0]);
      RunLosesNothing(disk, t, Next(disk, s, actions[0]), actions[1..], s');
    }
  }

  /** If no transaction of the run fails after one has committed, a clean stop leaves every stored chunk
      with an access time. */
  lemma CleanStopLosesNothing(disk: Disk, s: State, actions: seq<Action>, s': State)
    requires Init(s) && Reaches(disk, s, actions, s') && s'.stopped && !s'.hand.serving
    requires NoRelapseBefore(disk, s.turn, s'.turn)
    ensures s'.db.data.Keys <= s'.db.access.Keys
  {
    RunLosesNothing(disk, s.turn, s, actions, s');
    StoppedInv(s', {});
  }

  // A run that loses a chunk: transactions are used up until one commits and the next does not; a chunk
  // is added by the one, and its access time is lost with the other.

  const EMPTY: Db := Db(map[], map[], {})

  /** A writer with nothing to do. */
  function Idle(db: Db, pending: set<CheckSum>, turn: nat): State {
    State(db, [], [], pending, false, false, turn, NOTHING)
  }

  function Repeat<T>(x: T, n: nat): (r: seq<T>)
    ensures |r| == n && forall i :: 0 <= i < n ==> r[i] == x
  {
    if n == 0 then [] else [x] + Repeat(x, n - 1)
  }

  /** The writer in the middle of `n` deletions. */
  function Deleting(key: AccessKey, n: nat, turn: nat): State {
    Idle(EMPTY, {}, turn).(hand := NOTHING.(serving := true, deletes := Repeat([key], n)))
  }

  lemma OneDeletion(disk: Disk, key: AccessKey, n: nat, turn: nat)
    requires n > 0
    ensures Enabled(Deleting(key, n, turn), ServeDelete)
    ensures Next(disk, Deleting(key, n, turn), ServeDelete) == Deleting(key, n - 1, turn + 1)
  {
    assert Repeat([key], n)[1..] == Repeat([key], n - 1);
    assert Delete(EMPTY, [key]) == EMPTY;
  }

  lemma {:induction false} ServeDeletions(disk: Disk, key: AccessKey, n: nat, turn: nat)
    returns (actions: seq<Action>)
    ensures Reaches(disk, Deleting(key, n, turn), actions, Deleting(key, 0, turn + n))
    decreases n
  {
    actions := [];
    if n > 0 {
      OneDeletion(disk, key, n, turn);
      var rest := ServeDeletions(disk, key, n - 1, turn + 1);
      Prepend(disk, Deleting(key, n, turn), ServeDelete, Deleting(key, n - 1, turn + 1), rest,
              Deleting(key, 0, turn + n));
      actions := [ServeDelete] + rest;
    }
  }

  lemma Prepend(disk: Disk, s: State, a: Action, s1: State, rest: seq<Action>, s': State)
    requires Enabled(s, a) && Next(disk, s, a) == s1 && Reaches(disk, s1, rest, s')
    ensures Reaches(disk, s, [a] + rest, s')
  {
    assert ([a] + rest)[1..] == rest;
  }

  /** Deletions on an empty store use up transactions, and do nothing else. */
  lemma UseUp(disk: Disk, cs: CheckSum, turn: nat, n: nat) returns (actions: seq<Action>)
    ensures Reaches(disk, Idle(EMPTY, {}, turn), actions, Idle(EMPTY, {}, turn + n))
  {
    var key := AccessKey(0, cs);
    var arrive := Arrive([], Repeat([key], n), {}, false);
    var s1 := Next(disk, Idle(EMPTY, {}, turn), arrive);
    assert s1 == Idle(EMPTY, {}, turn).(medium := Repeat([key], n));
    var s2 := Next(disk, s1, Drain([]));
    assert s2 == Deleting(key, n, turn);
    var served := ServeDeletions(disk, key, n, turn);
    ReachesThen(disk, s2, served, Deleting(key, 0, turn + n), EndRound);
    Prepend(disk, s1, Drain([]), s2, served + [EndRound], Idle(EMPTY, {}, turn + n));
    Prepend(disk, Idle(EMPTY, {}, turn), arrive, s1, [Drain([])] + (served + [EndRound]), Idle(EMPTY, {}, turn + n));
    actions := [arrive] + ([Drain([])] + (served + [EndRound]));
  }

  lemma AddOne(disk: Disk, cs: CheckSum, turn: nat)
    requires disk(turn).Good?
    ensures AddAll(disk, EMPTY, [(cs, [])], turn) == AddResult(Done, EMPTY.(data := map[cs := []]), turn + 1, 1)
  {
    var chunks: seq<Chunk> := [(cs, [])];
    assert chunks[..1] == chunks && chunks[1..] == [];
    assert PutAll(map[], chunks) == PutAll(Put(map[], chunks[0]), []);
    assert AddSub(disk, EMPTY, chunks, turn) == AddResult(Done, EMPTY.(data := map[cs := []]), turn + 1, 1);
  }

  /** A chunk is stored, and waits for its access time. */
  lemma StoreOne(disk: Disk, cs: CheckSum, turn: nat) returns (actions: seq<Action>)
    requires disk(turn).Good?
    ensures Reaches(disk, Idle(EMPTY, {}, turn), actions, Idle(EMPTY.(data := map[cs := []]), {cs}, turn + 1))
  {
    var chunks: seq<Chunk> := [(cs, [])];
    var s0 := Idle(EMPTY, {}, turn);
    var s1 := s0.(high := [chunks]);
    var s2 := s0.(hand := NOTHING.(serving := true, adds := [chunks]));
    var s3 := Idle(EMPTY.(data := map[cs := []]), {cs}, turn + 1).(hand := NOTHING.(serving := true));
    var s4 := Idle(EMPTY.(data := map[cs := []]), {cs}, turn + 1);
    AddOne(disk, cs, turn);
    assert chunks[..1] == chunks && SumsOfChunks(chunks) == {cs};
    assert Next(disk, s0, Arrive([chunks], [], {}, false)) == s1;
    assert Next(disk, s1, Drain([])) == s2;
    assert Next(disk, s2, ServeAdd) == s3;
    assert Next(disk, s3, EndRound) == s4;
    FourSteps(disk, s0, Arrive([chunks], [], {}, false), s1, Drain([]), s2, ServeAdd, s3, EndRound, s4);
    actions := [Arrive([chunks], [], {}, false), Drain([]), ServeAdd, EndRound];
  }

  lemma TwoSteps(disk: Disk, s0: State, a0: Action, s1: State, a1: Action, s2: State)
    requires Enabled(s0, a0) && Next(disk, s0, a0) == s1 && Enabled(s1, a1) && Next(disk, s1, a1) == s2
    ensures Reaches(disk, s0, [a0, a1], s2)
  {
    assert [a0, a1][1..] == [a1] && [a1][1..] == [];
    assert Reaches(disk, s2, [], s2);
  }

  lemma FourSteps(disk: Disk, s0: State, a0: Action, s1: State, a1: Action, s2: State, a2: Action, s3: State,
                  a3: Action, s4: State)
    requires Enabled(s0, a0) && Next(disk, s0, a0) == s1 && Enabled(s1, a1) && Next(disk, s1, a1) == s2
    requires Enabled(s2, a2) && Next(disk, s2, a2) == s3 && Enabled(s3, a3) && Next(disk, s3, a3) == s4
    ensures Reaches(disk, s0, [a0, a1, a2, a3], s4)
  {
    TwoSteps(disk, s0, a0, s1, a1, s2);
    TwoSteps(disk, s2, a2, s3, a3, s4);
    ReachesBoth(disk, s0, [a0, a1], s2, [a2, a3], s4);
    assert [a0, a1] + [a2, a3] == [a0, a1, a2, a3];
  }

  /** The store is dropped, and the one update that waits is lost. */
  lemma LoseOne(disk: Disk, db: Db, cs: CheckSum, turn: nat) returns (actions: seq<Action>, s': State)
    requires !disk(turn).Good?
    ensures Reaches(disk, Idle(db, {cs}, turn), actions, s') && s'.stopped && !s'.hand.serving && s'.db == db
  {
    var s0 := Idle(db, {cs}, turn);
    var s1 := s0.(stop := true);
    var s2 := s1.(pending := {}, hand := NOTHING.(serving := true, stopping := true, updates := [cs]));
    var s3 := s2.(turn := turn + 1, hand := NOTHING.(serving := true, stopping := true, batches := 1));
    s' := s3.(stopped := true, hand := NOTHING);
    assert ToSet([cs]) == {cs};
    assert Next(disk, s0, Arrive([], [], {}, true)) == s1;
    assert Next(disk, s1, Drain([cs])) == s2;
    assert NextBatch(s2) == [cs] && [cs][1..] == [];
    assert Next(disk, s2, CommitBatch(0)) == s3;
    assert Next(disk, s3, EndRound) == s';
    FourSteps(disk, s0, Arrive([], [], {}, true), s1, Drain([cs]), s2, CommitBatch(0), s3, EndRound, s');
    actions := [Arrive([], [], {}, true), Drain([cs]), CommitBatch(0), EndRound];
  }

  /** The first transaction that fails after one that commits. */
  lemma {:induction false} FirstRelapse(disk: Disk, i: nat, j: nat) returns (k: nat)
    requires i <= j && disk(i).Good? && !disk(j).Good?
    ensures i <= k < j && disk(k).Good? && !disk(k + 1).Good?
    decreases j - i
  {
    if disk(i + 1).Good? {
      k := FirstRelapse(disk, i + 1, j);
    } else {
      k := i;
    }
  }

  /** A store that was empty holds one chunk, whose access time waits for transaction `k + 1`. */
  lemma StoreAt(disk: Disk, cs: CheckSum, t: nat, k: nat) returns (actions: seq<Action>)
    requires t <= k && disk(k).Good?
    ensures Reaches(disk, Idle(EMPTY, {}, t), actions, Idle(EMPTY.(data := map[cs := []]), {cs}, k + 1))
  {
    var used := UseUp(disk, cs, t, k - t);
    var stored := StoreOne(disk, cs, k);
    ReachesBoth(disk, Idle(EMPTY, {}, t), used, Idle(EMPTY, {}, k), stored,
                Idle(EMPTY.(data := map[cs := []]), {cs}, k + 1));
    actions := used + stored;
  }

  /** With a transaction failing after one that commits, here is a run from an empty store to a clean stop
      that leaves the one stored chunk without an access time. */
  lemma LosingRun(disk: Disk, t: nat, i: nat, j: nat, cs: CheckSum)
    returns (s: State, actions: seq<Action>, s': State)
    requires t <= i <= j && disk(i).Good? && !disk(j).Good?
    ensures s.turn == t && Init(s) && Reaches(disk, s, actions, s') && s'.stopped && !s'.hand.serving
    ensures s'.db.data.Keys == {cs} && s'.db.access == map[]
  {
    s := Idle(EMPTY, {}, t);
    var k := FirstRelapse(disk, i, j);
    var db := EMPTY.(data := map[cs := []]);
    actions := StoreAt(disk, cs, t, k);
    var lost;
    lost, s' := LoseOne(disk, db, cs, k + 1);
    ReachesBoth(disk, s, actions, Idle(db, {cs}, k + 1), lost, s');
    actions := actions + lost;
  }

  /** Exactly when a clean stop leaves every stored chunk with an access time, whatever is asked of the
      writer: when no transaction fails after one has committed. */
  lemma CleanStopIff(disk: Disk, t: nat)
    ensures LosesNothing(disk, t) <==> NoRelapse(disk, t)
  {
    if NoRelapse(disk, t) {
      forall s: State, actions, s' | s.turn == t && Init(s) && Reaches(disk, s, actions, s')
                                     && s'.stopped && !s'.hand.serving
        ensures s'.db.data.Keys <= s'.db.access.Keys
      {
        CleanStopLosesNothing(disk, s, actions, s');
      }
    } else {
      var i: nat, j: nat :| t <= i <= j && disk(i).Good? && !disk(j).Good?;
      WordCapacities();
      var cs := CheckSum(Zeros(32), Sha256);
      var s, actions, s' := LosingRun(disk, t, i, j, cs);
      assert cs in s'.db.data.Keys && cs !in s'.db.access.Keys;
    }
  }

  // ---- Every request is served ------------------------------------------------------------------------------

  /** The requests to add, to delete and to touch that arrive in a run. */
  function ArrivedAdds(actions: seq<Action>): seq<seq<Chunk>>
    decreases |actions|
  {
    if actions == [] then []
    else (if actions[0].Arrive? then actions[0].adds else []) + ArrivedAdds(actions[1..])
  }

  function ArrivedDeletes(actions: seq<Action>): seq<seq<AccessKey>>
    decreases |actions|
  {
    if actions == [] then []
    else (if actions[0].Arrive? then actions[0].deletes else []) + ArrivedDeletes(actions[1..])
  }

  function Touched(actions: seq<Action>): set<CheckSum>
    decreases |actions|
  {
    if actions == [] then {}
    else (if actions[0].Arrive? then actions[0].touched else {}) + Touched(actions[1..])
  }

  /** What a step serves: the request, or the updates, that are first in hand before it. */
  function AddServed(s: State, a: Action): seq<seq<Chunk>> {
    if a.ServeAdd? && s.hand.adds != [] then [s.hand.adds[0]] else []
  }

  function DeleteServed(s: State, a: Action): seq<seq<AccessKey>> {
    if a.ServeDelete? && s.hand.deletes != [] then [s.hand.deletes[0]] else []
  }

  function Tried(s: State, a: Action): seq<CheckSum> {
    if a.CommitBatch? then s.hand.updates[..MinOf(ACCESS_BATCH_SIZE, |s.hand.updates|)] else []
  }

  ghost function ServedAdds(disk: Disk, s: State, actions: seq<Action>): seq<seq<Chunk>>
    decreases |actions|
  {
    if actions == [] || !Enabled(s, actions[0]) then []
    else AddServed(s, actions[0]) + ServedAdds(disk, Next(disk, s, actions[0]), actions[1..])
  }

  ghost function ServedDeletes(disk: Disk, s: State, actions: seq<Action>): seq<seq<AccessKey>>
    decreases |actions|
  {
    if actions == [] || !Enabled(s, actions[0]) then []
    else DeleteServed(s, actions[0]) + ServedDeletes(disk, Next(disk, s, actions[0]), actions[1..])
  }

  ghost function TriedIn(disk: Disk, s: State, actions: seq<Action>): set<CheckSum>
    decreases |actions|
  {
    if actions == [] || !Enabled(s, actions[0]) then {}
    else ToSet(Tried(s, actions[0])) + TriedIn(disk, Next(disk, s, actions[0]), actions[1..])
  }

  /** Between rounds there is nothing in hand. */
  ghost predicate HandOk(s: State) {
    !s.hand.serving ==> s.hand == NOTHING
  }

  lemma HandStaysOk(disk: Disk, s: State, a: Action)
    requires HandOk(s) && Enabled(s, a)
    ensures HandOk(Next(disk, s, a))
  {
  }

  lemma StepKeepsAdds(disk: Disk, s: State, a: Action)
    requires HandOk(s) && Enabled(s, a)
    ensures s.hand.adds + s.high + ArrivedAdds([a])
         == AddServed(s, a) + Next(disk, s, a).hand.adds + Next(disk, s, a).high
  {
  }

  lemma StepKeepsDeletes(disk: Disk, s: State, a: Action)
    requires HandOk(s) && Enabled(s, a)
    ensures s.hand.deletes + s.medium + ArrivedDeletes([a])
         == DeleteServed(s, a) + Next(disk, s, a).hand.deletes + Next(disk, s, a).medium
  {
  }

  lemma StepKeepsUpdates(disk: Disk, s: State, a: Action)
    requires HandOk(s) && Enabled(s, a)
    ensures var s' := Next(disk, s, a);
            s.pending + ToSet(s.hand.updates) + Touched([a]) <= ToSet(Tried(s, a)) + s'.pending + ToSet(s'.hand.updates)
  {
    SplitCovers(s.hand.updates, MinOf(ACCESS_BATCH_SIZE, |s.hand.updates|));
  }

  lemma ArrivalsUnfold(actions: seq<Action>)
    requires actions != []
    ensures ArrivedAdds(actions) == ArrivedAdds([actions[0]]) + ArrivedAdds(actions[1..])
    ensures ArrivedDeletes(actions) == ArrivedDeletes([actions[0]]) + ArrivedDeletes(actions[1..])
  {
    assert [actions[0]][1..] == [];
  }

  lemma Regroup<T>(a: seq<T>, b: seq<T>, c: seq<T>, rest: seq<T>, served: seq<T>, more: seq<T>,
                   a': seq<T>, b': seq<T>, end: seq<T>)
    requires a + b + c == served + a' + b' && a' + b' + rest == more + end
    ensures a + b + (c + rest) == served + more + end
  {
    assert a + b + (c + rest) == (a + b + c) + rest;
    assert served + a' + b' + rest == served + (a' + b' + rest);
  }

  /** No request to add is lost, added or overtaken: those in hand and queued at the start and those that
      arrive are, in order, those that are served and those in hand and queued at the end. */
  lemma {:induction false} AddsAreServed(disk: Disk, s: State, actions: seq<Action>, s': State)
    requires HandOk(s) && Reaches(disk, s, actions, s')
    ensures s.hand.adds + s.high + ArrivedAdds(actions) == ServedAdds(disk, s, actions) + (s'.hand.adds + s'.high)
    decreases |actions|
  {
    if actions != [] {
      var a, s1 := actions[0], Next(disk, s, actions[0]);
      HandStaysOk(disk, s, a);
      ArrivalsUnfold(actions);
      StepKeepsAdds(disk, s, a);
      AddsAreServed(disk, s1, actions[1..], s');
      Regroup(s.hand.adds, s.high, ArrivedAdds([a]), ArrivedAdds(actions[1..]), AddServed(s, a),
              ServedAdds(disk, s1, actions[1..]), s1.hand.adds, s1.high, s'.hand.adds + s'.high);
    }
  }

  /** The same of requests to delete. */
  lemma {:induction false} DeletesAreServed(disk: Disk, s: State, actions: seq<Action>, s': State)
    requires HandOk(s) && Reaches(disk, s, actions, s')
    ensures s.hand.deletes + s.medium + ArrivedDeletes(actions)
         == ServedDeletes(disk, s, actions) + (s'.hand.deletes + s'.medium)
    decreases |actions|
  {
    if actions != [] {
      var a, s1 := actions[0], Next(disk, s, actions[0]);
      HandStaysOk(disk, s, a);
      ArrivalsUnfold(actions);
      StepKeepsDeletes(disk, s, a);
      DeletesAreServed(disk, s1, actions[1..], s');
      Regroup(s.hand.deletes, s.medium, ArrivedDeletes([a]), ArrivedDeletes(actions[1..]), DeleteServed(s, a),
              ServedDeletes(disk, s1, actions[1..]), s1.hand.deletes, s1.medium, s'.hand.deletes + s'.medium);
    }
  }

  /** And each chunk whose use has been reported has had its update tried, or still waits for that. */
  lemma {:induction false} TouchedAreTried(disk: Disk, s: State, actions: seq<Action>, s': State)
    requires HandOk(s) && Reaches(disk, s, actions, s')
    ensures s.pending + ToSet(s.hand.updates) + Touched(actions)
         <= TriedIn(disk, s, actions) + s'.pending + ToSet(s'.hand.updates)
    decreases |actions|
  {
    if actions != [] {
      HandStaysOk(disk, s, actions[0]);
      StepKeepsUpdates(disk, s, actions[0]);
      TouchedAreTried(disk, Next(disk, s, actions[0]), actions[1..], s');
    }
  }

  // ---- What serving a request does ---------------------------------------------------------------------------

  /** A request to add whose transactions commit stores all its chunks, and nothing else changes but that
      their uses are to be recorded. */
  lemma ServedAddStores(disk: Disk, s: State)
    requires Enabled(s, ServeAdd)
    requires forall i :: s.turn <= i < s.turn + SubBatches(|s.hand.adds[0]|) ==> disk(i).Good?
    ensures var chunks, s' := s.hand.adds[0], Next(disk, s, ServeAdd);
            && s'.db.data.Keys == s.db.data.Keys + SumsOfChunks(chunks)
            && (forall cs :: cs in s.db.data ==> s'.db.data[cs] == s.db.data[cs])
            && s'.db.access == s.db.access && s'.db.index == s.db.index
            && s'.pending == s.pending + SumsOfChunks(chunks)
  {
    AddAllGood(disk, s.db, s.hand.adds[0], s.turn);
    PutAllKeeps(s.db.data, s.hand.adds[0]);
    assert s.hand.adds[0][..|s.hand.adds[0]|] == s.hand.adds[0];
  }

  /** In any case only least recent entries are evicted, what is there of its chunks is as it has them, and
      the chunks of the sub-batches that are done, and no others, have their uses recorded. */
  lemma ServedAddEffect(disk: Disk, s: State) returns (done: nat, gone: nat)
    requires Enabled(s, ServeAdd)
    ensures var chunks, s' := s.hand.adds[0], Next(disk, s, ServeAdd);
            && done <= |chunks| && Added(s.db, chunks[..done], s'.db) && s'.db.index == Evict(s.db, gone).index
            && s'.pending == s.pending + SumsOfChunks(chunks[..done])
  {
    var chunks := s.hand.adds[0];
    var r := AddAll(disk, s.db, chunks, s.turn);
    AddAllEffect(disk, s.db, chunks, s.turn);
    gone :| AllEffect(s.db, chunks, r, gone);
    done := r.done;
  }

  /** A batch of updates whose transaction commits sets each time that is due to `now`; else none changes. */
  lemma CommittedTimes(disk: Disk, s: State, now: u64, cs: CheckSum)
    requires Enabled(s, CommitBatch(now))
    ensures var db, db' := s.db, Next(disk, s, CommitBatch(now)).db;
            && db'.data == db.data
            && (cs in db'.access <==> cs in db.access || (disk(s.turn).Good? && cs in Tried(s, CommitBatch(now))))
            && (cs in db'.access ==>
                  db'.access[cs]
                  == if disk(s.turn).Good? && cs in Tried(s, CommitBatch(now)) && Due(db, cs, now) then now
                     else db.access[cs])
  {
    TouchAllKeeps(s.db, NextBatch(s), now);
    assert NextBatch(s) == Tried(s, CommitBatch(now));
  }

  /** Requests to add go before requests to delete, these before access updates; and after a first batch of
      updates any request that waits goes before the next. */
  lemma Priorities(s: State, a: Action)
    requires Enabled(s, a)
    ensures a.ServeDelete? || a.CommitBatch? ==> s.hand.adds == []
    ensures a.CommitBatch? ==> s.hand.deletes == [] && (s.hand.batches > 0 ==> s.high == [] && s.medium == [])
    ensures a.Requeue? ==> s.hand.batches > 0 && !(s.high == [] && s.medium == [])
  {
  }

  /** A round that begins when the store has been dropped is the last. */
  lemma {:induction false} StopIsHeeded(disk: Disk, s: State, actions: seq<Action>, s': State)
    requires s.stop && (s.hand.serving ==> s.hand.stopping) && Reaches(disk, s, actions, s')
    ensures s'.stop && (s'.hand.serving ==> s'.hand.stopping)
    ensures Rounds(actions) > 0 ==> s'.stopped
    decreases |actions|
  {
    if actions != [] {
      var s1 := Next(disk, s, actions[0]);
      RoundsAdd([actions[0]], actions[1..]);
      assert [actions[0]] + actions[1..] == actions;
      StopIsHeeded(disk, s1, actions[1..], s');
      if actions[0].EndRound? { StoppedStays(disk, s1, actions[1..], s'); }
    }
  }

  lemma {:induction false} StoppedStays(disk: Disk, s: State, actions: seq<Action>, s': State)
    requires s.stopped && !s.hand.serving && Reaches(disk, s, actions, s')
    ensures s'.stopped
    decreases |actions|
  {
    if actions != [] {
      StoppedStays(disk, Next(disk, s, actions[0]), actions[1..], s');
    }
  }

  // ---- The mirror over runs --------------------------------------------------------------------------------

  /** No deletion that commits in the run has a stale key at the time it is made. */
  ghost predicate FreshDeletions(disk: Disk, s: State, actions: seq<Action>)
    decreases |actions|
  {
    actions == [] || !Enabled(s, actions[0])
    || ((actions[0].ServeDelete? && disk(s.turn).Good? ==> NoneStale(s.db, s.hand.deletes[0]))
        && FreshDeletions(disk, Next(disk, s, actions[0]), actions[1..]))
  }

  /** One step keeps access times and index mirrors of each other, unless it deletes a stale key; and
      then it does not. */
  lemma StepKeepsMirrorIff(disk: Disk, s: State, a: Action)
    requires Mirrored(s.db) && Enabled(s, a)
    ensures Mirrored(Next(disk, s, a).db) <==>
            !(a.ServeDelete? && disk(s.turn).Good? && !NoneStale(s.db, s.hand.deletes[0]))
  {
    match a
    case ServeAdd =>
      AddAllEffect(disk, s.db, s.hand.adds[0], s.turn);
      var k: nat :| AllEffect(s.db, s.hand.adds[0], AddAll(disk, s.db, s.hand.adds[0], s.turn), k);
    case ServeDelete => DeleteKeepsMirrorIff(s.db, s.hand.deletes[0]);
    case CommitBatch(now) => TouchAllKeeps(s.db, NextBatch(s), now);
    case _ =>
  }

  /** Over every run whose deletions are fresh, they stay in bijection. */
  lemma {:induction false} MirrorKept(disk: Disk, s: State, actions: seq<Action>, s': State)
    requires Mirrored(s.db) && Reaches(disk, s, actions, s') && FreshDeletions(disk, s, actions)
    ensures Mirrored(s'.db)
    decreases |actions|
  {
    if actions != [] {
      StepKeepsMirrorIff(disk, s, actions[0]);
      MirrorKept(disk, Next(disk, s, actions[0]), actions[1..], s');
    }
  }

  // ---- Deletions and data -----------------------------------------------------------------------------------

  /** A deletion that commits, however long after its keys were read, leaves nothing of them, and all else
      as it was; one that fails leaves all as it was. */
  lemma DeletedFully(disk: Disk, s: State, k: AccessKey)
    requires Enabled(s, ServeDelete)
    ensures var keys, db, db' := s.hand.deletes[0], s.db, Next(disk, s, ServeDelete).db;
            if keys != [] && disk(s.turn).Good? then
              && (k in db'.index <==> k in db.index && k !in keys)
              && var gone := exists d :: d in keys && d.cs == k.cs;
                 && (k.cs in db'.data <==> k.cs in db.data && !gone)
                 && (k.cs in db'.access <==> k.cs in db.access && !gone)
                 && (k.cs in db'.data ==> db'.data[k.cs] == db.data[k.cs])
                 && (k.cs in db'.access ==> db'.access[k.cs] == db.access[k.cs])
            else db' == db
  {
    var keys := s.hand.deletes[0];
    assert k in ToSet(keys) <==> k in keys;
    assert k.cs in SumsOf(keys) <==> exists d :: d in keys && d.cs == k.cs;
  }

  /** The chunks that a step asks to add. */
  function Asked(a: Action): set<Chunk> {
    if a.Arrive? then set r, c | r in a.adds && c in r :: c else {}
  }

  function AskedIn(actions: seq<Action>): set<Chunk>
    decreases |actions|
  {
    if actions == [] then {} else Asked(actions[0]) + AskedIn(actions[1..])
  }

  function Stored(db: Db): set<Chunk> {
    set cs | cs in db.data :: (cs, db.data[cs])
  }

  /** All that is stored or waits to be added is among `known`. */
  ghost predicate Within(s: State, known: set<Chunk>) {
    && Stored(s.db) <= known
    && (forall r :: r in s.high ==> ToSet(r) <= known)
    && (forall r :: r in s.hand.adds ==> ToSet(r) <= known)
  }

  lemma AddStaysWithin(disk: Disk, db: Db, chunks: seq<Chunk>, turn: nat, known: set<Chunk>)
    requires Stored(db) <= known && ToSet(chunks) <= known
    ensures Stored(AddAll(disk, db, chunks, turn).db) <= known
  {
    var r := AddAll(disk, db, chunks, turn);
    AddAllEffect(disk, db, chunks, turn);
    var k: nat :| AllEffect(db, chunks, r, k);
    forall c | c in Stored(r.db) ensures c in known {
      if c !in Stored(db) { assert c in chunks[..r.done] && c in ToSet(chunks); }
    }
  }

  lemma StepStaysWithin(disk: Disk, s: State, a: Action, known: set<Chunk>)
    requires Within(s, known) && Enabled(s, a)
    ensures Within(Next(disk, s, a), known + Asked(a))
  {
    match a
    case Arrive(adds, _, _, _) =>
      forall r | r in s.high + adds ensures ToSet(r) <= known + Asked(a) {
        if r in adds { assert ToSet(r) <= Asked(a); }
      }
    case ServeAdd => AddStaysWithin(disk, s.db, s.hand.adds[0], s.turn, known);
    case CommitBatch(now) => TouchAllKeeps(s.db, NextBatch(s), now);
    case _ =>
  }

  lemma {:induction false} RunStaysWithin(disk: Disk, s: State, actions: seq<Action>, s': State, known: set<Chunk>)
    requires Within(s, known) && Reaches(disk, s, actions, s')
    ensures Within(s', known + AskedIn(actions))
    decreases |actions|
  {
    if actions == [] {
      assert known + {} == known;
    } else {
      StepStaysWithin(disk, s, actions[0], known);
      RunStaysWithin(disk, Next(disk, s, actions[0]), actions[1..], s', known + Asked(actions[0]));
      assert known + Asked(actions[0]) + AskedIn(actions[1..]) == known + AskedIn(actions);
    }
  }

  /** Over every run, evictions and deletions and adds again included: whatever is stored was stored at
      the start, or has been asked to be added, with the very data it has. */
  lemma StoredWasAsked(disk: Disk, s: State, actions: seq<Action>, s': State, cs: CheckSum)
    requires Init(s) && Reaches(disk, s, actions, s') && cs in s'.db.data
    ensures (cs in s.db.data && s'.db.data[cs] == s.db.data[cs]) || (cs, s'.db.data[cs]) in AskedIn(actions)
  {
    RunStaysWithin(disk, s, actions, s', Stored(s.db));
    assert (cs, s'.db.data[cs]) in Stored(s'.db);
  }
}
