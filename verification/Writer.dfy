/** The writer thread itself: its loops over the databases and queues, proved to take the steps of
    WriterProtocol and to compute the functions of ChunkStore. */
module Writer {
  import opened AccessOrder
  import opened Basics
  import opened Bytes
  import opened CheckSums
  import opened ChunkStore
  import P = WriterProtocol

  datatype GcDeleteResult = GcDeleteResult(removed: nat, checksums: seq<CheckSum>)

  class WriterThread {
    // the databases
    var data: map<CheckSum, seq<byte>>
    var access: map<CheckSum, u64>
    var index: set<AccessKey>
    // the queues; a single chunk to add is a batch of one
    var high: seq<seq<Chunk>>
    var medium: seq<seq<AccessKey>>
    var pending: set<CheckSum>                 // access_pending
    var stop: bool
    /** How the i-th write transaction ends, and the number of the next one. */
    const disk: Disk
    var turn: nat
    /** The loop has been left. */
    var stopped: bool

    constructor (db: Db, disk: Disk)
      requires Indexed(db) && db.data.Keys <= db.access.Keys
      ensures P.Init(View(P.NOTHING)) && GetDb() == db && this.disk == disk && turn == 0
    {
      data, access, index := db.data, db.access, db.index;
      high, medium, pending, stop, stopped := [], [], {}, false, false;
      this.disk, turn := disk, 0;
    }

    function GetDb(): Db
      reads this
    {
      Db(data, access, index)
    }

    /** The thread's state, with what it has in hand. */
    function View(hand: P.Hand): P.State
      reads this
    {
      P.State(GetDb(), high, medium, pending, stop, stopped, turn, hand)
    }

    // ---- Transactions ------------------------------------------------------------------------------------

    /** The ending of the next write transaction. */
    method Transact() returns (e: Ending)
      modifies this`turn
      ensures e == disk(old(turn)) && turn == old(turn) + 1
    {
      e := disk(turn);
      turn := turn + 1;
    }

    /** GC within the writer thread, to make room. */
    method GcLruDirect(max: nat) returns (ok: bool, removed: nat)
      modifies this`data, this`access, this`index, this`turn
      ensures var n := if max == 0 then 1 else max;
              && ok == (old(index) == {} || disk(old(turn)).Good?)
              && turn == old(turn) + (if old(index) == {} then 0 else 1)
              && removed == (if ok then |Oldest(old(index), n)| else 0)
              && GetDb() == (if ok then Evict(old(GetDb()), n) else old(GetDb()))
    {
      var targets := SelectOldest(index, max);
      if |targets| == 0 {
        DeleteNothing(GetDb());
        return true, 0;
      }
      assert index != {} by { OldestInIndex(index, if max == 0 then 1 else max); assert targets[0] in ToSet(targets); }
      var ending := Transact();
      if !ending.Good? {
        return false, 0;
      }
      DeleteAll(targets);
      return true, |targets|;
    }

    /** The deletions of one transaction. */
    method DeleteAll(keys: seq<AccessKey>)
      modifies this`data, this`access, this`index
      ensures GetDb() == Delete(old(GetDb()), keys)
    {
      var i := 0;
      DeleteNothing(GetDb());
      assert keys[..0] == [];
      while i < |keys|
        invariant 0 <= i <= |keys| && GetDb() == Delete(old(GetDb()), keys[..i])
      {
        var key := keys[i];
        DeleteTwice(old(GetDb()), keys[..i], [key]);
        assert keys[..i + 1] == keys[..i] + [key];
        assert SumsOf([key]) == {key.cs} && ToSet([key]) == {key};
        data, access, index := data - {key.cs}, access - {key.cs}, index - {key};
        i := i + 1;
      }
      assert keys[..i] == keys;
    }

    /** All keys of the batch are deleted with their data and times, or none. */
    method DoDeleteKeys(keys: seq<AccessKey>) returns (ok: bool, r: GcDeleteResult)
      modifies this`data, this`access, this`index, this`turn
      ensures ok == (keys == [] || disk(old(turn)).Good?) && turn == old(turn) + (if keys == [] then 0 else 1)
      ensures GetDb() == if ok then Delete(old(GetDb()), keys) else old(GetDb())
      ensures r.removed == |keys| == |r.checksums| && (forall i :: 0 <= i < |keys| ==> r.checksums[i] == keys[i].cs)
    {
      r := GcDeleteResult(|keys|, seq(|keys|, i requires 0 <= i < |keys| => keys[i].cs));
      if |keys| == 0 {
        DeleteNothing(GetDb());
        return true, r;
      }
      var ending := Transact();
      ok := ending.Good?;
      if ok {
        DeleteAll(keys);
      }
    }

    /** One attempt at a batch: all of it, or nothing. It finds the map full, or fails, at some put. */
    method TryPutAll(batch: seq<Chunk>) returns (r: Outcome)
      requires batch != []
      modifies this`data, this`turn
      ensures turn == old(turn) + 1
      ensures r == match disk(old(turn)) case Good => Done case Full => MapFull case Bad => Failed
      ensures data == if r.Done? then PutAll(old(data), batch) else old(data)
    {
      var ending := Transact();
      assert |batch| > 0;
      var at :| 0 <= at < |batch|;
      var wtxn := data;
      var i := 0;
      assert batch[..0] == [];
      while i < |batch|
        invariant 0 <= i <= |batch| && wtxn == PutAll(data, batch[..i]) && data == old(data)
        invariant (ending.Good? || i <= at) && turn == old(turn) + 1
      {
        if i == at && ending.Full? {
          return MapFull;
        }
        if i == at && ending.Bad? {
          return Failed;
        }
        PutAllThen(data, batch[..i], batch[i]);
        assert batch[..i + 1] == batch[..i] + [batch[i]];
        wtxn := Put(wtxn, batch[i]);
        i := i + 1;
      }
      assert batch[..i] == batch;
      data := wtxn;
      return Done;
    }

    // ---- Adds ----------------------------------------------------------------------------------------------

    /** Evict a batch of the least recent entries, if there are any. */
    method MakeRoom() returns (r: Outcome)
      modifies this`data, this`access, this`index, this`turn
      ensures r == (if old(index) == {} then MapFull else if disk(old(turn)).Good? then Done else Failed)
      ensures turn == old(turn) + (if old(index) == {} then 0 else 1)
      ensures GetDb() == if r.Done? then Evict(old(GetDb()), GC_BATCH) else old(GetDb())
    {
      var ok, removed := GcLruDirect(GC_BATCH);
      InOrderLength(old(index));
      if !ok {
        return Failed;
      }
      if removed == 0 {
        EvictNothing(old(GetDb()));
        return MapFull;
      }
      return Done;
    }

    /** One round of the loop below: try, and if the map is full make room to try again. */
    method TryOrMakeRoom(batch: seq<Chunk>) returns (r: Outcome, again: bool)
      requires batch != []
      modifies this`data, this`access, this`index, this`turn
      ensures match Try(disk, old(GetDb()), batch, old(turn))
              case Ended(result) => !again && r == result.outcome && GetDb() == result.db && turn == result.turn
              case Again(db, turn') => again && GetDb() == db && turn == turn'
    {
      ghost var before, first := GetDb(), turn;
      r := TryPutAll(batch);
      if !r.MapFull? {
        return r, false;
      }
      TryOnFullMap(disk, before, batch, first);
      assert GetDb() == before;
      r := MakeRoom();
      again := r.Done?;
    }

    /** The loop of `do_add_chunks_sub_batch`. */
    method TryUntilOver(batch: seq<Chunk>) returns (r: Outcome)
      requires batch != []
      modifies this`data, this`access, this`index, this`turn
      ensures var result := AddSub(disk, old(GetDb()), batch, old(turn));
              r == result.outcome && GetDb() == result.db && turn == result.turn
    {
      ghost var goal := AddSub(disk, GetDb(), batch, turn);
      var again;
      r, again := TryOrMakeRoom(batch);
      while again
        invariant if again then AddSub(disk, GetDb(), batch, turn) == goal
                  else r == goal.outcome && GetDb() == goal.db && turn == goal.turn
        decreases again, |index|
      {
        r, again := TryOrMakeRoom(batch);
      }
    }

    /** `do_add_chunks_sub_batch`. */
    method DoAddSubBatch(batch: seq<Chunk>) returns (r: Outcome)
      requires batch != []
      modifies this`data, this`access, this`index, this`pending, this`turn
      ensures var result := AddSub(disk, old(GetDb()), batch, old(turn));
              r == result.outcome && GetDb() == result.db && turn == result.turn
      ensures pending == if r.Done? then old(pending) + SumsOfChunks(batch) else old(pending)
    {
      r := TryUntilOver(batch);
      if r.Done? {
        pending := pending + SumsOfChunks(batch);
      }
    }

    /** `do_add_chunks_batch`, and `do_add_chunk` for a request of one chunk. */
    method DoAddChunksBatch(chunks: seq<Chunk>) returns (r: Outcome, ghost done: nat)
      modifies this`data, this`access, this`index, this`pending, this`turn
      ensures var result := AddAll(disk, old(GetDb()), chunks, old(turn));
              r == result.outcome && GetDb() == result.db && turn == result.turn && done == result.done
      ensures pending == old(pending) + SumsOfChunks(chunks[..done])
    {
      ghost var goal := AddAll(disk, GetDb(), chunks, turn);
      var i := 0;
      NoneAdded(disk, GetDb(), chunks, turn);
      while i < |chunks|
        invariant 0 <= i <= |chunks| && pending == old(pending) + SumsOfChunks(chunks[..i])
        invariant Remains(disk, GetDb(), chunks, i, turn, goal)
      {
        var end := if i + ADD_CHUNKS_BATCH_SIZE <= |chunks| then i + ADD_CHUNKS_BATCH_SIZE else |chunks|;
        OneSubBatch(disk, GetDb(), chunks, i, end, turn, goal);
        r := DoAddSubBatch(chunks[i..end]);
        if !r.Done? {
          return r, i;
        }
        SumsJoin(chunks, i, end);
        i := end;
      }
      AllAdded(disk, GetDb(), chunks, turn, goal);
      return Done, i;
    }

    // ---- Access updates --------------------------------------------------------------------------------------

    /** `update_access`: a time that is due becomes `now`, and its key replaces the old one. */
    method UpdateAccess(cs: CheckSum, now: u64)
      modifies this`access, this`index
      ensures GetDb() == Touch(old(GetDb()), cs, now)
      ensures var due := cs !in old(access) || now >= old(access)[cs] + ACCESS_UPDATE_MIN_INTERVAL_SECS;
              && (!due ==> access == old(access) && index == old(index))
              && (due ==> access == old(access)[cs := now])
              && (due ==> index == (if cs in old(access) then old(index) - {AccessKey(old(access)[cs], cs)}
                                    else old(index)) + {AccessKey(now, cs)})
    {
      if cs in access {
        var secs := access[cs];
        if now <= secs || now - secs < ACCESS_UPDATE_MIN_INTERVAL_SECS {
          return;
        }
        index := index - {AccessKey(secs, cs)};
      }
      access := access[cs := now];
      index := index + {AccessKey(now, cs)};
    }

    /** One transaction: all updates of the batch, or none. */
    method CommitAccessBatch(batch: seq<CheckSum>, now: u64)
      modifies this`access, this`index, this`turn
      ensures GetDb() == CommitOne(disk, old(GetDb()), batch, now, old(turn)) && turn == old(turn) + 1
    {
      var ending := Transact();
      if !ending.Good? {
        return;
      }
      ghost var goal := TouchAll(GetDb(), batch, now);
      var i := 0;
      assert batch[0..] == batch;
      while i < |batch|
        invariant 0 <= i <= |batch| && TouchAll(GetDb(), batch[i..], now) == goal
        invariant data == old(data) && turn == old(turn) + 1
      {
        var cs := batch[i];
        assert batch[i..][0] == cs && batch[i..][1..] == batch[i + 1..];
        UpdateAccess(cs, now);
        i := i + 1;
      }
    }

    /** What the other threads do meanwhile: requests and touches arrive, and the store may be dropped,
        but only once every caller has its reply. */
    method Arrivals(outstanding: bool, ghost hand: P.Hand) returns (ghost steps: seq<P.Action>)
      requires outstanding <==> hand.adds != [] || hand.deletes != []
      modifies this`high, this`medium, this`pending, this`stop
      ensures P.Reaches(disk, old(View(hand)), steps, View(hand)) && P.Rounds(steps) == 0
      ensures old(pending) <= pending
    {
      var adds: seq<seq<Chunk>>, deletes: seq<seq<AccessKey>>, touched: set<CheckSum>, dropped, quiet := *, *, *, *, *;
      if quiet || stop {
        return [];
      }
      var drop := dropped && !outstanding && |high + adds| == 0 && |medium + deletes| == 0;
      ghost var before, a := View(hand), P.Arrive(adds, deletes, touched, drop);
      high, medium, pending, stop := high + adds, medium + deletes, pending + touched, drop;
      P.ReachesThen(disk, before, [], before, a);
      assert [] + [a] == [a] && [a][..0] == [];
      steps := [a];
    }

    /** The next batch of updates. */
    method CommitNext(checksums: seq<CheckSum>, offset: nat, now: u64, ghost hand: P.Hand, ghost first: P.State,
                      ghost steps: seq<P.Action>)
        returns (end: nat, ghost hand': P.Hand)
      requires Progress(disk, first, checksums, offset, now, steps, View(hand)) && offset < |checksums|
      requires offset > 0 ==> high == [] && medium == []
      modifies this`access, this`index, this`turn
      ensures end == MinOf(offset + ACCESS_BATCH_SIZE, |checksums|)
      ensures Progress(disk, first, checksums, end, now, steps + [P.CommitBatch(now)], View(hand'))
    {
      end := if offset + ACCESS_BATCH_SIZE <= |checksums| then offset + ACCESS_BATCH_SIZE else |checksums|;
      ProgressCommit(disk, first, checksums, offset, end, now, steps, View(hand));
      hand' := P.Next(disk, View(hand), P.CommitBatch(now)).hand;
      CommitAccessBatch(checksums[offset..end], now);
    }

    /** The updates not tried go back to the queue. */
    method GiveBack(checksums: seq<CheckSum>, offset: nat, now: u64, ghost hand: P.Hand, ghost first: P.State,
                    ghost steps: seq<P.Action>)
        returns (ghost steps': seq<P.Action>, ghost hand': P.Hand)
      requires Progress(disk, first, checksums, offset, now, steps, View(hand)) && 0 < offset < |checksums|
      requires high != [] || medium != []
      modifies this`pending
      ensures pending == old(pending) + ToSet(checksums[offset..])
      ensures P.Reaches(disk, first, steps', View(hand')) && P.Rounds(steps') == 0
      ensures hand' == hand.(updates := [])
    {
      ProgressRequeue(disk, first, checksums, offset, now, steps, View(hand));
      pending := pending + ToSet(checksums[offset..]);
      steps', hand' := steps + [P.Requeue], hand.(updates := []);
    }

    /** A first batch always, then batch by batch while no request waits; what is not tried goes back to
        the queue. The first `n` updates have been tried: those of each batch are in the databases if its
        transaction committed, and nothing else has changed there. */
    method ProcessAccessUpdates(checksums: seq<CheckSum>, now: u64, ghost hand: P.Hand)
        returns (ghost n: nat, ghost steps: seq<P.Action>, ghost hand': P.Hand)
      requires hand.adds == [] && hand.deletes == [] && hand.updates == checksums && hand.batches == 0
      modifies this`access, this`index, this`turn, this`high, this`medium, this`pending, this`stop
      ensures n <= |checksums| && (n < |checksums| ==> n >= ACCESS_BATCH_SIZE && (high != [] || medium != []))
      ensures GetDb() == Commits(disk, old(GetDb()), checksums[..n], now, old(turn)) && turn == old(turn) + Batches(n)
      ensures old(pending) + ToSet(checksums[n..]) <= pending
      ensures P.Reaches(disk, old(View(hand)), steps, View(hand')) && P.Rounds(steps) == 0
      ensures hand' == hand.(updates := [], batches := hand'.batches, now := hand'.now)
    {
      ghost var first := View(hand);
      n, steps, hand' := 0, [], hand;
      ProgressStart(disk, first, checksums, now);
      if |checksums| == 0 {
        return;
      }
      var offset;
      offset, hand' := CommitNext(checksums, 0, now, hand, first, []);
      steps := [] + [P.CommitBatch(now)];
      while offset < |checksums|
        invariant 0 < offset && Progress(disk, first, checksums, offset, now, steps, View(hand'))
      {
        ghost var before := View(hand');
        ghost var arrived := Arrivals(false, hand');
        ProgressArrive(disk, first, checksums, offset, now, steps, before, arrived, View(hand'));
        steps := steps + arrived;
        if |high| > 0 || |medium| > 0 {
          n := offset;
          steps, hand' := GiveBack(checksums, offset, now, hand', first, steps);
          return;
        }
        ghost var done := steps;
        offset, hand' := CommitNext(checksums, offset, now, hand', first, done);
        steps := done + [P.CommitBatch(now)];
      }
      n := offset;
    }

    // ---- The loop of the thread --------------------------------------------------------------------------------

    /** One request to add; others may arrive after it. */
    method ServeAdd(chunks: seq<Chunk>, outstanding: bool, ghost rest: seq<seq<Chunk>>, ghost hand: P.Hand)
        returns (ghost steps: seq<P.Action>)
      requires hand.adds == [chunks] + rest && (outstanding <==> rest != [] || hand.deletes != [])
      modifies this`data, this`access, this`index, this`turn, this`high, this`medium, this`pending, this`stop
      ensures P.Reaches(disk, old(View(hand)), steps, View(hand.(adds := rest))) && P.Rounds(steps) == 0
    {
      ghost var first := View(hand);
      assert hand.adds[1..] == rest;
      var _, _ := DoAddChunksBatch(chunks);
      ghost var served := View(hand.(adds := rest));
      ghost var arrived := Arrivals(outstanding, hand.(adds := rest));
      OneThenMore(disk, first, P.ServeAdd, served, arrived, View(hand.(adds := rest)));
      steps := [P.ServeAdd] + arrived;
    }

    method DeleteOne(keys: seq<AccessKey>, ghost rest: seq<seq<AccessKey>>, ghost hand: P.Hand)
      requires hand.adds == [] && hand.deletes == [keys] + rest
      modifies this`data, this`access, this`index, this`turn
      ensures P.Enabled(old(View(hand)), P.ServeDelete)
      ensures View(hand.(deletes := rest)) == P.Next(disk, old(View(hand)), P.ServeDelete)
    {
      assert hand.deletes[1..] == rest;
      var _, _ := DoDeleteKeys(keys);
    }

    /** One request to delete. */
    method ServeDelete(keys: seq<AccessKey>, outstanding: bool, ghost rest: seq<seq<AccessKey>>, ghost hand: P.Hand)
        returns (ghost steps: seq<P.Action>)
      requires hand.adds == [] && hand.deletes == [keys] + rest && (outstanding <==> rest != [])
      modifies this`data, this`access, this`index, this`turn, this`high, this`medium, this`pending, this`stop
      ensures P.Reaches(disk, old(View(hand)), steps, View(hand.(deletes := rest))) && P.Rounds(steps) == 0
    {
      ghost var first := View(hand);
      DeleteOne(keys, rest, hand);
      ghost var served := View(hand.(deletes := rest));
      ghost var arrived := Arrivals(outstanding, hand.(deletes := rest));
      OneThenMore(disk, first, P.ServeDelete, served, arrived, View(hand.(deletes := rest)));
      steps := [P.ServeDelete] + arrived;
    }

    /** `more`: deletions are in hand. */
    method ProcessHigh(requests: seq<seq<Chunk>>, more: bool, ghost hand: P.Hand) returns (ghost steps: seq<P.Action>)
      requires hand.adds == requests && (more <==> hand.deletes != [])
      modifies this`data, this`access, this`index, this`turn, this`high, this`medium, this`pending, this`stop
      ensures P.Reaches(disk, old(View(hand)), steps, View(hand.(adds := []))) && P.Rounds(steps) == 0
    {
      ghost var first := View(hand);
      steps := [];
      var i := 0;
      assert requests[0..] == requests;
      while i < |requests|
        invariant 0 <= i <= |requests|
        invariant P.Reaches(disk, first, steps, View(hand.(adds := requests[i..]))) && P.Rounds(steps) == 0
      {
        ghost var before := View(hand.(adds := requests[i..]));
        assert requests[i..] == [requests[i]] + requests[i + 1..];
        ghost var served :=
          ServeAdd(requests[i], more || i + 1 < |requests|, requests[i + 1..], hand.(adds := requests[i..]));
        i := i + 1;
        Waited(disk, first, steps, before, served, View(hand.(adds := requests[i..])));
        steps := steps + served;
      }
      assert requests[i..] == [];
    }

    method ProcessMedium(requests: seq<seq<AccessKey>>, ghost hand: P.Hand) returns (ghost steps: seq<P.Action>)
      requires hand.adds == [] && hand.deletes == requests
      modifies this`data, this`access, this`index, this`turn, this`high, this`medium, this`pending, this`stop
      ensures P.Reaches(disk, old(View(hand)), steps, View(hand.(deletes := []))) && P.Rounds(steps) == 0
    {
      ghost var first := View(hand);
      steps := [];
      var i := 0;
      assert requests[0..] == requests;
      while i < |requests|
        invariant 0 <= i <= |requests|
        invariant P.Reaches(disk, first, steps, View(hand.(deletes := requests[i..]))) && P.Rounds(steps) == 0
      {
        ghost var before := View(hand.(deletes := requests[i..]));
        assert requests[i..] == [requests[i]] + requests[i + 1..];
        ghost var served :=
            ServeDelete(requests[i], i + 1 < |requests|, requests[i + 1..], hand.(deletes := requests[i..]));
        i := i + 1;
        Waited(disk, first, steps, before, served, View(hand.(deletes := requests[i..])));
        steps := steps + served;
      }
      assert requests[i..] == [];
    }

    /** Serve what is in hand, by priority. */
    method ServeHand(adds: seq<seq<Chunk>>, deletes: seq<seq<AccessKey>>, updates: seq<CheckSum>, now: u64,
                     ghost hand: P.Hand)
        returns (ghost steps: seq<P.Action>, ghost hand': P.Hand)
      requires hand.adds == adds && hand.deletes == deletes && hand.updates == updates && hand.batches == 0
      modifies this`data, this`access, this`index, this`turn, this`high, this`medium, this`pending, this`stop
      ensures P.Reaches(disk, old(View(hand)), steps, View(hand')) && P.Rounds(steps) == 0
      ensures hand'.adds == [] && hand'.deletes == [] && hand'.updates == []
      ensures hand'.serving == hand.serving && hand'.stopping == hand.stopping
    {
      ghost var first := View(hand);
      steps := ProcessHigh(adds, |deletes| > 0, hand);
      ghost var h := hand.(adds := []);
      ghost var before := View(h);
      ghost var more := ProcessMedium(deletes, h);
      h := h.(deletes := []);
      Waited(disk, first, steps, before, more, View(h));
      steps := steps + more;
      before := View(h);
      ghost var tried;
      tried, more, hand' := ProcessAccessUpdates(updates, now, h);
      Waited(disk, first, steps, before, more, View(hand'));
      steps := steps + more;
    }

    /** Take all that is queued. */
    method Drain() returns (adds: seq<seq<Chunk>>, deletes: seq<seq<AccessKey>>, updates: seq<CheckSum>, stopping: bool,
                            ghost steps: seq<P.Action>)
      requires !stopped
      modifies this`high, this`medium, this`pending, this`stop
      ensures stopping == stop && P.Rounds(steps) == 0
      ensures P.Reaches(disk, old(View(P.NOTHING)), steps, View(P.Hand(true, stopping, adds, deletes, updates, 0, 0)))
    {
      ghost var first := View(P.NOTHING);
      steps := Arrivals(false, P.NOTHING);
      ghost var before := View(P.NOTHING);
      adds, deletes, stopping := high, medium, stop;
      updates := Listed(pending);
      high, medium, pending := [], [], {};
      Took(disk, first, steps, before, P.Drain(updates));
      steps := steps + [P.Drain(updates)];
    }

    /** Drain the queues and serve what was in them: one round. */
    method RunOnce(now: u64) returns (ghost steps: seq<P.Action>)
      requires !stopped
      modifies this
      ensures P.Reaches(disk, old(View(P.NOTHING)), steps, View(P.NOTHING)) && P.Rounds(steps) == 1
    {
      ghost var first := View(P.NOTHING);
      var adds, deletes, updates, stopping;
      adds, deletes, updates, stopping, steps := Drain();
      ghost var hand := P.Hand(true, stopping, adds, deletes, updates, 0, 0);
      ghost var before := View(hand);
      ghost var served, last := ServeHand(adds, deletes, updates, now, hand);
      Waited(disk, first, steps, before, served, View(last));
      steps := steps + served;
      before := View(last);
      stopped := stopping;
      Took(disk, first, steps, before, P.EndRound);
      steps := steps + [P.EndRound];
    }

    /** The thread, over the times it reads. What it does is a run of WriterProtocol, a round for each time
        until it stops; so it ends with every stored chunk having an access time, but for the updates
        of the batches whose transactions failed, and without exception if none fails after one that
        commits. */
    method Run(clock: seq<u64>) returns (ghost steps: seq<P.Action>)
      requires P.Init(View(P.NOTHING))
      modifies this
      ensures P.Reaches(disk, old(View(P.NOTHING)), steps, View(P.NOTHING))
      ensures P.Rounds(steps) <= |clock| && (!stopped ==> P.Rounds(steps) == |clock|)
      ensures stopped ==> data.Keys <= access.Keys + P.LostIn(disk, old(View(P.NOTHING)), steps)
      ensures stopped && P.NoRelapseBefore(disk, old(turn), turn) ==> data.Keys <= access.Keys
    {
      ghost var first := View(P.NOTHING);
      steps := [];
      var i := 0;
      while i < |clock| && !stopped
        invariant 0 <= i <= |clock| && P.Rounds(steps) == i
        invariant P.Reaches(disk, first, steps, View(P.NOTHING))
      {
        ghost var before := View(P.NOTHING);
        ghost var round := RunOnce(clock[i]);
        P.ReachesBoth(disk, first, steps, before, round, View(P.NOTHING));
        P.RoundsAdd(steps, round);
        steps := steps + round;
        i := i + 1;
      }
      if stopped {
        P.CleanStop(disk, first, steps, View(P.NOTHING));
        if P.NoRelapseBefore(disk, first.turn, turn) {
          P.CleanStopLosesNothing(disk, first, steps, View(P.NOTHING));
        }
      }
    }
  }

  /** The elements of a hash set, in whatever order it gives them. */
  method Listed(s: set<CheckSum>) returns (r: seq<CheckSum>)
    ensures ToSet(r) == s && |r| == |s|
  {
    r := [];
    var rest := s;
    while rest != {}
      invariant rest <= s && ToSet(r) == s - rest && |r| == |s| - |rest|
      decreases rest
    {
      var x :| x in rest;
      assert ToSet(r + [x]) == ToSet(r) + {x};
      r := r + [x];
      rest := rest - {x};
    }
  }

  // ---- Runs, piece by piece -----------------------------------------------------------------------------------

  lemma Took(disk: Disk, first: P.State, steps: seq<P.Action>, before: P.State, a: P.Action)
    requires P.Reaches(disk, first, steps, before) && P.Enabled(before, a)
    ensures P.Reaches(disk, first, steps + [a], P.Next(disk, before, a))
    ensures P.Rounds(steps + [a]) == P.Rounds(steps) + if a.EndRound? then 1 else 0
  {
    P.ReachesThen(disk, first, steps, before, a);
    assert (steps + [a])[..|steps|] == steps;
  }

  lemma Waited(disk: Disk, first: P.State, steps: seq<P.Action>, before: P.State, more: seq<P.Action>, after: P.State)
    requires P.Reaches(disk, first, steps, before) && P.Reaches(disk, before, more, after)
    ensures P.Reaches(disk, first, steps + more, after)
    ensures P.Rounds(steps + more) == P.Rounds(steps) + P.Rounds(more)
  {
    P.ReachesBoth(disk, first, steps, before, more, after);
    P.RoundsAdd(steps, more);
  }

  lemma OneThenMore(disk: Disk, first: P.State, a: P.Action, next: P.State, more: seq<P.Action>, after: P.State)
    requires P.Enabled(first, a) && next == P.Next(disk, first, a) && !a.EndRound?
    requires P.Reaches(disk, next, more, after) && P.Rounds(more) == 0
    ensures P.Reaches(disk, first, [a] + more, after) && P.Rounds([a] + more) == 0
  {
    Took(disk, first, [], first, a);
    assert [] + [a] == [a];
    Waited(disk, first, [a], next, more, after);
  }

  // ---- The loop over batches of updates --------------------------------------------------------------------------

  /** From `first`, the updates before `offset` have been tried. */
  ghost predicate Progress(disk: Disk, first: P.State, checksums: seq<CheckSum>, offset: nat, now: u64,
                           steps: seq<P.Action>, s: P.State) {
    && offset <= |checksums| && (offset == |checksums| || offset % ACCESS_BATCH_SIZE == 0)
    && s.db == Commits(disk, first.db, checksums[..offset], now, first.turn)
    && s.turn == first.turn + Batches(offset)
    && s.hand.updates == checksums[offset..] && s.hand.adds == [] && s.hand.deletes == []
    && s.hand == first.hand.(updates := s.hand.updates, batches := s.hand.batches, now := s.hand.now)
    && (if offset == 0 then s.hand.batches == 0 else s.hand.batches > 0 && s.hand.now == now)
    && first.pending <= s.pending
    && P.Reaches(disk, first, steps, s) && P.Rounds(steps) == 0
  }

  lemma ProgressStart(disk: Disk, first: P.State, checksums: seq<CheckSum>, now: u64)
    requires first.hand.updates == checksums && first.hand.adds == [] && first.hand.deletes == []
    requires first.hand.batches == 0
    ensures Progress(disk, first, checksums, 0, now, [], first)
  {
    assert checksums[..0] == [] && checksums[0..] == checksums;
  }

  lemma NextBatchIs(checksums: seq<CheckSum>, offset: nat, end: nat, s: P.State)
    requires offset < |checksums| && end == MinOf(offset + ACCESS_BATCH_SIZE, |checksums|)
    requires s.hand.updates == checksums[offset..]
    ensures P.NextBatch(s) == checksums[offset..end] && s.hand.updates[|checksums[offset..end]|..] == checksums[end..]
    ensures checksums[..offset] + checksums[offset..end] == checksums[..end]
  {
  }

  lemma ProgressCommit(disk: Disk, first: P.State, checksums: seq<CheckSum>, offset: nat, end: nat, now: u64,
                       steps: seq<P.Action>, s: P.State)
    requires Progress(disk, first, checksums, offset, now, steps, s) && offset < |checksums|
    requires end == MinOf(offset + ACCESS_BATCH_SIZE, |checksums|)
    requires offset > 0 ==> s.high == [] && s.medium == []
    ensures P.Enabled(s, P.CommitBatch(now)) && P.NextBatch(s) == checksums[offset..end]
    ensures Progress(disk, first, checksums, end, now, steps + [P.CommitBatch(now)],
                     P.Next(disk, s, P.CommitBatch(now)))
  {
    Took(disk, first, steps, s, P.CommitBatch(now));
    NextBatchIs(checksums, offset, end, s);
    CommitsThen(disk, first.db, checksums[..offset], checksums[offset..end], now, first.turn);
  }

  lemma ProgressArrive(disk: Disk, first: P.State, checksums: seq<CheckSum>, offset: nat, now: u64,
                       steps: seq<P.Action>, s: P.State, more: seq<P.Action>, s': P.State)
    requires Progress(disk, first, checksums, offset, now, steps, s) && P.Reaches(disk, s, more, s')
              && P.Rounds(more) == 0
    requires s'.db == s.db && s'.turn == s.turn && s'.hand == s.hand && s.pending <= s'.pending
    ensures Progress(disk, first, checksums, offset, now, steps + more, s')
  {
    Waited(disk, first, steps, s, more, s');
  }

  lemma ProgressRequeue(disk: Disk, first: P.State, checksums: seq<CheckSum>, offset: nat, now: u64,
                        steps: seq<P.Action>, s: P.State)
    requires Progress(disk, first, checksums, offset, now, steps, s) && 0 < offset < |checksums|
    requires s.high != [] || s.medium != []
    ensures P.Enabled(s, P.Requeue)
    ensures P.Reaches(disk, first, steps + [P.Requeue], P.Next(disk, s, P.Requeue))
              && P.Rounds(steps + [P.Requeue]) == 0
  {
    Took(disk, first, steps, s, P.Requeue);
  }

  // ---- The loop over sub-batches ---------------------------------------------------------------------------

  /** With `i` chunks added, what is still to do leads to the goal. */
  ghost predicate Remains(disk: Disk, db: Db, chunks: seq<Chunk>, i: int, turn: nat, goal: AddResult) {
    0 <= i <= |chunks| && var rest := AddAll(disk, db, chunks[i..], turn); goal == rest.(done := i + rest.done)
  }

  lemma NoneAdded(disk: Disk, db: Db, chunks: seq<Chunk>, turn: nat)
    ensures Remains(disk, db, chunks, 0, turn, AddAll(disk, db, chunks, turn))
    ensures SumsOfChunks(chunks[..0]) == {}
  {
    assert chunks[0..] == chunks;
  }

  lemma OneSubBatch(disk: Disk, db: Db, chunks: seq<Chunk>, i: nat, end: nat, turn: nat, goal: AddResult)
    requires Remains(disk, db, chunks, i, turn, goal) && i < |chunks|
    requires end == if i + ADD_CHUNKS_BATCH_SIZE <= |chunks| then i + ADD_CHUNKS_BATCH_SIZE else |chunks|
    ensures var r := AddSub(disk, db, chunks[i..end], turn);
            if r.outcome.Done? then Remains(disk, r.db, chunks, end, r.turn, goal) else goal == r.(done := i)
  {
    SuffixParts(chunks, i, end);
    AddAllUnfolds(disk, db, chunks[i..], turn, end - i);
  }

  lemma SuffixParts(chunks: seq<Chunk>, i: nat, end: nat)
    requires i <= end <= |chunks|
    ensures chunks[i..][..end - i] == chunks[i..end] && chunks[i..][end - i..] == chunks[end..]
  {
  }

  lemma AllAdded(disk: Disk, db: Db, chunks: seq<Chunk>, turn: nat, goal: AddResult)
    requires Remains(disk, db, chunks, |chunks|, turn, goal)
    ensures goal == AddResult(Done, db, turn, |chunks|)
  {
  }
}
