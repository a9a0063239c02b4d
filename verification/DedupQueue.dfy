/** The queue of the dedup worker under concurrency: any number of readers go through the chunks they
    have read, each chunk being tested, sent and marked in three atomic steps. */
module DedupQueue {
  import opened Basics

  const REQUEST_BUF_SIZE: nat := 256

  type Tid = nat

  /** Where a reader is within `try_dedup_chunk`: at chunk `idx` of those up to `last`. */
  datatype Pc = Idle | Testing(idx: nat, last: nat) | Sending(idx: nat, last: nat) | Marking(idx: nat, last: nat)

  /** Who has queued which chunk. */
  datatype Sent = Sent(who: Tid, idx: nat)

  /** `sent` is a history variable: all that has ever been queued; `waiting` is how many requests the
      worker has not taken yet. */
  datatype State = State(marked: set<nat>, waiting: nat, sent: multiset<Sent>, pc: map<Tid, Pc>)

  datatype Action =
    | Begin(first: nat, last: nat)
    | Test
    | Send
    | SendFails        // the queue is full
    | Mark
    | Take             // by the worker

  predicate Enabled(s: State, t: Tid, a: Action) {
    t in s.pc && var p := s.pc[t];
    match a
    case Begin(first, last) => p.Idle? && first <= last
    case Test => p.Testing?
    case Send => p.Sending? && s.waiting < REQUEST_BUF_SIZE
    case SendFails => p.Sending? && s.waiting == REQUEST_BUF_SIZE
    case Mark => p.Marking?
    case Take => s.waiting > 0
  }

  /** On to the next chunk. */
  function After(p: Pc): Pc
    requires !p.Idle?
  {
    if p.idx < p.last then Testing(p.idx + 1, p.last) else Idle
  }

  function Next(s: State, t: Tid, a: Action): State
    requires Enabled(s, t, a)
  {
    var p := s.pc[t];
    match a
    case Begin(first, last) => s.(pc := s.pc[t := Testing(first, last)])
    case Test => s.(pc := s.pc[t := if p.idx in s.marked then After(p) else Sending(p.idx, p.last)])
    case Send =>
      s.(waiting := s.waiting + 1, sent := s.sent + multiset{Sent(t, p.idx)}, pc := s.pc[t := Marking(p.idx, p.last)])
    case SendFails => s.(pc := s.pc[t := After(p)])
    case Mark => s.(marked := s.marked + {p.idx}, pc := s.pc[t := After(p)])
    case Take => s.(waiting := s.waiting - 1)
  }

  datatype Step = Step(t: Tid, a: Action)

  predicate Reaches(s: State, steps: seq<Step>, s': State)
    decreases |steps|
  {
    if steps == [] then s' == s
    else Enabled(s, steps[0].t, steps[0].a) && Reaches(Next(s, steps[0].t, steps[0].a), steps[1..], s')
  }

  predicate Init(s: State) {
    s.marked == {} && s.waiting == 0 && s.sent == multiset{} && forall t :: t in s.pc ==> s.pc[t].Idle?
  }

  /** What a reader has queued is marked, or it is about to mark it; and so it does not queue it again. */
  ghost predicate Inv(s: State) {
    && s.waiting <= REQUEST_BUF_SIZE
    && (forall x :: x in s.sent ==> s.sent[x] == 1 && x.who in s.pc
                                    && (x.idx in s.marked || (s.pc[x.who].Marking? && s.pc[x.who].idx == x.idx)))
    && (forall t :: t in s.pc && s.pc[t].Sending? ==> Sent(t, s.pc[t].idx) !in s.sent)
  }

  /** Only what has been queued is marked. */
  ghost predicate MarksOk(s: State) {
    && (forall t :: t in s.pc && s.pc[t].Marking? ==> Sent(t, s.pc[t].idx) in s.sent)
    && (forall idx :: idx in s.marked ==> Queued(s, idx))
  }

  ghost predicate Queued(s: State, idx: nat) {
    exists t :: Sent(t, idx) in s.sent
  }

  lemma StepKeepsMarks(s: State, t: Tid, a: Action)
    requires MarksOk(s) && Enabled(s, t, a)
    ensures MarksOk(Next(s, t, a))
  {
    var s' := Next(s, t, a);
    forall idx | idx in s'.marked ensures Queued(s', idx) {
      if idx in s.marked {
        var u :| Sent(u, idx) in s.sent;
        assert Sent(u, idx) in s'.sent;
      } else {
        assert Sent(t, idx) in s'.sent;
      }
    }
  }

  lemma {:induction false} RunKeepsMarks(s: State, steps: seq<Step>, s': State)
    requires MarksOk(s) && Reaches(s, steps, s')
    ensures MarksOk(s')
    decreases |steps|
  {
    if steps != [] {
      StepKeepsMarks(s, steps[0].t, steps[0].a);
      RunKeepsMarks(Next(s, steps[0].t, steps[0].a), steps[1..], s');
    }
  }

  lemma StepKeepsInv(s: State, t: Tid, a: Action)
    requires Inv(s) && Enabled(s, t, a)
    ensures Inv(Next(s, t, a))
  {
  }

  lemma {:induction false} RunKeepsInv(s: State, steps: seq<Step>, s': State)
    requires Inv(s) && Reaches(s, steps, s')
    ensures Inv(s')
    decreases |steps|
  {
    if steps != [] {
      StepKeepsInv(s, steps[0].t, steps[0].a);
      RunKeepsInv(Next(s, steps[0].t, steps[0].a), steps[1..], s');
    }
  }

  /** Over every run, and however often it reads a chunk, a reader queues it at most once. */
  lemma OncePerReader(s: State, steps: seq<Step>, s': State, t: Tid, idx: nat)
    requires Init(s) && Reaches(s, steps, s')
    ensures s'.sent[Sent(t, idx)] <= 1 && s'.waiting <= REQUEST_BUF_SIZE
  {
    RunKeepsInv(s, steps, s');
  }

  /** A chunk is marked only if some reader has queued it; and a reader goes on from a chunk only if that is
      marked, or the queue is full. */
  lemma MarkedIsQueued(s: State, steps: seq<Step>, s': State, idx: nat)
    requires Init(s) && Reaches(s, steps, s') && idx in s'.marked
    ensures exists t :: Sent(t, idx) in s'.sent
  {
    RunKeepsMarks(s, steps, s');
    assert Queued(s', idx);
  }

  lemma GoesOnIf(s: State, t: Tid, a: Action)
    requires Enabled(s, t, a) && !s.pc[t].Idle?
    ensures var p, p', marked := s.pc[t], Next(s, t, a).pc[t], Next(s, t, a).marked;
            && (p'.Idle? || p'.idx != p.idx ==> p.idx in marked || s.waiting == REQUEST_BUF_SIZE)
            && (p'.Idle? ==> p.idx >= p.last)
            && (!p'.Idle? ==> p'.last == p.last && p.idx <= p'.idx <= p.idx + 1)
  {
  }

  /** A reader has tested chunk `idx` and is about to queue it. */
  predicate AboutToSend(s: State, t: Tid, idx: nat) {
    t in s.pc && s.pc[t].Sending? && s.pc[t].idx == idx
  }

  /** In some run from here the chunk is queued. */
  ghost predicate CanBeQueued(s: State, idx: nat) {
    exists steps, s', t :: Reaches(s, steps, s') && AboutToSend(s', t, idx) && s'.waiting < REQUEST_BUF_SIZE
  }

  lemma {:induction false} NoneComesToSend(s: State, steps: seq<Step>, s': State, t: Tid, idx: nat)
    requires idx in s.marked && Reaches(s, steps, s') && AboutToSend(s', t, idx)
    ensures AboutToSend(s, t, idx)
    decreases |steps|
  {
    if steps != [] {
      NoneComesToSend(Next(s, steps[0].t, steps[0].a), steps[1..], s', t, idx);
    }
  }

  /** A chunk that is marked is queued once more exactly if some reader tested it before it was marked
      and has not sent it yet. */
  lemma QueuedAgainIff(s: State, idx: nat)
    requires Inv(s) && idx in s.marked
    ensures CanBeQueued(s, idx) <==> exists t :: AboutToSend(s, t, idx)
  {
    if CanBeQueued(s, idx) {
      var steps, s', t :| Reaches(s, steps, s') && AboutToSend(s', t, idx) && s'.waiting < REQUEST_BUF_SIZE;
      NoneComesToSend(s, steps, s', t, idx);
    }
    if t :| AboutToSend(s, t, idx) {
      if s.waiting < REQUEST_BUF_SIZE {
        assert Reaches(s, [], s);
      } else {
        var s' := Next(s, t, Take);
        assert [Step(t, Take)][1..] == [];
        assert Reaches(s, [Step(t, Take)], s') && AboutToSend(s', t, idx);
      }
    }
  }

  /** It happens: two readers test before either marks. */
  lemma QueuedTwice() returns (steps: seq<Step>, s: State)
    ensures var s0 := State({}, 0, multiset{}, map[1 := Idle, 2 := Idle]);
            Init(s0) && Reaches(s0, steps, s) && s.sent == multiset{Sent(1, 0), Sent(2, 0)}
  {
    var s0 := State({}, 0, multiset{}, map[1 := Idle, 2 := Idle]);
    steps, s := [], s0;
    steps, s := Then(s0, steps, s, 1, Begin(0, 0));
    steps, s := Then(s0, steps, s, 1, Test);
    steps, s := Then(s0, steps, s, 2, Begin(0, 0));
    steps, s := Then(s0, steps, s, 2, Test);
    steps, s := Then(s0, steps, s, 1, Send);
    steps, s := Then(s0, steps, s, 2, Send);
  }

  lemma {:induction false} Then(s0: State, steps: seq<Step>, s: State, t: Tid, a: Action)
    returns (steps': seq<Step>, s': State)
    requires Reaches(s0, steps, s) && Enabled(s, t, a)
    ensures Reaches(s0, steps', s') && s' == Next(s, t, a)
    decreases |steps|
  {
    s' := Next(s, t, a);
    if steps == [] {
      steps' := [Step(t, a)];
      assert steps'[1..] == [];
    } else {
      var rest;
      rest, s' := Then(Next(s0, steps[0].t, steps[0].a), steps[1..], s, t, a);
      steps' := [steps[0]] + rest;
      assert steps'[1..] == rest;
    }
  }
}
