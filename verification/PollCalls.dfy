/** A whole call of push or pop that does not wait is a run of the lock-free ring's machine in which one thread moves
    alone and loads the newest indices: header, bytes and return value are those of the call. */
module PollCalls {
  import opened Bytes
  import opened Cells
  import opened Fifos
  import opened PollMachine
  import opened PollTheorems
  import QueueOps

  /** Header and message array of a state. */
  function View(c: Config, s: State): (r: QueueOps.Ring)
    requires s.heads != [] && s.tails != []
  {
    QueueOps.Ring(c, s.heads[|s.heads| - 1], s.tails[|s.tails| - 1], s.offset, s.region)
  }

  predicate ProducerAction(a: Action) {
    a.PushCall? || a.LoadOwnHead? || a.LoadTail? || a.CopyIn? || a.StoreHead?
  }

  predicate Of(acts: seq<Action>, producer: bool) {
    forall k :: 0 <= k < |acts| ==> ProducerAction(acts[k]) == producer && !acts[k].RaiseStop?
  }

  /** One thread alone gets from s to t. */
  ghost predicate Runs(c: Config, s: State, t: State, producer: bool) {
    exists acts :: Of(acts, producer) && Reaches(c, s, acts, t)
  }

  lemma {:induction false} ReachesThen(c: Config, s: State, acts: seq<Action>, t: State, a: Action)
    requires Reaches(c, s, acts, t) && Enabled(c, t, a) && InBounds(c, t, a)
    ensures Reaches(c, s, acts + [a], Step(c, t, a))
    decreases |acts|
  {
    hide Step, Enabled, InBounds;
    if acts == [] {
      assert [a][1..] == [];
    } else {
      ReachesThen(c, Step(c, s, acts[0]), acts[1..], t, a);
      assert (acts + [a])[1..] == acts[1..] + [a];
    }
  }

  /** One more step of the thread. */
  lemma {:induction false} Then(c: Config, init: Bytes, s0: State, s: State, a: Action) returns (t: State)
    requires Runs(c, s0, s, ProducerAction(a)) && Inv(c, init, s) && Enabled(c, s, a) && !a.RaiseStop?
    ensures InBounds(c, s, a) && t == Step(c, s, a) && Runs(c, s0, t, ProducerAction(a)) && Inv(c, init, t)
  {
    hide Inv, Reaches, Step, Enabled, InBounds;
    StepInv(c, init, s, a);
    t := Step(c, s, a);
    var acts :| Of(acts, ProducerAction(a)) && Reaches(c, s0, acts, s);
    ReachesThen(c, s0, acts, s, a);
  }

  lemma {:induction false} Here(c: Config, s: State, producer: bool)
    ensures Runs(c, s, s, producer)
  {
    assert Of([], producer) && Reaches(c, s, [], s);
  }

  /** The newest indices are those of the records pushed and finished. */
  lemma {:induction false} ViewIs(c: Config, init: Bytes, s: State)
    requires Inv(c, init, s)
    ensures s.heads != [] && s.tails != [] && s.headSeen < |s.heads| && s.tailSeen < |s.tails|
    ensures View(c, s).head == Slot(|s.bufs|, c.queueSize) && View(c, s).tail == Slot(s.popped, c.queueSize)
    ensures 0 <= |s.bufs| - s.popped <= c.queueSize - 1
  {
    hide Holds, Records, ReadSoFar, Slot;
    SlotsAt(c, UpTo(|s.bufs|), |s.bufs|);
    SlotsAt(c, s.tailCounts, |s.tails| - 1);
    assert s.tailCounts[s.tailSeen] <= s.popped;
  }

  lemma {:induction false} ViewValid(c: Config, init: Bytes, s: State)
    requires Inv(c, init, s)
    ensures s.heads != [] && s.tails != [] && QueueOps.ValidRing(View(c, s))
    ensures Wrap(View(c, s).head, c.queueSize) == View(c, s).tail <==> |s.bufs| - s.popped == c.queueSize - 1
    ensures View(c, s).head == View(c, s).tail <==> |s.bufs| == s.popped
    ensures !s.producer.Idle? ==> |s.producer.buf| <= c.messageSize
  {
    hide Holds, Records, ReadSoFar;
    ViewIs(c, init, s);
    if s.popped < |s.bufs| {
      SlotsDiffer(s.popped, |s.bufs|, c.queueSize);
    }
    if |s.bufs| - s.popped == c.queueSize - 1 {
      SlotLap(s.popped, c.queueSize);
    } else {
      SlotsDiffer(s.popped, |s.bufs| + 1, c.queueSize);
    }
  }

  // ---------------------------------------------------------------------------------------
  // push
  // ---------------------------------------------------------------------------------------

  lemma {:induction false} SpliceOn(region: Bytes, at: nat, buf: Bytes, done: nat)
    requires done < |buf| && at + |buf| <= |region|
    ensures QueueOps.Splice(region[at + done := buf[done]], at + done + 1, buf[done + 1..]) ==
            QueueOps.Splice(region, at + done, buf[done..])
  {
    assert buf[done..] == [buf[done]] + buf[done + 1..];
  }

  lemma {:induction false} SpliceNothing(region: Bytes, at: nat)
    requires at <= |region|
    ensures QueueOps.Splice(region, at, []) == region
  {
  }

  /** The copy loop. */
  lemma {:induction false} CopiesIn(c: Config, init: Bytes, s0: State, s: State) returns (t: State)
    requires Runs(c, s0, s, true) && Inv(c, init, s) && s.producer.Copying? && s.producer.done <= |s.producer.buf|
    requires CellStart(c, s.producer.head) + |s.producer.buf| <= |s.region|
    ensures Runs(c, s0, t, true) && Inv(c, init, t)
    ensures
      var p := s.producer;
      t == s.(region := QueueOps.Splice(s.region, CellStart(c, p.head) + p.done, p.buf[p.done..]),
              producer := Copying(p.buf, p.head, p.next, |p.buf|))
    decreases |s.producer.buf| - s.producer.done
  {
    hide Inv, Runs, QueueOps.Splice, CellStart;
    var p, at := s.producer, CellStart(c, s.producer.head);
    if p.done == |p.buf| {
      SpliceNothing(s.region, at + p.done);
      assert p.buf[p.done..] == [];
      t := s;
    } else {
      t := Then(c, init, s0, s, CopyIn);
      t := CopiesIn(c, init, s0, t);
      SpliceOn(s.region, at, p.buf, p.done);
    }
  }

  /** The producer finds room with the newest tail. */
  lemma {:induction false} FindsRoom(c: Config, init: Bytes, s: State, buf: Bytes) returns (t: State)
    requires Inv(c, init, s) && s.producer.Idle? && |buf| <= c.messageSize && s.heads != [] && s.tails != []
    requires s.tailSeen < |s.tails| && Wrap(View(c, s).head, c.queueSize) != View(c, s).tail
    ensures Runs(c, s, t, true) && Inv(c, init, t)
    ensures
      var head := View(c, s).head;
      t == s.(tailSeen := |s.tails| - 1, producer := Copying(buf, head, Wrap(head, c.queueSize), 0))
  {
    hide Inv, Runs;
    Here(c, s, true);
    t := Then(c, init, s, s, PushCall(buf));
    t := Then(c, init, s, t, LoadOwnHead);
    t := Then(c, init, s, t, LoadTail(|s.tails| - 1));
  }

  /** From every state the machine can be in, whatever the consumer is doing: the producer, moving alone, gets through
      push, and leaves what the whole call leaves. */
  lemma {:induction false} PushRuns(c: Config, init: Bytes, s: State, buf: Bytes) returns (t: State)
    requires Inv(c, init, s) && s.producer.Idle?
    requires |buf| <= c.messageSize ==> |s.bufs| - s.popped < c.queueSize - 1
    ensures Runs(c, s, t, true) && Inv(c, init, t) && t.producer.Idle? && t.consumer == s.consumer
    ensures s.heads != [] && s.tails != [] && t.heads != [] && t.tails != []
    ensures QueueOps.ValidRing(View(c, s)) && QueueOps.PollReady(View(c, s), QueueOps.Push(buf))
    ensures
      var (r, reply) := QueueOps.PollPush(View(c, s), buf);
      && View(c, t) == r && t.pushes == s.pushes + [reply.ret]
      && t.bufs == if reply.ret == 0 then s.bufs + [buf] else s.bufs
  {
    hide Inv, Runs, QueueOps.Splice, CellStart;
    ViewIs(c, init, s);
    ViewValid(c, init, s);
    if |buf| > c.messageSize {
      Here(c, s, true);
      t := Then(c, init, s, s, PushCall(buf));
    } else {
      CellsApart(c, View(c, s).head, c.queueSize);
      t := FindsRoom(c, init, s, buf);
      t := CopiesIn(c, init, s, t);
      assert buf[0..] == buf;
      t := Then(c, init, s, t, StoreHead);
    }
  }

  // ---------------------------------------------------------------------------------------
  // pop
  // ---------------------------------------------------------------------------------------

  lemma {:induction false} SliceOn(region: Bytes, at: nat, k: nat)
    requires at + k < |region|
    ensures region[at..at + k] + [region[at + k]] == region[at..at + k + 1]
  {
  }

  lemma {:induction false} CopiesOut(c: Config, init: Bytes, s0: State, s: State) returns (t: State)
    requires Runs(c, s0, s, false) && Inv(c, init, s) && s.consumer.Reading? && |s.consumer.out| <= s.consumer.size
    requires
      var at := CellStart(c, s.consumer.tail) + s.offset;
      at + s.consumer.size <= |s.region| && s.consumer.out == s.region[at..at + |s.consumer.out|]
    ensures Runs(c, s0, t, false) && Inv(c, init, t)
    ensures
      var at, q := CellStart(c, s.consumer.tail) + s.offset, s.consumer;
      t == s.(consumer := Reading(q.size, q.tail, q.next, s.region[at..at + q.size]))
    decreases s.consumer.size - |s.consumer.out|
  {
    hide Inv, Runs, CellStart;
    t := s;
    if |s.consumer.out| < s.consumer.size {
      SliceOn(s.region, CellStart(c, s.consumer.tail) + s.offset, |s.consumer.out|);
      t := Then(c, init, s0, s, CopyOut);
      t := CopiesOut(c, init, s0, t);
    }
  }

  /** The consumer finds a record with the newest head. */
  lemma {:induction false} FindsRecord(c: Config, init: Bytes, s: State, size: nat) returns (t: State)
    requires Inv(c, init, s) && s.consumer.Idle? && !s.stop && s.offset <= c.messageSize
    requires s.heads != [] && s.tails != []
    requires s.headSeen < |s.heads| && View(c, s).head != View(c, s).tail
    ensures Runs(c, s, t, false) && Inv(c, init, t)
    ensures
      var tail := View(c, s).tail;
      t == s.(asked := size, headSeen := |s.heads| - 1,
              consumer := Reading(Clamp(c.messageSize, s.offset, size), tail, Wrap(tail, c.queueSize), []))
  {
    hide Inv, Runs;
    Here(c, s, false);
    t := Then(c, init, s, s, PopCall(size));
    t := Then(c, init, s, t, TestStop);
    t := Then(c, init, s, t, LoadOwnTail);
    t := Then(c, init, s, t, LoadHead(|s.heads| - 1));
  }

  lemma {:induction false} Returns(c: Config, init: Bytes, s0: State, s: State) returns (t: State)
    requires Runs(c, s0, s, false) && Inv(c, init, s) && s.consumer.Reading? && |s.consumer.out| == s.consumer.size
    requires s.tails != []
    ensures Runs(c, s0, t, false) && Inv(c, init, t) && t.consumer.Idle? && t.producer == s.producer
    ensures t.heads == s.heads && t.region == s.region && t.delivered == s.delivered + s.consumer.out
    ensures
      var offset, q := s.offset + s.consumer.size, s.consumer;
      if offset == c.messageSize then
        t.tails == s.tails + [q.next] && t.offset == 0 && t.pops == s.pops + [0] && t.popped == s.popped + 1
      else
        t.tails == s.tails + [q.tail] && t.offset == offset && t.pops == s.pops + [offset] && t.popped == s.popped
  {
    hide Inv, Runs;
    t := Then(c, init, s0, s, AdvanceOffset);
    t := Then(c, init, s0, t, StoreTail);
  }

  /** The same for the consumer and pop, whatever the producer is doing. */
  lemma {:induction false} PopRuns(c: Config, init: Bytes, s: State, size: nat) returns (t: State)
    requires Inv(c, init, s) && s.consumer.Idle? && (!s.stop ==> s.popped < |s.bufs|)
    ensures Runs(c, s, t, false) && Inv(c, init, t) && t.consumer.Idle? && t.producer == s.producer
    ensures s.heads != [] && s.tails != [] && t.heads != [] && t.tails != []
    ensures QueueOps.ValidRing(View(c, s)) && (!s.stop ==> QueueOps.PollReady(View(c, s), QueueOps.Pop(size)))
    ensures
      var (r, reply) := QueueOps.PollPop(View(c, s), s.stop, size);
      View(c, t) == r && t.pops == s.pops + [reply.ret] && t.delivered == s.delivered + reply.bytes
  {
    hide Inv, Runs, CellStart;
    ViewIs(c, init, s);
    ViewValid(c, init, s);
    if s.stop {
      Here(c, s, false);
      t := Then(c, init, s, s, PopCall(size));
      t := Then(c, init, s, t, TestStop);
    } else {
      CellsApart(c, View(c, s).tail, c.queueSize);
      t := FindsRecord(c, init, s, size);
      t := CopiesOut(c, init, s, t);
      t := Returns(c, init, s, t);
    }
  }
}
