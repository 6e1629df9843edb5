/** A whole call of sem_push or sem_pop that does not wait is a run of the ring's machine in which one thread moves
    alone: header, bytes, counters, semaphores and return value are those of the call. */
module SemCalls {
  import opened Bytes
  import opened Cells
  import opened Fifos
  import opened SemMachine
  import opened SemTheorems
  import opened QueueOps

  /** Header, message array and semaphores of a state. */
  function View(c: Config, s: State): (r: SemRing) {
    SemRing(Ring(c, s.head, s.tail, s.offset, s.region), s.currentCount, s.totalCount, s.lock, s.full, s.empty)
  }

  /** All actions are the producer's, or all are the consumer's. */
  predicate Of(acts: seq<Action>, producer: bool) {
    forall k :: 0 <= k < |acts| ==> ProducerAction(acts[k]) == producer && !acts[k].RaiseStop?
  }

  /** One thread alone gets from s to t. */
  ghost predicate Runs(c: Config, s: State, t: State, producer: bool) {
    exists acts :: Of(acts, producer) && Reaches(c, s, acts, t)
  }

  lemma {:induction false} ReachesThen(c: Config, s: State, acts: seq<Action>, t: State, a: Action)
    requires ValidConfig(c) && Reaches(c, s, acts, t) && Enabled(c, t, a) && InBounds(c, t, a)
    ensures Reaches(c, s, acts + [a], Step(c, t, a))
    decreases |acts|
  {
    hide Step, Enabled, InBounds;
    if acts == [] {
      assert [a][1..] == [];
    } else {
      ReachesThen(c, Step(c, s, acts[0]), acts[1..], t, a);
      assert (acts + [a])[1..] == acts[1..] + [a];
    }
  }

  /** One more step of the thread. */
  lemma {:induction false} Then(c: Config, init: Bytes, s0: State, s: State, a: Action) returns (t: State)
    requires Runs(c, s0, s, ProducerAction(a)) && Inv(c, init, s) && Enabled(c, s, a) && !a.RaiseStop?
    ensures InBounds(c, s, a) && t == Step(c, s, a) && Runs(c, s0, t, ProducerAction(a)) && Inv(c, init, t)
  {
    hide Inv, Reaches, Step, Enabled, InBounds;
    StepInv(c, init, s, a);
    t := Step(c, s, a);
    var acts :| Of(acts, ProducerAction(a)) && Reaches(c, s0, acts, s);
    ReachesThen(c, s0, acts, s, a);
  }

  lemma {:induction false} Here(c: Config, s: State, producer: bool)
    ensures Runs(c, s, s, producer)
  {
    assert Of([], producer) && Reaches(c, s, [], s);
  }

  /** What the machine's invariant says about the ring between calls. */
  lemma {:induction false} ViewValid(c: Config, init: Bytes, s: State)
    requires Inv(c, init, s) && s.lock > 0
    ensures ValidSemRing(View(c, s)) && s.lock == 1
    ensures !ProducerHolds(s.producer) && !ConsumerHolds(s.consumer)
    ensures IsFull(c, s) <==> RingFull(View(c, s).ring)
    ensures Length(View(c, s).ring) == |s.bufs| - s.popped
  {
    hide Holds, Records, ReadSoFar, Slot;
    Tests(c, init, s);
    IndexesApart(s.popped, |s.bufs|, c.queueSize);
  }

  lemma {:induction false} IndexesApart(a: nat, b: nat, m: nat)
    requires m >= 1 && a <= b < a + m
    ensures Slot(a, m) < m && Slot(b, m) < m
    ensures b - a == if Slot(a, m) <= Slot(b, m) then Slot(b, m) - Slot(a, m) else Slot(b, m) + m - Slot(a, m)
  {
    SlotAhead(a, b - a, m);
  }

  // ---------------------------------------------------------------------------------------
  // sem_push
  // ---------------------------------------------------------------------------------------

  lemma {:induction false} SpliceOn(region: Bytes, at: nat, buf: Bytes, done: nat)
    requires done < |buf| && at + |buf| <= |region|
    ensures Splice(region[at + done := buf[done]], at + done + 1, buf[done + 1..]) ==
            Splice(region, at + done, buf[done..])
  {
    assert buf[done..] == [buf[done]] + buf[done + 1..];
  }

  lemma {:induction false} SpliceNothing(region: Bytes, at: nat)
    requires at <= |region|
    ensures Splice(region, at, []) == region
  {
  }

  /** The copy loop. */
  lemma {:induction false} CopiesIn(c: Config, init: Bytes, s0: State, s: State) returns (t: State)
    requires Runs(c, s0, s, true) && Inv(c, init, s) && s.producer.Copying? && s.producer.done <= |s.producer.buf|
    requires CellStart(c, s.head) + |s.producer.buf| <= |s.region|
    ensures Runs(c, s0, t, true) && Inv(c, init, t)
    ensures
      var p := s.producer;
      t == s.(region := Splice(s.region, CellStart(c, s.head) + p.done, p.buf[p.done..]),
              producer := Copying(p.buf, p.wasEmpty, p.waited, |p.buf|))
    decreases |s.producer.buf| - s.producer.done
  {
    hide Inv, Runs, Splice, CellStart;
    var p, at := s.producer, CellStart(c, s.head);
    if p.done == |p.buf| {
      SpliceNothing(s.region, at + p.done);
      assert p.buf[p.done..] == [];
      t := s;
    } else {
      t := Then(c, init, s0, s, CopyIn);
      t := CopiesIn(c, init, s0, t);
      SpliceOn(s.region, at, p.buf, p.done);
    }
  }

  /** The producer gets the lock and finds room. */
  lemma {:induction false} FindsRoom(c: Config, init: Bytes, s: State, buf: Bytes) returns (t: State)
    requires Inv(c, init, s) && s.producer.Idle? && s.lock > 0 && |buf| <= c.messageSize && !IsFull(c, s)
    ensures Runs(c, s, t, true) && Inv(c, init, t)
    ensures t == s.(lock := s.lock - 1, producer := Copying(buf, IsEmpty(s), false, 0))
  {
    hide Inv, Runs, Succ;
    Here(c, s, true);
    t := Then(c, init, s, s, PushCall(buf));
    t := Then(c, init, s, t, LockP);
    t := Then(c, init, s, t, SampleEmpty);
    t := Then(c, init, s, t, TestFull);
  }

  /** It publishes its record and returns. */
  lemma {:induction false} Returns(c: Config, init: Bytes, s0: State, s: State) returns (t: State)
    requires Runs(c, s0, s, true) && Inv(c, init, s) && s.producer.Copying? && s.producer.done == |s.producer.buf|
    ensures Runs(c, s0, t, true) && Inv(c, init, t)
    ensures t == s.(currentCount := s.currentCount + 1, totalCount := s.totalCount + 1,
                    head := Succ(s.head, c.queueSize), bufs := s.bufs + [s.producer.buf], lock := s.lock + 1,
                    empty := if s.producer.wasEmpty then s.empty + 1 else s.empty,
                    pushes := s.pushes + [0], producer := Producer.Idle)
  {
    hide Inv, Runs, Succ;
    t := Then(c, init, s0, s, Count);
    t := Then(c, init, s0, t, StoreHead);
    t := Then(c, init, s0, t, UnlockP);
    t := Then(c, init, s0, t, PostEmpty);
  }

  /** From every state the machine can be in, whatever the consumer is doing outside the lock: the producer, moving
      alone, gets through sem_push, and leaves what the whole call leaves. */
  lemma {:induction false} PushRuns(c: Config, init: Bytes, s: State, buf: Bytes) returns (t: State)
    requires Inv(c, init, s) && s.producer.Idle? && s.lock > 0 && (|buf| <= c.messageSize ==> !IsFull(c, s))
    ensures Runs(c, s, t, true) && Inv(c, init, t) && t.producer.Idle? && t.consumer == s.consumer
    ensures ValidSemRing(View(c, s)) && SemReady(View(c, s), Push(buf))
    ensures View(c, t) == SemPush(View(c, s), buf).0 && t.pushes == s.pushes + [SemPush(View(c, s), buf).1.ret]
    ensures t.bufs == if SemPush(View(c, s), buf).1.ret == 0 then s.bufs + [buf] else s.bufs
  {
    hide Inv, Runs, Splice, Succ, CellStart;
    ViewValid(c, init, s);
    if |buf| > c.messageSize {
      Here(c, s, true);
      t := Then(c, init, s, s, PushCall(buf));
    } else {
      CellsApart(c, s.head, c.queueSize);
      t := FindsRoom(c, init, s, buf);
      t := CopiesIn(c, init, s, t);
      assert buf[0..] == buf;
      t := Returns(c, init, s, t);
    }
  }

  // ---------------------------------------------------------------------------------------
  // sem_pop
  // ---------------------------------------------------------------------------------------

  lemma {:induction false} SliceOn(region: Bytes, at: nat, k: nat)
    requires at + k < |region|
    ensures region[at..at + k] + [region[at + k]] == region[at..at + k + 1]
  {
  }

  lemma {:induction false} CopiesOut(c: Config, init: Bytes, s0: State, s: State) returns (t: State)
    requires Runs(c, s0, s, false) && Inv(c, init, s) && s.consumer.Reading?
    requires |s.consumer.out| <= s.consumer.size && CellStart(c, s.tail) + s.offset + s.consumer.size <= |s.region|
    requires
      var at := CellStart(c, s.tail) + s.offset;
      s.consumer.out == s.region[at..at + |s.consumer.out|]
    ensures Runs(c, s0, t, false) && Inv(c, init, t)
    ensures
      var at, q := CellStart(c, s.tail) + s.offset, s.consumer;
      t == s.(consumer := Reading(q.size, q.wasFull, q.waited, s.region[at..at + q.size]))
    decreases s.consumer.size - |s.consumer.out|
  {
    hide Inv, Runs, CellStart, Step, Enabled;
    t := s;
    if |s.consumer.out| < s.consumer.size {
      SliceOn(s.region, CellStart(c, s.tail) + s.offset, |s.consumer.out|);
      t := CopiesOne(c, init, s0, s);
      t := CopiesOut(c, init, s0, t);
    }
  }

  lemma {:induction false} CopiesOne(c: Config, init: Bytes, s0: State, s: State) returns (t: State)
    requires Runs(c, s0, s, false) && Inv(c, init, s) && s.consumer.Reading? && |s.consumer.out| < s.consumer.size
    requires CellStart(c, s.tail) + s.offset + |s.consumer.out| < |s.region|
    ensures Runs(c, s0, t, false) && Inv(c, init, t)
    ensures
      var at, q := CellStart(c, s.tail) + s.offset, s.consumer;
      t == s.(consumer := Reading(q.size, q.wasFull, q.waited, q.out + [s.region[at + |q.out|]]))
  {
    hide Inv, Runs, CellStart;
    t := Then(c, init, s0, s, CopyOut);
  }

  lemma {:induction false} FindsRecord(c: Config, init: Bytes, s: State, size: nat) returns (t: State)
    requires Inv(c, init, s) && s.consumer.Idle? && s.lock > 0 && !s.stop && !IsEmpty(s) && s.offset <= c.messageSize
    ensures Runs(c, s, t, false) && Inv(c, init, t)
    ensures t == s.(asked := size, lock := s.lock - 1,
                    consumer := Reading(Clamp(c.messageSize, s.offset, size), IsFull(c, s), false, []))
  {
    hide Inv, Runs, Succ;
    t := GetsLock(c, init, s, size);
    t := Then(c, init, s, t, SampleFull);
    t := Then(c, init, s, t, TestEmpty);
    t := Then(c, init, s, t, ClampSize);
  }

  lemma {:induction false} GetsLock(c: Config, init: Bytes, s: State, size: nat) returns (t: State)
    requires Inv(c, init, s) && s.consumer.Idle? && s.lock > 0 && !s.stop
    ensures Runs(c, s, t, false) && Inv(c, init, t)
    ensures t == s.(asked := size, lock := s.lock - 1, consumer := Consumer.Sampling(size))
  {
    hide Inv, Runs, Succ;
    Here(c, s, false);
    t := Then(c, init, s, s, PopCall(size));
    t := Then(c, init, s, t, TestStop);
    t := Then(c, init, s, t, LockC);
  }

  /** The consumer has its bytes: it moves on, and returns. */
  lemma {:induction false} Settles(c: Config, init: Bytes, s0: State, s: State) returns (t: State)
    requires Runs(c, s0, s, false) && Inv(c, init, s) && s.consumer.Reading? && |s.consumer.out| == s.consumer.size
    ensures Runs(c, s0, t, false) && Inv(c, init, t)
    ensures t.consumer.Unlocking? && t.consumer.wasFull == s.consumer.wasFull
    ensures
      var offset := s.offset + s.consumer.size;
      if offset == c.messageSize then
        && t.consumer.ret == 0
        && t == s.(offset := 0, tail := Succ(s.tail, c.queueSize), currentCount := s.currentCount - 1,
                   popped := s.popped + 1, delivered := s.delivered + s.consumer.out, consumer := t.consumer)
      else
        && t.consumer.ret == offset
        && t == s.(offset := offset, delivered := s.delivered + s.consumer.out, consumer := t.consumer)
  {
    hide Inv, Runs, Succ;
    t := Then(c, init, s0, s, AdvanceOffset);
    if t.consumer.Finishing? {
      t := Finishes(c, init, s0, t);
    }
  }

  lemma {:induction false} Finishes(c: Config, init: Bytes, s0: State, s: State) returns (t: State)
    requires Runs(c, s0, s, false) && Inv(c, init, s) && s.consumer.Finishing?
    ensures Runs(c, s0, t, false) && Inv(c, init, t)
    ensures t == s.(offset := 0, tail := Succ(s.tail, c.queueSize), currentCount := s.currentCount - 1,
                    popped := s.popped + 1, delivered := s.delivered + s.consumer.out,
                    consumer := Consumer.Unlocking(s.consumer.wasFull, 0))
  {
    hide Inv, Runs, Succ;
    t := Then(c, init, s0, s, StoreTail);
    t := Then(c, init, s0, t, Settle);
  }

  lemma {:induction false} ReturnsFromPop(c: Config, init: Bytes, s0: State, s: State) returns (t: State)
    requires Runs(c, s0, s, false) && Inv(c, init, s) && s.consumer.Unlocking?
    ensures Runs(c, s0, t, false) && Inv(c, init, t)
    ensures t == s.(lock := s.lock + 1, full := if s.consumer.wasFull then s.full + 1 else s.full,
                    pops := s.pops + [s.consumer.ret], consumer := Consumer.Idle)
  {
    hide Inv, Runs;
    t := Then(c, init, s0, s, UnlockC);
    t := Then(c, init, s0, t, PostFull);
  }

  /** The same for the consumer and sem_pop, whatever the producer is doing outside the lock. */
  lemma {:induction false} PopRuns(c: Config, init: Bytes, s: State, size: nat) returns (t: State)
    requires Inv(c, init, s) && s.consumer.Idle? && s.lock > 0 && (!s.stop ==> !IsEmpty(s))
    ensures Runs(c, s, t, false) && Inv(c, init, t) && t.consumer.Idle? && t.producer == s.producer
    ensures ValidSemRing(View(c, s)) && (!s.stop ==> SemReady(View(c, s), Pop(size)))
    ensures
      var (r, reply) := SemPop(View(c, s), s.stop, size);
      View(c, t) == r && t.pops == s.pops + [reply.ret] && t.delivered == s.delivered + reply.bytes
  {
    hide Inv, Runs, Succ, CellStart;
    ViewValid(c, init, s);
    if s.stop {
      Here(c, s, false);
      t := Then(c, init, s, s, PopCall(size));
      t := Then(c, init, s, t, TestStop);
    } else {
      CellsApart(c, s.tail, c.queueSize);
      t := FindsRecord(c, init, s, size);
      t := CopiesOut(c, init, s, t);
      t := Settles(c, init, s, t);
      t := ReturnsFromPop(c, init, s, t);
    }
  }
}
