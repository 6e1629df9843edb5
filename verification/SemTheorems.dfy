/** What the semaphore ring guarantees over whole runs, and exactly when it loses a wake-up. */
module SemTheorems {
  import opened Bytes
  import opened Cells
  import opened Fifos
  import opened SemMachine

  ghost predicate Reaches(c: Config, s: State, acts: seq<Action>, t: State)
    decreases |acts|
  {
    if acts == [] then s == t
    else
      && ValidConfig(c) && Enabled(c, s, acts[0]) && InBounds(c, s, acts[0])
      && Reaches(c, Step(c, s, acts[0]), acts[1..], t)
  }

  lemma {:induction false} RunInv(c: Config, init: Bytes, s: State, acts: seq<Action>, t: State)
    requires Inv(c, init, s) && Reaches(c, s, acts, t)
    ensures Inv(c, init, t)
    decreases |acts|
  {
    hide Inv, Step;
    if acts != [] {
      StepInv(c, init, s, acts[0]);
      RunInv(c, init, Step(c, s, acts[0]), acts[1..], t);
    }
  }

  lemma {:induction false} ReachableInv(c: Config, init: Bytes, acts: seq<Action>, s: State)
    requires ValidConfig(c) && ValidRegion(c, init) && Reaches(c, Init(c, init), acts, s)
    ensures Inv(c, init, s)
  {
    hide Inv, Init;
    InitInv(c, init);
    RunInv(c, init, Init(c, init), acts, s);
  }

  // ---------------------------------------------------------------------------------------
  // Safety
  // ---------------------------------------------------------------------------------------

  /** The lock is a mutex; a record is only ever written into a ring with room and only ever taken
      from a ring with a record, although neither side tests again after taking the lock for the
      second time; and when nobody holds the lock the counter is the number of records. */
  lemma {:induction false} Safety(c: Config, init: Bytes, acts: seq<Action>, s: State)
    requires ValidConfig(c) && ValidRegion(c, init) && Reaches(c, Init(c, init), acts, s)
    ensures s.lock + One(ProducerHolds(s.producer)) + One(ConsumerHolds(s.consumer)) == 1
    ensures s.producer.Copying? || s.producer.Counted? ==> !IsFull(c, s)
    ensures s.consumer.Dequeuing? || s.consumer.Reading? || s.consumer.Finishing? ==> !IsEmpty(s)
    ensures 0 <= |s.bufs| - s.popped <= c.queueSize - 1
    ensures s.lock == 1 ==> s.currentCount == (s.head - s.tail) % c.queueSize == |s.bufs| - s.popped
    ensures s.lock == 1 ==> s.totalCount == |s.bufs|
  {
    hide Init, Reaches, Holds, Records, Slot;
    ReachableInv(c, init, acts, s);
    Tests(c, init, s);
    IndexDifference(s.popped, |s.bufs|, c.queueSize);
  }

  /** The distance of two indices less than a lap apart. */
  lemma {:induction false} IndexDifference(a: nat, b: nat, m: nat)
    requires m >= 1 && a <= b < a + m
    ensures (Slot(b, m) - Slot(a, m)) % m == b - a
  {
    SlotAhead(a, b - a, m);
    if Slot(a, m) + (b - a) < m {
      ModUnique(Slot(b, m) - Slot(a, m), m, 0, b - a);
    } else {
      ModUnique(Slot(b, m) - Slot(a, m), m, -1, b - a);
    }
  }

  /** Delivery is first in, first out, byte by byte. */
  lemma {:induction false} DeliversPrefix(c: Config, init: Bytes, acts: seq<Action>, s: State)
    requires ValidConfig(c) && ValidRegion(c, init) && Reaches(c, Init(c, init), acts, s)
    ensures Fitting(c, s.bufs)
    ensures s.delivered <= Flatten(Records(c, init, s.bufs))
    ensures Uniform(s.bufs, c.messageSize) ==> s.delivered <= Flatten(s.bufs)
    ensures s.consumer.Idle? ==> |s.delivered| == s.popped * c.messageSize + s.offset
  {
    hide Init, Reaches, Holds, Slot;
    ReachableInv(c, init, acts, s);
    ReadIsPrefix(Records(c, init, s.bufs), c.messageSize, s.popped, ReadOffset(c, s.consumer, s.offset));
    if Uniform(s.bufs, c.messageSize) {
      FullPushes(c, init, s.bufs);
    }
  }

  /** Every byte copy of every run stays inside one cell, under the lock. */
  lemma {:induction false} CopiesStayInCell(c: Config, init: Bytes, acts: seq<Action>, s: State, a: Action)
    requires ValidConfig(c) && ValidRegion(c, init) && Reaches(c, Init(c, init), acts, s) && Enabled(c, s, a)
    ensures InBounds(c, s, a)
    ensures !(s.producer.Copying? && s.consumer.Reading?)
    ensures a.CopyIn? ==>
      && s.head < c.queueSize && s.producer.done < c.messageSize
      && CopyInAddress(c, s) == Address(c, s.head, s.producer.done)
    ensures a.CopyOut? ==>
      && s.tail < c.queueSize && s.offset + |s.consumer.out| < c.messageSize
      && CopyOutAddress(c, s) == Address(c, s.tail, s.offset + |s.consumer.out|)
  {
    hide Init, Reaches, Holds, Slot;
    ReachableInv(c, init, acts, s);
    CopiesInCell(c, init, s, a);
  }

  /** The abstract queue a state stands for. */
  ghost function Abstract(c: Config, init: Bytes, s: State): (f: Fifo)
    requires Inv(c, init, s)
    ensures ValidFifo(f, c.messageSize)
  {
    hide Inv;
    QueueValid(c, init, s);
    Fifo(Records(c, init, s.bufs)[s.popped..], ReadOffset(c, s.consumer, s.offset))
  }

  lemma {:induction false} QueueValid(c: Config, init: Bytes, s: State)
    requires Inv(c, init, s)
    ensures Uniform(Records(c, init, s.bufs), c.messageSize) && s.popped <= |Records(c, init, s.bufs)|
    ensures 0 <= ReadOffset(c, s.consumer, s.offset) < c.messageSize
    ensures s.popped == |Records(c, init, s.bufs)| ==> ReadOffset(c, s.consumer, s.offset) == 0
  {
    hide Holds, ReadSoFar, CellStart, ProducerInv;
  }

  /** Forward simulation: storing head appends; finishing a read, in whole or in part, takes; every
      other step is invisible. The value a part-read returns is the one the abstract queue returns. */
  lemma {:induction false} SimulatesFifo(c: Config, init: Bytes, s: State, a: Action)
    requires Inv(c, init, s) && Enabled(c, s, a)
    ensures InBounds(c, s, a) && Inv(c, init, Step(c, s, a))
    ensures
      var s' := Step(c, s, a);
      var f, f' := Abstract(c, init, s), Abstract(c, init, s');
      if a.StoreHead? then
        && |f.records| < c.queueSize - 1
        && f' == Append(f, RecordAt(c, init, s.bufs + [s.producer.buf], |s.bufs|))
      else if a.StoreTail? then
        && f.records != []
        && Take(f, c.messageSize, s.asked) == (f', Outcome(s.consumer.out, |s.consumer.out|, 0))
      else if a.AdvanceOffset? && s.offset + s.consumer.size < c.messageSize then
        && f.records != [] && s'.consumer.Unlocking?
        && Take(f, c.messageSize, s.asked) == (f', Outcome(s.consumer.out, |s.consumer.out|, s'.consumer.ret))
      else f' == f
  {
    hide Inv, Step, Abstract, Take;
    StepInv(c, init, s, a);
    if a.StoreHead? {
      PushAgrees(c, init, s);
    } else if a.StoreTail? || a.AdvanceOffset? {
      ReadAgrees(c, init, s, a);
    } else {
      Invisible(c, init, s, a);
    }
  }

  lemma {:induction false} PushAgrees(c: Config, init: Bytes, s: State)
    requires Inv(c, init, s) && Enabled(c, s, StoreHead) && Inv(c, init, Step(c, s, StoreHead))
    ensures
      var f, f' := Abstract(c, init, s), Abstract(c, init, Step(c, s, StoreHead));
      && |f.records| < c.queueSize - 1
      && f' == Append(f, RecordAt(c, init, s.bufs + [s.producer.buf], |s.bufs|))
  {
    hide Holds, CellAfter, ReadSoFar, Slot, Succ;
    Tests(c, init, s);
    RecordsAppend(c, init, s.bufs, s.producer.buf);
  }

  lemma {:induction false} Invisible(c: Config, init: Bytes, s: State, a: Action)
    requires Inv(c, init, s) && Enabled(c, s, a) && InBounds(c, s, a) && Inv(c, init, Step(c, s, a))
    requires !a.StoreHead? && !a.StoreTail? && !a.AdvanceOffset?
    ensures Abstract(c, init, Step(c, s, a)) == Abstract(c, init, s)
  {
    hide Holds, Records, ReadSoFar, Slot, Succ, CellStart, ProducerInv;
  }

  lemma {:induction false} ReadAgrees(c: Config, init: Bytes, s: State, a: Action)
    requires Inv(c, init, s) && Enabled(c, s, a) && InBounds(c, s, a) && Inv(c, init, Step(c, s, a))
    requires a.StoreTail? || a.AdvanceOffset?
    ensures
      var s' := Step(c, s, a);
      var f, f' := Abstract(c, init, s), Abstract(c, init, s');
      if a.StoreTail? then
        f.records != [] && Take(f, c.messageSize, s.asked) == (f', Outcome(s.consumer.out, |s.consumer.out|, 0))
      else if s.offset + s.consumer.size < c.messageSize then
        && f.records != [] && s'.consumer.Unlocking?
        && Take(f, c.messageSize, s.asked) == (f', Outcome(s.consumer.out, |s.consumer.out|, s'.consumer.ret))
      else f' == f
  {
    hide Holds, CellAfter, ReadSoFar, Slot, Succ, Records;
    var records := Records(c, init, s.bufs);
    var f := Abstract(c, init, s);
    assert f.records[0] == records[s.popped];
    if a.StoreTail? {
      assert f.records[1..] == records[s.popped + 1..];
      assert records[s.popped][f.offset..] == records[s.popped][f.offset..c.messageSize];
    }
  }

  /** A pop returns how far the abstract queue's oldest record has been read, which is the value the abstract read
      returned, or 0 if it found the stop flag up. */
  lemma {:induction false} PopsAnswered(c: Config, init: Bytes, s: State, a: Action)
    requires Inv(c, init, s) && Enabled(c, s, a)
    ensures InBounds(c, s, a)
    ensures Step(c, s, a).pops ==
      if a.PostFull? then s.pops + [Abstract(c, init, s).offset]
      else if a.TestStop? && s.stop then s.pops + [0]
      else s.pops
  {
    hide Holds, Records, ReadSoFar, Slot, Succ, ProducerInv, CellStart;
    CopiesInCell(c, init, s, a);
  }

  /** The record is in the ring, and the push has not returned. */
  predicate Published(p: Producer) {
    p.Unlocking? || p.Posting?
  }

  predicate LongPush(c: Config, a: Action) {
    a.PushCall? && |a.buf| > c.messageSize
  }

  /** The pushes of the run that were called with too long a buffer. */
  function TooLong(c: Config, acts: seq<Action>): (n: nat)
    decreases |acts|
  {
    if acts == [] then 0 else (if LongPush(c, acts[0]) then 1 else 0) + TooLong(c, acts[1..])
  }

  /** Answers other than 0 and -1. */
  function Strange(answers: seq<int>): (n: int) {
    |answers| - Tally(answers, 0) - Tally(answers, -1)
  }

  lemma {:induction false} StepAnswers(c: Config, s: State, a: Action)
    requires ValidConfig(c) && Enabled(c, s, a) && InBounds(c, s, a)
    ensures
      var t := Step(c, s, a);
      && Tally(t.pushes, 0) - |t.bufs| + One(Published(t.producer)) ==
           Tally(s.pushes, 0) - |s.bufs| + One(Published(s.producer))
      && Tally(t.pushes, -1) == Tally(s.pushes, -1) + (if LongPush(c, a) then 1 else 0)
      && Strange(t.pushes) == Strange(s.pushes)
  {
    hide CellStart, Wrap, Tally, Succ;
    TallyAppend(s.pushes, 0, 0);
    TallyAppend(s.pushes, 0, -1);
    TallyAppend(s.pushes, -1, 0);
    TallyAppend(s.pushes, -1, -1);
  }

  lemma {:induction false} RunAnswers(c: Config, s: State, acts: seq<Action>, t: State)
    requires Reaches(c, s, acts, t)
    ensures Tally(t.pushes, 0) - |t.bufs| + One(Published(t.producer)) ==
      Tally(s.pushes, 0) - |s.bufs| + One(Published(s.producer))
    ensures Tally(t.pushes, -1) == Tally(s.pushes, -1) + TooLong(c, acts) && Strange(t.pushes) == Strange(s.pushes)
    decreases |acts|
  {
    hide Step, Enabled, InBounds, Tally, Strange, LongPush;
    if acts != [] {
      StepAnswers(c, s, acts[0]);
      RunAnswers(c, Step(c, s, acts[0]), acts[1..], t);
    }
  }

  /** Over every run a finished push has returned 0 or -1: 0 for each record that has been published, but for one whose
      push has not yet returned, and -1 for each buffer that was too long. */
  lemma {:induction false} PushesAnswered(c: Config, init: Bytes, acts: seq<Action>, s: State)
    requires Reaches(c, Init(c, init), acts, s)
    ensures Tally(s.pushes, 0) == |s.bufs| - One(Published(s.producer))
    ensures Tally(s.pushes, -1) == TooLong(c, acts) && |s.pushes| == Tally(s.pushes, 0) + Tally(s.pushes, -1)
  {
    RunAnswers(c, Init(c, init), acts, s);
  }

  // ---------------------------------------------------------------------------------------
  // The stop flag
  // ---------------------------------------------------------------------------------------

  predicate RaisesStop(acts: seq<Action>) {
    exists k :: 0 <= k < |acts| && acts[k].RaiseStop?
  }

  lemma {:induction false} RaisesLater(acts: seq<Action>)
    requires acts != []
    ensures RaisesStop(acts) <==> acts[0].RaiseStop? || RaisesStop(acts[1..])
  {
    if RaisesStop(acts) && !acts[0].RaiseStop? {
      var k :| 0 <= k < |acts| && acts[k].RaiseStop?;
      assert acts[1..][k - 1].RaiseStop?;
    }
    if RaisesStop(acts[1..]) {
      var k :| 0 <= k < |acts[1..]| && acts[1..][k].RaiseStop?;
      assert acts[k + 1].RaiseStop?;
    }
  }

  /** The flag is up if and only if somebody has put it up. */
  lemma {:induction false} StopExactly(c: Config, s: State, acts: seq<Action>, t: State)
    requires Reaches(c, s, acts, t)
    ensures t.stop <==> s.stop || RaisesStop(acts)
    decreases |acts|
  {
    hide CellStart, RaisesStop, Succ;
    if acts == [] {
      assert !RaisesStop([]) by { NoneRaises(); }
    } else {
      RaisesLater(acts);
      StopExactly(c, Step(c, s, acts[0]), acts[1..], t);
    }
  }

  lemma {:induction false} NoneRaises()
    ensures !RaisesStop([])
  {
  }

  /** The consumer has not got past the test of the flag. */
  predicate BeforeTest(q: Consumer) {
    q.Idle? || q.Entered?
  }

  /** With the flag up a consumer that has not got past the test reads nothing any more, whatever the producer does, and
      every pop it makes returns 0. */
  lemma {:induction false} StoppedReadsNothing(c: Config, s: State, acts: seq<Action>, t: State)
    requires Reaches(c, s, acts, t) && s.stop && BeforeTest(s.consumer)
    ensures t.stop && BeforeTest(t.consumer) && t.delivered == s.delivered && t.popped == s.popped
    ensures s.pops <= t.pops && forall k :: |s.pops| <= k < |t.pops| ==> t.pops[k] == 0
    decreases |acts|
  {
    hide Step, Enabled, InBounds, BeforeTest;
    if acts != [] {
      StoppedStep(c, s, acts[0]);
      StoppedReadsNothing(c, Step(c, s, acts[0]), acts[1..], t);
    }
  }

  lemma {:induction false} StoppedStep(c: Config, s: State, a: Action)
    requires ValidConfig(c) && Enabled(c, s, a) && InBounds(c, s, a) && s.stop && BeforeTest(s.consumer)
    ensures
      var t := Step(c, s, a);
      && t.stop && BeforeTest(t.consumer) && t.delivered == s.delivered && t.popped == s.popped
      && (t.pops == s.pops || t.pops == s.pops + [0])
  {
    hide CellStart, Succ;
  }

  // ---------------------------------------------------------------------------------------
  // Wake-ups
  // ---------------------------------------------------------------------------------------

  /** The producer has stored head and will post sem_empty. */
  predicate EmptyPostDue(p: Producer) {
    (p.Unlocking? || p.Posting?) && p.wasEmpty
  }

  /** The consumer has stored tail and will post sem_full. */
  predicate FullPostDue(q: Consumer) {
    (q.Settling? || q.Unlocking? || q.Posting?) && q.wasFull
  }

  /** The consumer is about to sleep on sem_empty although there is a record, with no token to take
      and none on its way. */
  predicate ConsumerLost(s: State) {
    s.consumer.Sleeping? && s.popped < |s.bufs| && s.empty == 0 && !EmptyPostDue(s.producer)
  }

  /** The producer is about to sleep on sem_full although there is room, with no token to take and
      none on its way. */
  predicate ProducerLost(c: Config, s: State) {
    s.producer.Sleeping? && |s.bufs| - s.popped < c.queueSize - 1 && s.full == 0 && !FullPostDue(s.consumer)
  }

  /** A push that slept on a full ring publishes into a ring that has been drained: it sampled
      "not empty" before it dropped the lock and will not post. */
  predicate DrainedPush(s: State, a: Action) {
    a.StoreHead? && s.producer.Counted? && s.producer.waited && |s.bufs| == s.popped
  }

  /** A pop that slept on an empty ring finishes a record of a ring that has been filled: it sampled
      "not full" before it dropped the lock and will not post. */
  predicate FilledPop(c: Config, s: State, a: Action) {
    a.StoreTail? && s.consumer.Finishing? && s.consumer.waited && |s.bufs| - s.popped == c.queueSize - 1
  }

  /** A consumer wake-up is lost by exactly one kind of step. */
  lemma {:induction false} ConsumerLostExactly(c: Config, init: Bytes, s: State, a: Action)
    requires Inv(c, init, s) && Enabled(c, s, a) && InBounds(c, s, a) && !ConsumerLost(s)
    ensures ConsumerLost(Step(c, s, a)) <==>
      DrainedPush(s, a) && s.consumer.Sleeping? && s.empty == 0
  {
    hide Holds, Records, ReadSoFar, Slot, Succ;
    Tests(c, init, s);
  }

  /** Once lost, a consumer wake-up stays lost: no later step of either side ever wakes the consumer. */
  lemma {:induction false} ConsumerLostForever(c: Config, init: Bytes, s: State, a: Action)
    requires Inv(c, init, s) && Enabled(c, s, a) && InBounds(c, s, a) && ConsumerLost(s)
    ensures ConsumerLost(Step(c, s, a))
  {
    hide Holds, Records, ReadSoFar, Slot, Succ;
    Tests(c, init, s);
  }

  lemma {:induction false} ProducerLostExactly(c: Config, init: Bytes, s: State, a: Action)
    requires Inv(c, init, s) && Enabled(c, s, a) && InBounds(c, s, a) && !ProducerLost(c, s)
    ensures ProducerLost(c, Step(c, s, a)) <==>
      FilledPop(c, s, a) && s.producer.Sleeping? && s.full == 0
  {
    hide Holds, Records, ReadSoFar, Slot, Succ;
    Tests(c, init, s);
  }

  lemma {:induction false} ProducerLostForever(c: Config, init: Bytes, s: State, a: Action)
    requires Inv(c, init, s) && Enabled(c, s, a) && InBounds(c, s, a) && ProducerLost(c, s)
    ensures ProducerLost(c, Step(c, s, a))
  {
    hide Holds, Records, ReadSoFar, Slot, Succ;
    Tests(c, init, s);
  }

  /** Some step of the run loses a wake-up of the consumer (of the producer). */
  ghost predicate LosesConsumer(c: Config, s: State, acts: seq<Action>, t: State)
    requires Reaches(c, s, acts, t)
    decreases |acts|
  {
    acts != [] &&
    (|| (DrainedPush(s, acts[0]) && s.consumer.Sleeping? && s.empty == 0)
     || LosesConsumer(c, Step(c, s, acts[0]), acts[1..], t))
  }

  ghost predicate LosesProducer(c: Config, s: State, acts: seq<Action>, t: State)
    requires Reaches(c, s, acts, t)
    decreases |acts|
  {
    acts != [] &&
    (|| (FilledPop(c, s, acts[0]) && s.producer.Sleeping? && s.full == 0)
     || LosesProducer(c, Step(c, s, acts[0]), acts[1..], t))
  }

  /** Over whole runs: the consumer ends up asleep for good exactly when some push that slept on a
      full ring published into a drained ring while the consumer was about to sleep without a token. */
  lemma {:induction false} ConsumerWakeUps(c: Config, init: Bytes, s: State, acts: seq<Action>, t: State)
    requires Inv(c, init, s) && !ConsumerLost(s) && Reaches(c, s, acts, t)
    ensures ConsumerLost(t) <==> LosesConsumer(c, s, acts, t)
    decreases |acts|
  {
    hide Inv, Step;
    if acts != [] {
      var s' := Step(c, s, acts[0]);
      StepInv(c, init, s, acts[0]);
      ConsumerLostExactly(c, init, s, acts[0]);
      if ConsumerLost(s') {
        ConsumerStaysLost(c, init, s', acts[1..], t);
      } else {
        ConsumerWakeUps(c, init, s', acts[1..], t);
      }
    }
  }

  lemma {:induction false} ConsumerStaysLost(c: Config, init: Bytes, s: State, acts: seq<Action>, t: State)
    requires Inv(c, init, s) && ConsumerLost(s) && Reaches(c, s, acts, t)
    ensures ConsumerLost(t)
    decreases |acts|
  {
    hide Inv, Step;
    if acts != [] {
      StepInv(c, init, s, acts[0]);
      ConsumerLostForever(c, init, s, acts[0]);
      ConsumerStaysLost(c, init, Step(c, s, acts[0]), acts[1..], t);
    }
  }

  lemma {:induction false} ProducerWakeUps(c: Config, init: Bytes, s: State, acts: seq<Action>, t: State)
    requires Inv(c, init, s) && !ProducerLost(c, s) && Reaches(c, s, acts, t)
    ensures ProducerLost(c, t) <==> LosesProducer(c, s, acts, t)
    decreases |acts|
  {
    hide Inv, Step;
    if acts != [] {
      var s' := Step(c, s, acts[0]);
      StepInv(c, init, s, acts[0]);
      ProducerLostExactly(c, init, s, acts[0]);
      if ProducerLost(c, s') {
        ProducerStaysLost(c, init, s', acts[1..], t);
      } else {
        ProducerWakeUps(c, init, s', acts[1..], t);
      }
    }
  }

  lemma {:induction false} ProducerStaysLost(c: Config, init: Bytes, s: State, acts: seq<Action>, t: State)
    requires Inv(c, init, s) && ProducerLost(c, s) && Reaches(c, s, acts, t)
    ensures ProducerLost(c, t)
    decreases |acts|
  {
    hide Inv, Step;
    if acts != [] {
      StepInv(c, init, s, acts[0]);
      ProducerLostForever(c, init, s, acts[0]);
      ProducerStaysLost(c, init, Step(c, s, acts[0]), acts[1..], t);
    }
  }

  // ---------------------------------------------------------------------------------------
  // Progress
  // ---------------------------------------------------------------------------------------

  /** With two cells or more, two threads that are inside calls and have lost no wake-up can always move. */
  lemma {:induction false} AlwaysMoves(c: Config, init: Bytes, s: State) returns (a: Action)
    requires Inv(c, init, s) && c.queueSize >= 2 && !ConsumerLost(s) && !ProducerLost(c, s)
    requires !s.producer.Idle? && !s.consumer.Idle?
    ensures Enabled(c, s, a) && !a.RaiseStop?
  {
    hide Holds, Records, ReadSoFar, Slot;
    if s.producer.Sleeping? && s.consumer.Sleeping? {
      a := if s.full > 0 then WaitFull else WaitEmpty;
    } else if ProducerHolds(s.producer) || s.producer.Checking? || s.producer.Posting? {
      a := ProducerNext(s.producer);
    } else if ConsumerHolds(s.consumer) || s.consumer.Entered? || s.consumer.Checking? || s.consumer.Posting? {
      a := ConsumerNext(s.consumer);
    } else if s.producer.Sleeping? {
      a := ConsumerNext(s.consumer);
    } else {
      a := ProducerNext(s.producer);
    }
  }

  /** The step a thread inside a call takes next. */
  function ProducerNext(p: Producer): (a: Action)
    requires !p.Idle?
  {
    match p
    case Locking(_) => LockP
    case Sampling(_) => SampleEmpty
    case Testing(_, _) => TestFull
    case Dropping(_, _) => DropP
    case Checking(_, _) => CheckFull
    case Sleeping(_, _) => WaitFull
    case Relocking(_, _) => RelockP
    case Copying(buf, _, _, done) => if done < |buf| then CopyIn else Count
    case Counted(_, _, _) => StoreHead
    case Unlocking(_) => UnlockP
    case Posting(_) => PostEmpty
  }

  function ConsumerNext(q: Consumer): (a: Action)
    requires !q.Idle?
  {
    match q
    case Entered(_) => TestStop
    case Locking(_) => LockC
    case Sampling(_) => SampleFull
    case Testing(_, _) => TestEmpty
    case Dropping(_, _) => DropC
    case Checking(_, _) => CheckEmpty
    case Sleeping(_, _) => WaitEmpty
    case Relocking(_, _) => RelockC
    case Dequeuing(_, _, _) => ClampSize
    case Reading(size, _, _, out) => if |out| < size then CopyOut else AdvanceOffset
    case Finishing(_, _, _) => StoreTail
    case Settling(_) => Settle
    case Unlocking(_, _) => UnlockC
    case Posting(_, _) => PostFull
  }

  /** So a run comes to a standstill inside two calls only after it has lost a wake-up. */
  lemma {:induction false} StandstillAfterLoss(c: Config, init: Bytes, acts: seq<Action>, s: State)
    requires ValidConfig(c) && ValidRegion(c, init) && Reaches(c, Init(c, init), acts, s) && c.queueSize >= 2
    requires !s.producer.Idle? && !s.consumer.Idle?
    requires forall a :: Enabled(c, s, a) ==> a.RaiseStop?
    ensures LosesConsumer(c, Init(c, init), acts, s) || LosesProducer(c, Init(c, init), acts, s)
  {
    hide Inv, Reaches, Enabled, LosesConsumer, LosesProducer;
    InitInv(c, init);
    ReachableInv(c, init, acts, s);
    if !ConsumerLost(s) && !ProducerLost(c, s) {
      var _ := AlwaysMoves(c, init, s);
    }
    ConsumerWakeUps(c, init, Init(c, init), acts, s);
    ProducerWakeUps(c, init, Init(c, init), acts, s);
  }
}
