/** Runs of the semaphore ring that lose a wake-up, of the consumer and of the producer, for every ring of two cells or
    more and whatever is pushed. */
module SemLostWakeUp {
  import opened Bytes
  import opened Cells
  import opened SemMachine
  import opened SemTheorems

  ghost predicate Reachable(c: Config, init: Bytes, s: State) {
    exists acts :: Reaches(c, Init(c, init), acts, s)
  }

  lemma {:induction false} ReachesThen(c: Config, s: State, acts: seq<Action>, t: State, a: Action)
    requires ValidConfig(c) && Reaches(c, s, acts, t) && Enabled(c, t, a) && InBounds(c, t, a)
    ensures Reaches(c, s, acts + [a], Step(c, t, a))
    decreases |acts|
  {
    hide Step;
    if acts == [] {
      var t' := Step(c, t, a);
      assert Reaches(c, t', [], t');
      assert [a][1..] == [];
    } else {
      ReachesThen(c, Step(c, s, acts[0]), acts[1..], t, a);
      assert (acts + [a])[1..] == acts[1..] + [a];
    }
  }

  /** One more step of a run. */
  lemma {:induction false} Then(c: Config, init: Bytes, s: State, a: Action) returns (t: State)
    requires Reachable(c, init, s) && Inv(c, init, s) && Enabled(c, s, a)
    ensures InBounds(c, s, a) && t == Step(c, s, a) && Reachable(c, init, t) && Inv(c, init, t)
  {
    hide Inv, Reaches, Step, Enabled, InBounds, Init;
    StepInv(c, init, s, a);
    t := Step(c, s, a);
    var acts :| Reaches(c, Init(c, init), acts, s);
    ReachesThen(c, Init(c, init), acts, s, a);
  }

  /** The two threads are at p and q, n records are in the ring, and so many tokens in the two semaphores. */
  ghost predicate At(c: Config, init: Bytes, s: State, p: Producer, q: Consumer, n: int, full: nat, empty: nat)
    ensures At(c, init, s, p, q, n, full, empty) ==> Inv(c, init, s)
  {
    && Reachable(c, init, s) && Inv(c, init, s) && c.queueSize >= 2
    && s.producer == p && s.consumer == q && |s.bufs| - s.popped == n && s.full == full && s.empty == empty
    && s.offset == 0 && !s.stop
  }

  // ---------------------------------------------------------------------------------------
  // Pushes
  // ---------------------------------------------------------------------------------------

  lemma {:induction false} Copies(c: Config, init: Bytes, s: State, q: Consumer, n: int, full: nat, empty: nat)
    returns (t: State)
    requires s.producer.Copying? && At(c, init, s, s.producer, q, n, full, empty) && s.producer.done <= |s.producer.buf|
    ensures At(c, init, t, Counted(s.producer.buf, s.producer.wasEmpty, s.producer.waited), q, n, full, empty)
    decreases |s.producer.buf| - s.producer.done
  {
    hide Inv, Reachable;
    if s.producer.done < |s.producer.buf| {
      t := Then(c, init, s, CopyIn);
      t := Copies(c, init, t, q, n, full, empty);
    } else {
      t := Then(c, init, s, Count);
    }
  }

  /** A push with room in the ring. */
  lemma {:induction false} Pushes(c: Config, init: Bytes, s: State, buf: Bytes, q: Consumer, n: int, full: nat,
                                  empty: nat)
    returns (t: State)
    requires At(c, init, s, Producer.Idle, q, n, full, empty) && n < c.queueSize - 1 && !ConsumerHolds(q)
    requires |buf| <= c.messageSize
    ensures At(c, init, t, Producer.Idle, q, n + 1, full, empty + One(n == 0))
  {
    hide Inv, Reachable, IsFull, IsEmpty, Succ;
    t := Then(c, init, s, PushCall(buf));
    t := Then(c, init, t, LockP);
    Tests(c, init, t);
    t := Then(c, init, t, SampleEmpty);
    Tests(c, init, t);
    t := Then(c, init, t, TestFull);
    t := Copies(c, init, t, q, n, full, empty);
    t := Publishes(c, init, t, q, n, full, empty);
  }

  lemma {:induction false} Publishes(c: Config, init: Bytes, s: State, q: Consumer, n: int, full: nat, empty: nat)
    returns (t: State)
    requires s.producer.Counted? && At(c, init, s, s.producer, q, n, full, empty)
    ensures At(c, init, t, Producer.Idle, q, n + 1, full, empty + One(s.producer.wasEmpty))
  {
    hide Inv, Reachable;
    t := Then(c, init, s, StoreHead);
    t := Then(c, init, t, UnlockP);
    t := Then(c, init, t, PostEmpty);
  }

  /** Pushes until the ring is full. */
  lemma {:induction false} FillsUp(c: Config, init: Bytes, s: State, buf: Bytes, q: Consumer, n: int, full: nat,
                                   empty: nat)
    returns (t: State)
    requires At(c, init, s, Producer.Idle, q, n, full, empty) && 0 <= n <= c.queueSize - 1 && !ConsumerHolds(q)
    requires |buf| <= c.messageSize
    ensures At(c, init, t, Producer.Idle, q, c.queueSize - 1, full, empty + One(n == 0))
    decreases c.queueSize - n
  {
    hide At;
    t := s;
    if n < c.queueSize - 1 {
      t := Pushes(c, init, s, buf, q, n, full, empty);
      t := FillsUp(c, init, t, buf, q, n + 1, full, empty + One(n == 0));
    } else {
      AtFacts(c, init, s, Producer.Idle, q, n, full, empty);
    }
  }

  lemma {:induction false} AtFacts(c: Config, init: Bytes, s: State, p: Producer, q: Consumer, n: int, full: nat,
                                   empty: nat)
    requires At(c, init, s, p, q, n, full, empty)
    ensures c.queueSize >= 2
  {
  }

  /** A push that finds the ring full uses up the token and goes to sleep. */
  lemma {:induction false} PushSleeps(c: Config, init: Bytes, s: State, buf: Bytes, q: Consumer, empty: nat)
    returns (t: State)
    requires At(c, init, s, Producer.Idle, q, c.queueSize - 1, 1, empty) && !ConsumerHolds(q) && |buf| <= c.messageSize
    ensures At(c, init, t, Producer.Sleeping(buf, false), q, c.queueSize - 1, 0, empty)
  {
    hide Inv, Reachable, IsFull, IsEmpty, Succ;
    t := Then(c, init, s, PushCall(buf));
    t := Then(c, init, t, LockP);
    Tests(c, init, t);
    t := Then(c, init, t, SampleEmpty);
    Tests(c, init, t);
    t := Then(c, init, t, TestFull);
    t := Then(c, init, t, DropP);
    t := SleepsOnFull(c, init, t, buf, q, 1, empty);
    t := Then(c, init, t, WaitFull);
    t := SleepsOnFull(c, init, t, buf, q, 0, empty);
  }

  lemma {:induction false} SleepsOnFull(c: Config, init: Bytes, s: State, buf: Bytes, q: Consumer, full: nat,
                                        empty: nat)
    returns (t: State)
    requires At(c, init, s, Producer.Checking(buf, false), q, c.queueSize - 1, full, empty)
    ensures At(c, init, t, Producer.Sleeping(buf, false), q, c.queueSize - 1, full, empty)
  {
    hide Inv, Reachable, IsFull, IsEmpty, Succ;
    Tests(c, init, s);
    t := Then(c, init, s, CheckFull);
  }

  // ---------------------------------------------------------------------------------------
  // Pops
  // ---------------------------------------------------------------------------------------

  /** The rest of a record is read. */
  lemma {:induction false} Reads(c: Config, init: Bytes, s: State, p: Producer, n: int, full: nat, empty: nat)
    returns (t: State)
    requires s.consumer.Reading? && At(c, init, s, p, s.consumer, n, full, empty)
    requires s.consumer.size == c.messageSize && |s.consumer.out| <= c.messageSize
    ensures t.consumer.Finishing? && t.consumer.wasFull == s.consumer.wasFull && t.consumer.waited == s.consumer.waited
    ensures Reachable(c, init, t) && Inv(c, init, t) && t.producer == p && |t.bufs| - t.popped == n
    ensures t.full == full && t.empty == empty && !t.stop
    decreases c.messageSize - |s.consumer.out|
  {
    hide Inv, Reachable;
    if |s.consumer.out| < c.messageSize {
      t := Then(c, init, s, CopyOut);
      t := Reads(c, init, t, p, n, full, empty);
    } else {
      t := Then(c, init, s, AdvanceOffset);
    }
  }

  /** pop up to the lock. */
  lemma {:induction false} Locks(c: Config, init: Bytes, s: State, p: Producer, n: int, full: nat, empty: nat)
    returns (t: State)
    requires At(c, init, s, p, Consumer.Idle, n, full, empty) && !ProducerHolds(p)
    ensures At(c, init, t, p, Consumer.Sampling(c.messageSize), n, full, empty)
  {
    hide Inv, Reachable, IsFull, IsEmpty, Succ;
    t := Then(c, init, s, PopCall(c.messageSize));
    t := Then(c, init, t, TestStop);
    Tests(c, init, t);
    t := Then(c, init, t, LockC);
  }

  /** pop up to the point where the record is about to be taken. */
  lemma {:induction false} Enters(c: Config, init: Bytes, s: State, p: Producer, n: int, full: nat, empty: nat)
    returns (t: State)
    requires At(c, init, s, p, Consumer.Idle, n, full, empty) && !ProducerHolds(p)
    ensures At(c, init, t, p, Consumer.Testing(c.messageSize, n == c.queueSize - 1), n, full, empty)
  {
    hide Inv, Reachable, IsFull, IsEmpty, Succ;
    t := Locks(c, init, s, p, n, full, empty);
    Tests(c, init, t);
    t := Then(c, init, t, SampleFull);
  }

  /** A pop of a whole record. */
  lemma {:induction false} Pops(c: Config, init: Bytes, s: State, p: Producer, n: int, full: nat, empty: nat)
    returns (t: State)
    requires At(c, init, s, p, Consumer.Idle, n, full, empty) && !ProducerHolds(p) && 0 < n
    ensures At(c, init, t, p, Consumer.Idle, n - 1, full + One(n == c.queueSize - 1), empty)
  {
    hide Inv, Reachable, IsFull, IsEmpty, Succ;
    t := Enters(c, init, s, p, n, full, empty);
    Tests(c, init, t);
    t := Then(c, init, t, TestEmpty);
    t := Then(c, init, t, ClampSize);
    t := Reads(c, init, t, p, n, full, empty);
    t := Takes(c, init, t);
  }

  lemma {:induction false} Takes(c: Config, init: Bytes, s: State) returns (t: State)
    requires Reachable(c, init, s) && Inv(c, init, s) && s.consumer.Finishing? && c.queueSize >= 2 && !s.stop
    ensures At(c, init, t, s.producer, Consumer.Idle, |s.bufs| - s.popped - 1, s.full + One(s.consumer.wasFull),
      s.empty)
  {
    hide Inv, Reachable;
    t := Then(c, init, s, StoreTail);
    t := Then(c, init, t, Settle);
    t := Then(c, init, t, UnlockC);
    t := Then(c, init, t, PostFull);
  }

  /** Pops until the ring is empty. */
  lemma {:induction false} Drains(c: Config, init: Bytes, s: State, p: Producer, n: int, full: nat, empty: nat)
    returns (t: State)
    requires At(c, init, s, p, Consumer.Idle, n, full, empty) && !ProducerHolds(p) && 0 <= n <= c.queueSize - 1
    ensures At(c, init, t, p, Consumer.Idle, 0, full + One(n == c.queueSize - 1), empty)
    decreases n
  {
    hide At;
    t := s;
    AtFacts(c, init, s, p, Consumer.Idle, n, full, empty);
    if 0 < n {
      t := Pops(c, init, s, p, n, full, empty);
      t := Drains(c, init, t, p, n - 1, full + One(n == c.queueSize - 1), empty);
    }
  }

  /** A pop that finds the ring empty is about to go to sleep. */
  lemma {:induction false} PopSleeps(c: Config, init: Bytes, s: State, p: Producer, full: nat, empty: nat)
    returns (t: State)
    requires At(c, init, s, p, Consumer.Idle, 0, full, empty) && !ProducerHolds(p)
    ensures At(c, init, t, p, Consumer.Sleeping(c.messageSize, false), 0, full, empty)
  {
    hide Inv, Reachable, IsFull, IsEmpty, Succ;
    t := Enters(c, init, s, p, 0, full, empty);
    Tests(c, init, t);
    t := Then(c, init, t, TestEmpty);
    t := Then(c, init, t, DropC);
    t := SleepsOnEmpty(c, init, t, p, full, empty);
  }

  lemma {:induction false} SleepsOnEmpty(c: Config, init: Bytes, s: State, p: Producer, full: nat, empty: nat)
    returns (t: State)
    requires At(c, init, s, p, Consumer.Checking(c.messageSize, false), 0, full, empty)
    ensures At(c, init, t, p, Consumer.Sleeping(c.messageSize, false), 0, full, empty)
  {
    hide Inv, Reachable, IsFull, IsEmpty, Succ;
    Tests(c, init, s);
    t := Then(c, init, s, CheckEmpty);
  }

  // ---------------------------------------------------------------------------------------
  // The runs
  // ---------------------------------------------------------------------------------------

  lemma {:induction false} Starts(c: Config, init: Bytes)
    requires ValidConfig(c) && ValidRegion(c, init) && c.queueSize >= 2
    ensures At(c, init, Init(c, init), Producer.Idle, Consumer.Idle, 0, 1, 0)
  {
    hide Inv;
    InitInv(c, init);
    assert Reaches(c, Init(c, init), [], Init(c, init));
  }

  /** Pushes fill the ring and leave a token; one more push goes to sleep. Pops drain the ring and post; one more pop
      uses up the token and is about to sleep. The push wakes, publishes into the drained ring and will not post. */
  lemma {:induction false} ConsumerLoses(c: Config, init: Bytes, buf: Bytes) returns (s: State)
    requires ValidConfig(c) && ValidRegion(c, init) && c.queueSize >= 2 && |buf| <= c.messageSize
    ensures Reachable(c, init, s) && ConsumerLost(s)
  {
    hide Inv, Reachable, IsFull, IsEmpty, Succ, Init;
    s := BothSleep(c, init, buf);
    s := Wakes(c, init, s, buf, Consumer.Sleeping(c.messageSize, false));
    s := Then(c, init, s, StoreHead);
  }

  /** Both threads sleep on an empty ring; there is a token to wake the push, and none for the pop. */
  lemma {:induction false} BothSleep(c: Config, init: Bytes, buf: Bytes) returns (s: State)
    requires ValidConfig(c) && ValidRegion(c, init) && c.queueSize >= 2 && |buf| <= c.messageSize
    ensures At(c, init, s, Producer.Sleeping(buf, false), Consumer.Sleeping(c.messageSize, false), 0, 1, 0)
  {
    hide Inv, Reachable, IsFull, IsEmpty, Succ, Init;
    Starts(c, init);
    s := FillsUp(c, init, Init(c, init), buf, Consumer.Idle, 0, 1, 0);
    s := PushSleeps(c, init, s, buf, Consumer.Idle, 1);
    s := Drains(c, init, s, Producer.Sleeping(buf, false), c.queueSize - 1, 0, 1);
    s := PopSleeps(c, init, s, Producer.Sleeping(buf, false), 1, 1);
    s := Then(c, init, s, WaitEmpty);
    s := SleepsOnEmpty(c, init, s, Producer.Sleeping(buf, false), 1, 0);
  }

  /** The push wakes up, and has its record ready. */
  lemma {:induction false} Wakes(c: Config, init: Bytes, s: State, buf: Bytes, q: Consumer) returns (t: State)
    requires At(c, init, s, Producer.Sleeping(buf, false), q, 0, 1, 0) && !ConsumerHolds(q)
    ensures At(c, init, t, Counted(buf, false, true), q, 0, 0, 0)
  {
    hide Inv, Reachable, IsFull, IsEmpty, Succ;
    t := Then(c, init, s, WaitFull);
    Tests(c, init, t);
    t := Then(c, init, t, CheckFull);
    t := Then(c, init, t, RelockP);
    t := Copies(c, init, t, q, 0, 0, 0);
  }

  /** A pop goes to sleep on the empty ring; a push wakes it. Before it has the lock again, pushes fill the ring, and
      one more uses up the token and goes to sleep. The pop takes its record from the full ring and will not post. */
  lemma {:induction false} ProducerLoses(c: Config, init: Bytes, buf: Bytes) returns (s: State)
    requires ValidConfig(c) && ValidRegion(c, init) && c.queueSize >= 2 && |buf| <= c.messageSize
    ensures Reachable(c, init, s) && ProducerLost(c, s)
  {
    hide Inv, Reachable, IsFull, IsEmpty, Succ, Init;
    s := PushSleepsLate(c, init, buf);
    s := Finishes(c, init, s, buf);
    s := Then(c, init, s, StoreTail);
  }

  /** The push sleeps on a full ring, the pop has been woken and waits for the lock. */
  lemma {:induction false} PushSleepsLate(c: Config, init: Bytes, buf: Bytes) returns (s: State)
    requires ValidConfig(c) && ValidRegion(c, init) && c.queueSize >= 2 && |buf| <= c.messageSize
    ensures At(c, init, s, Producer.Sleeping(buf, false), Consumer.Relocking(c.messageSize, false), c.queueSize - 1,
      0, 0)
  {
    hide Inv, Reachable, IsFull, IsEmpty, Succ, Init, Step, Enabled;
    var q := Consumer.Relocking(c.messageSize, false);
    Starts(c, init);
    s := PopSleeps(c, init, Init(c, init), Producer.Idle, 1, 0);
    s := Pushes(c, init, s, buf, Consumer.Sleeping(c.messageSize, false), 0, 1, 0);
    s := PopWakes(c, init, s);
    s := FillsUp(c, init, s, buf, q, 1, 1, 0);
    s := PushSleeps(c, init, s, buf, q, 0);
  }

  lemma {:induction false} PopWakes(c: Config, init: Bytes, s: State) returns (t: State)
    requires At(c, init, s, Producer.Idle, Consumer.Sleeping(c.messageSize, false), 1, 1, 1)
    ensures At(c, init, t, Producer.Idle, Consumer.Relocking(c.messageSize, false), 1, 1, 0)
  {
    hide Inv, Reachable, IsFull, IsEmpty, Succ;
    t := Then(c, init, s, WaitEmpty);
    Tests(c, init, t);
    t := Then(c, init, t, CheckEmpty);
  }

  /** The pop gets the lock and reads its record. */
  lemma {:induction false} Finishes(c: Config, init: Bytes, s: State, buf: Bytes) returns (t: State)
    requires At(c, init, s, Producer.Sleeping(buf, false), Consumer.Relocking(c.messageSize, false), c.queueSize - 1,
      0, 0)
    ensures Reachable(c, init, t) && Inv(c, init, t) && t.consumer.Finishing? && !t.consumer.wasFull
    ensures t.producer.Sleeping? && |t.bufs| - t.popped == c.queueSize - 1 && t.full == 0
  {
    hide Inv, Reachable, IsFull, IsEmpty, Succ;
    t := Then(c, init, s, RelockC);
    t := Then(c, init, t, ClampSize);
    t := Reads(c, init, t, Producer.Sleeping(buf, false), c.queueSize - 1, 0, 0);
  }

  /** Some run loses a wake-up of the consumer (of the producer). */
  ghost predicate ConsumerCanLose(c: Config, init: Bytes) {
    exists acts, s :: Reaches(c, Init(c, init), acts, s) && LosesConsumer(c, Init(c, init), acts, s)
  }

  ghost predicate ProducerCanLose(c: Config, init: Bytes) {
    exists acts, s :: Reaches(c, Init(c, init), acts, s) && LosesProducer(c, Init(c, init), acts, s)
  }

  /** Either side can lose a wake-up if and only if the ring has at least two cells. */
  lemma {:induction false} CanLoseExactly(c: Config, init: Bytes)
    requires ValidConfig(c) && ValidRegion(c, init)
    ensures ConsumerCanLose(c, init) <==> c.queueSize >= 2
    ensures ProducerCanLose(c, init) <==> c.queueSize >= 2
  {
    hide Inv, Reaches, LosesConsumer, LosesProducer;
    InitInv(c, init);
    forall acts, s | Reaches(c, Init(c, init), acts, s)
      ensures ConsumerLost(s) <==> LosesConsumer(c, Init(c, init), acts, s)
      ensures ProducerLost(c, s) <==> LosesProducer(c, Init(c, init), acts, s)
      ensures c.queueSize == 1 ==> !ConsumerLost(s) && !ProducerLost(c, s)
    {
      ConsumerWakeUps(c, init, Init(c, init), acts, s);
      ProducerWakeUps(c, init, Init(c, init), acts, s);
      ReachableInv(c, init, acts, s);
      Tests(c, init, s);
    }
    if c.queueSize >= 2 {
      var s := ConsumerLoses(c, init, []);
      var acts :| Reaches(c, Init(c, init), acts, s);
      var u := ProducerLoses(c, init, []);
      var more :| Reaches(c, Init(c, init), more, u);
    }
  }
}
