/** The semaphore ring under every interleaving of one producer and one consumer.

    `sem_push` and `sem_pop` are cut into their semaphore operations, reads of the shared indices,
    single-byte copies and stores. A semaphore is a counter; waiting is possible only when it is
    positive. Both sides test the ring, drop the lock to sleep, and do not test again once they hold
    the lock for the second time. */
module SemMachine {
  import opened Bytes
  import opened Cells
  import opened Fifos

  /** Where the producer is inside `sem_push`. */
  datatype Producer =
    | Idle
    | Locking(buf: Bytes)
    | Sampling(buf: Bytes)                                           // holds the lock
    | Testing(buf: Bytes, wasEmpty: bool)                            // holds the lock
    | Dropping(buf: Bytes, wasEmpty: bool)                           // holds the lock, saw it full
    | Checking(buf: Bytes, wasEmpty: bool)
    | Sleeping(buf: Bytes, wasEmpty: bool)                           // about to wait on sem_full
    | Relocking(buf: Bytes, wasEmpty: bool)
    | Copying(buf: Bytes, wasEmpty: bool, waited: bool, done: nat)   // holds the lock
    | Counted(buf: Bytes, wasEmpty: bool, waited: bool)              // holds the lock
    | Unlocking(wasEmpty: bool)                                      // holds the lock
    | Posting(wasEmpty: bool)

  /** Where the consumer is inside `sem_pop`. */
  datatype Consumer =
    | Idle
    | Entered(size: nat)
    | Locking(size: nat)
    | Sampling(size: nat)                                            // holds the lock
    | Testing(size: nat, wasFull: bool)                              // holds the lock
    | Dropping(size: nat, wasFull: bool)                             // holds the lock, saw it empty
    | Checking(size: nat, wasFull: bool)
    | Sleeping(size: nat, wasFull: bool)                             // about to wait on sem_empty
    | Relocking(size: nat, wasFull: bool)
    | Dequeuing(size: nat, wasFull: bool, waited: bool)              // holds the lock
    | Reading(size: nat, wasFull: bool, waited: bool, out: Bytes)    // holds the lock
    | Finishing(wasFull: bool, waited: bool, out: Bytes)             // holds the lock
    | Settling(wasFull: bool)                                        // holds the lock
    | Unlocking(wasFull: bool, ret: nat)                             // holds the lock
    | Posting(wasFull: bool, ret: nat)

  datatype State = State(
    // shared memory
    region: Bytes,
    head: nat,
    tail: nat,
    offset: nat,
    stop: bool,
    currentCount: int,
    totalCount: int,
    // semaphores
    lock: nat,
    full: nat,
    empty: nat,
    // the two threads
    producer: Producer,
    consumer: Consumer,
    // history
    asked: nat,
    bufs: seq<Bytes>,
    delivered: Bytes,
    popped: nat,
    pushes: seq<int>,                                                // return values of finished pushes
    pops: seq<nat>                                                   // return values of finished pops
  )

  datatype Action =
    // sem_push
    | PushCall(buf: Bytes) | LockP | SampleEmpty | TestFull | DropP | CheckFull | WaitFull | RelockP
    | CopyIn | Count | StoreHead | UnlockP | PostEmpty
    // sem_pop
    | PopCall(size: nat) | TestStop | LockC | SampleFull | TestEmpty | DropC | CheckEmpty | WaitEmpty | RelockC
    | ClampSize | CopyOut | AdvanceOffset | StoreTail | Settle | UnlockC | PostFull
    | RaiseStop

  function Succ(index: nat, queueSize: nat): (next: nat)
    requires queueSize >= 1
  {
    (index + 1) % queueSize
  }

  predicate IsFull(c: Config, s: State)
    requires ValidConfig(c)
  {
    Succ(s.head, c.queueSize) == s.tail
  }

  predicate IsEmpty(s: State) {
    s.head == s.tail
  }

  /** Freshly created ring: lock and full are 1, empty is 0. */
  function Init(c: Config, init: Bytes): (s: State) {
    State(init, 0, 0, 0, false, 0, 0, 1, 1, 0, Producer.Idle, Consumer.Idle, 0, [], [], 0, [], [])
  }

  predicate Enabled(c: Config, s: State, a: Action) {
    match a
    case PushCall(_) => s.producer.Idle?
    case LockP => s.producer.Locking? && s.lock > 0
    case SampleEmpty => s.producer.Sampling?
    case TestFull => s.producer.Testing?
    case DropP => s.producer.Dropping?
    case CheckFull => s.producer.Checking?
    case WaitFull => s.producer.Sleeping? && s.full > 0
    case RelockP => s.producer.Relocking? && s.lock > 0
    case CopyIn => s.producer.Copying? && s.producer.done < |s.producer.buf|
    case Count => s.producer.Copying? && s.producer.done == |s.producer.buf|
    case StoreHead => s.producer.Counted?
    case UnlockP => s.producer.Unlocking?
    case PostEmpty => s.producer.Posting?
    case PopCall(_) => s.consumer.Idle?
    case TestStop => s.consumer.Entered?
    case LockC => s.consumer.Locking? && s.lock > 0
    case SampleFull => s.consumer.Sampling?
    case TestEmpty => s.consumer.Testing?
    case DropC => s.consumer.Dropping?
    case CheckEmpty => s.consumer.Checking?
    case WaitEmpty => s.consumer.Sleeping? && s.empty > 0
    case RelockC => s.consumer.Relocking? && s.lock > 0
    case ClampSize => s.consumer.Dequeuing? && s.offset <= c.messageSize
    case CopyOut => s.consumer.Reading? && |s.consumer.out| < s.consumer.size
    case AdvanceOffset => s.consumer.Reading? && |s.consumer.out| == s.consumer.size
    case StoreTail => s.consumer.Finishing?
    case Settle => s.consumer.Settling?
    case UnlockC => s.consumer.Unlocking?
    case PostFull => s.consumer.Posting?
    case RaiseStop => true
  }

  function CopyInAddress(c: Config, s: State): (a: nat)
    requires s.producer.Copying?
  {
    CellStart(c, s.head) + s.producer.done
  }

  function CopyOutAddress(c: Config, s: State): (a: nat)
    requires s.consumer.Reading?
  {
    CellStart(c, s.tail) + s.offset + |s.consumer.out|
  }

  predicate InBounds(c: Config, s: State, a: Action)
    requires Enabled(c, s, a)
  {
    && (a.CopyIn? ==> CopyInAddress(c, s) < |s.region|)
    && (a.CopyOut? ==> CopyOutAddress(c, s) < |s.region|)
  }

  function Step(c: Config, s: State, a: Action): (s': State)
    requires ValidConfig(c) && Enabled(c, s, a) && InBounds(c, s, a)
  {
    var p, q := s.producer, s.consumer;
    match a
    case PushCall(buf) =>
      if |buf| > c.messageSize then s.(pushes := s.pushes + [-1])
      else s.(producer := Producer.Locking(buf))
    case LockP => s.(lock := s.lock - 1, producer := Producer.Sampling(p.buf))
    case SampleEmpty => s.(producer := Producer.Testing(p.buf, IsEmpty(s)))
    case TestFull =>
      s.(producer := if IsFull(c, s) then Producer.Dropping(p.buf, p.wasEmpty)
                     else Copying(p.buf, p.wasEmpty, false, 0))
    case DropP => s.(lock := s.lock + 1, producer := Producer.Checking(p.buf, p.wasEmpty))
    case CheckFull =>
      s.(producer := if IsFull(c, s) then Producer.Sleeping(p.buf, p.wasEmpty)
                     else Producer.Relocking(p.buf, p.wasEmpty))
    case WaitFull => s.(full := s.full - 1, producer := Producer.Checking(p.buf, p.wasEmpty))
    case RelockP => s.(lock := s.lock - 1, producer := Copying(p.buf, p.wasEmpty, true, 0))
    case CopyIn =>
      s.(region := s.region[CopyInAddress(c, s) := p.buf[p.done]],
         producer := Copying(p.buf, p.wasEmpty, p.waited, p.done + 1))
    case Count =>
      s.(currentCount := s.currentCount + 1, totalCount := s.totalCount + 1,
         producer := Counted(p.buf, p.wasEmpty, p.waited))
    case StoreHead =>
      s.(head := Succ(s.head, c.queueSize), bufs := s.bufs + [p.buf], producer := Producer.Unlocking(p.wasEmpty))
    case UnlockP => s.(lock := s.lock + 1, producer := Producer.Posting(p.wasEmpty))
    case PostEmpty =>
      s.(empty := if p.wasEmpty then s.empty + 1 else s.empty, pushes := s.pushes + [0], producer := Producer.Idle)
    case PopCall(size) => s.(asked := size, consumer := Entered(size))
    case TestStop =>
      if s.stop then s.(pops := s.pops + [0], consumer := Consumer.Idle)
      else s.(consumer := Consumer.Locking(q.size))
    case LockC => s.(lock := s.lock - 1, consumer := Consumer.Sampling(q.size))
    case SampleFull => s.(consumer := Consumer.Testing(q.size, IsFull(c, s)))
    case TestEmpty =>
      s.(consumer := if IsEmpty(s) then Consumer.Dropping(q.size, q.wasFull)
                     else Dequeuing(q.size, q.wasFull, false))
    case DropC => s.(lock := s.lock + 1, consumer := Consumer.Checking(q.size, q.wasFull))
    case CheckEmpty =>
      s.(consumer := if IsEmpty(s) then Consumer.Sleeping(q.size, q.wasFull)
                     else Consumer.Relocking(q.size, q.wasFull))
    case WaitEmpty => s.(empty := s.empty - 1, consumer := Consumer.Checking(q.size, q.wasFull))
    case RelockC => s.(lock := s.lock - 1, consumer := Dequeuing(q.size, q.wasFull, true))
    case ClampSize => s.(consumer := Reading(Clamp(c.messageSize, s.offset, q.size), q.wasFull, q.waited, []))
    case CopyOut =>
      s.(consumer := Reading(q.size, q.wasFull, q.waited, q.out + [s.region[CopyOutAddress(c, s)]]))
    case AdvanceOffset =>
      var offset := s.offset + q.size;
      if offset == c.messageSize then
        s.(offset := offset, consumer := Finishing(q.wasFull, q.waited, q.out))
      else
        s.(offset := offset, delivered := s.delivered + q.out, consumer := Consumer.Unlocking(q.wasFull, offset))
    case StoreTail =>
      s.(tail := Succ(s.tail, c.queueSize), popped := s.popped + 1, delivered := s.delivered + q.out,
         consumer := Settling(q.wasFull))
    case Settle =>
      s.(currentCount := s.currentCount - 1, offset := 0, consumer := Consumer.Unlocking(q.wasFull, 0))
    case UnlockC => s.(lock := s.lock + 1, consumer := Consumer.Posting(q.wasFull, q.ret))
    case PostFull =>
      s.(full := if q.wasFull then s.full + 1 else s.full, pops := s.pops + [q.ret], consumer := Consumer.Idle)
    case RaiseStop => s.(stop := true)
  }

  // ---------------------------------------------------------------------------------------
  // The invariant
  // ---------------------------------------------------------------------------------------

  predicate ProducerHolds(p: Producer) {
    p.Sampling? || p.Testing? || p.Dropping? || p.Copying? || p.Counted? || p.Unlocking?
  }

  predicate ConsumerHolds(q: Consumer) {
    || q.Sampling? || q.Testing? || q.Dropping? || q.Dequeuing? || q.Reading? || q.Finishing?
    || q.Settling? || q.Unlocking?
  }

  function One(b: bool): (n: nat) { if b then 1 else 0 }

  /** What the producer knows; `n` is the number of records in the ring. Between testing and storing
      head without having slept, its sample of emptiness is still true; after sleeping it is not. */
  ghost predicate ProducerInv(c: Config, p: Producer, n: int)
    requires ValidConfig(c)
  {
    && (!p.Idle? && !p.Unlocking? && !p.Posting? ==> |p.buf| <= c.messageSize)
    && (p.Testing? || p.Dropping? ==> (p.wasEmpty <==> n == 0))
    && (p.Dropping? ==> n == c.queueSize - 1)
    && (p.Checking? || p.Sleeping? || p.Relocking? ==> p.wasEmpty ==> c.queueSize == 1)
    && (p.Relocking? || p.Copying? || p.Counted? ==> n < c.queueSize - 1)
    && (p.Copying? || p.Counted? ==> (p.wasEmpty <==> !p.waited && n == 0))
    && (p.Copying? ==> p.done <= |p.buf|)
  }

  /** Bytes of the current record that pops have taken. */
  ghost function ReadOffset(c: Config, q: Consumer, offset: nat): int {
    match q
    case Finishing(_, _, out) => c.messageSize - |out|
    case Settling(_) => 0
    case _ => offset
  }

  ghost predicate ConsumerInv(c: Config, q: Consumer, asked: nat, offset: nat, popped: nat, records: seq<Bytes>)
    requires ValidConfig(c) && Uniform(records, c.messageSize)
  {
    var n, read := |records| - popped, ReadOffset(c, q, offset);
    && 0 <= n <= c.queueSize - 1
    && 0 <= read < c.messageSize && (0 < read ==> 0 < n)
    && (if q.Finishing? || q.Settling? then offset == c.messageSize else offset < c.messageSize)
    && (!q.Idle? && !q.Reading? && !q.Finishing? && !q.Settling? && !q.Unlocking? && !q.Posting? ==> q.size == asked)
    && (q.Testing? || q.Dropping? ==> (q.wasFull <==> n == c.queueSize - 1))
    && (q.Dropping? ==> n == 0)
    && (q.Checking? || q.Sleeping? || q.Relocking? ==> q.wasFull ==> c.queueSize == 1)
    && (q.Relocking? || q.Dequeuing? || q.Reading? || q.Finishing? ==> 0 < n)
    && (q.Dequeuing? || q.Reading? || q.Finishing? ==> (q.wasFull <==> !q.waited && n == c.queueSize - 1))
    && (q.Reading? ==>
          && q.size == Clamp(c.messageSize, offset, asked)
          && |q.out| <= q.size
          && q.out == records[popped][offset..offset + |q.out|])
    && (q.Finishing? ==>
          && |q.out| == Clamp(c.messageSize, read, asked)
          && q.out == records[popped][read..])
    && (q.Unlocking? || q.Posting? ==> q.ret == offset)
  }

  /** What the producer has copied of its buffer so far. */
  function Copied(p: Producer): (partial: Bytes) {
    match p
    case Copying(buf, _, _, done) => if done <= |buf| then buf[..done] else []
    case Counted(buf, _, _) => buf
    case _ => []
  }

  /** The semaphore and the two counters. */
  ghost predicate LockInv(s: State) {
    && s.lock + One(ProducerHolds(s.producer)) + One(ConsumerHolds(s.consumer)) == 1
    && s.currentCount == |s.bufs| - s.popped + One(s.producer.Counted?) + One(s.consumer.Settling?)
    && s.totalCount == |s.bufs| + One(s.producer.Counted?)
  }

  ghost predicate Inv(c: Config, init: Bytes, s: State)
    ensures Inv(c, init, s) ==>
      && ValidConfig(c) && ValidRegion(c, init) && ValidRegion(c, s.region)
      && Fitting(c, s.bufs) && s.popped <= |s.bufs| && LockInv(s)
  {
    && ValidConfig(c) && ValidRegion(c, init) && Fitting(c, s.bufs)
    && s.head == Slot(|s.bufs|, c.queueSize) && s.tail == Slot(s.popped, c.queueSize)
    && LockInv(s)
    && ProducerInv(c, s.producer, |s.bufs| - s.popped)
    && |Copied(s.producer)| <= c.messageSize
    && Holds(c, init, s.region, s.bufs, Copied(s.producer))
    && ConsumerInv(c, s.consumer, s.asked, s.offset, s.popped, Records(c, init, s.bufs))
    && s.delivered == ReadSoFar(Records(c, init, s.bufs), s.popped, ReadOffset(c, s.consumer, s.offset))
  }

  lemma {:induction false} InitInv(c: Config, init: Bytes)
    requires ValidConfig(c) && ValidRegion(c, init)
    ensures Inv(c, init, Init(c, init))
  {
    hide CellsHold, CellAfter, Flatten;
    HoldsInit(c, init, c.queueSize);
    assert ReadSoFar([], 0, 0) == [] by { EmptyStream(); }
  }

  // ---------------------------------------------------------------------------------------
  // Every step keeps it
  // ---------------------------------------------------------------------------------------

  lemma {:induction false} SuccIsWrap(index: nat, m: nat)
    requires index < m
    ensures Succ(index, m) == Wrap(index, m)
  {
    ModStep(index, m);
    ModUnique(index, m, 0, index);
  }

  /** The two tests, in terms of the number of records in the ring. */
  lemma {:induction false} Tests(c: Config, init: Bytes, s: State)
    requires Inv(c, init, s)
    ensures 0 <= |s.bufs| - s.popped <= c.queueSize - 1
    ensures IsEmpty(s) <==> |s.bufs| == s.popped
    ensures IsFull(c, s) <==> |s.bufs| - s.popped == c.queueSize - 1
    ensures Succ(s.head, c.queueSize) == Slot(|s.bufs| + 1, c.queueSize)
    ensures Succ(s.tail, c.queueSize) == Slot(s.popped + 1, c.queueSize)
  {
    hide Holds, Records, ReadSoFar, Succ;
    SuccIsWrap(s.head, c.queueSize);
    SuccIsWrap(s.tail, c.queueSize);
    var n := |s.bufs| - s.popped;
    if 0 < n {
      SlotsDiffer(s.popped, |s.bufs|, c.queueSize);
    }
    if n == c.queueSize - 1 {
      SlotLap(s.popped, c.queueSize);
    } else {
      SlotsDiffer(s.popped, |s.bufs| + 1, c.queueSize);
    }
  }

  lemma {:induction false} CopiesInCell(c: Config, init: Bytes, s: State, a: Action)
    requires Inv(c, init, s) && Enabled(c, s, a)
    ensures InBounds(c, s, a)
    ensures a.CopyIn? ==>
      && s.producer.done < c.messageSize
      && CopyInAddress(c, s) == Address(c, s.head, s.producer.done)
    ensures a.CopyOut? ==>
      && s.offset + |s.consumer.out| < c.messageSize
      && CopyOutAddress(c, s) == Address(c, s.tail, s.offset + |s.consumer.out|)
  {
    hide Records, ReadSoFar, CellsHold;
    CellsApart(c, s.head, c.queueSize);
    CellsApart(c, s.tail, c.queueSize);
  }

  predicate ProducerAction(a: Action) {
    || a.PushCall? || a.LockP? || a.SampleEmpty? || a.TestFull? || a.DropP? || a.CheckFull? || a.WaitFull?
    || a.RelockP? || a.CopyIn? || a.Count? || a.StoreHead? || a.UnlockP? || a.PostEmpty?
  }

  /** Producer steps up to the copy, and after the store to head. */
  lemma {:induction false} ProducerWaitsInv(c: Config, init: Bytes, s: State, a: Action)
    requires Inv(c, init, s) && Enabled(c, s, a)
    requires a.PushCall? || a.LockP? || a.SampleEmpty? || a.TestFull? || a.DropP? || a.CheckFull? || a.WaitFull? ||
      a.RelockP?
    ensures Inv(c, init, Step(c, s, a))
  {
    hide CellsHold, Records, ReadSoFar, ConsumerInv, Succ, Slot, CellStart, CellAfter;
    Tests(c, init, s);
  }

  lemma {:induction false} ProducerEndsInv(c: Config, init: Bytes, s: State, a: Action)
    requires Inv(c, init, s) && Enabled(c, s, a) && (a.Count? || a.UnlockP? || a.PostEmpty?)
    ensures Inv(c, init, Step(c, s, a))
  {
    hide CellsHold, Records, ReadSoFar, ConsumerInv, Succ, Slot, CellStart, CellAfter;
    assert a.Count? ==> s.producer.buf[..s.producer.done] == s.producer.buf;
  }

  lemma {:induction false} CopyInInv(c: Config, init: Bytes, s: State)
    requires Inv(c, init, s) && Enabled(c, s, CopyIn) && InBounds(c, s, CopyIn)
    ensures Inv(c, init, Step(c, s, CopyIn))
  {
    hide CellsHold, Records, ReadSoFar, ConsumerInv, CellAfter;
    CopiesInCell(c, init, s, CopyIn);
    var p := s.producer;
    CopyByte(c, init, s.region, s.bufs, Copied(p), p.buf[p.done], c.queueSize);
    assert p.buf[..p.done + 1] == p.buf[..p.done] + [p.buf[p.done]];
  }

  /** A record published while the producer holds the lock does not disturb the consumer. */
  lemma {:induction false} RecordAdded(c: Config, q: Consumer, asked: nat, offset: nat, popped: nat,
                                       records: seq<Bytes>, record: Bytes)
    requires ValidConfig(c) && Uniform(records, c.messageSize) && |record| == c.messageSize
    requires ConsumerInv(c, q, asked, offset, popped, records) && !ConsumerHolds(q)
    requires |records| - popped < c.queueSize - 1
    ensures Uniform(records + [record], c.messageSize)
    ensures ConsumerInv(c, q, asked, offset, popped, records + [record])
  {
  }

  lemma {:induction false} StoreHeadInv(c: Config, init: Bytes, s: State)
    requires Inv(c, init, s) && Enabled(c, s, StoreHead)
    ensures Inv(c, init, Step(c, s, StoreHead))
  {
    hide CellsHold, Records, ReadSoFar, CellAfter, Succ, Slot;
    var p, bufs := s.producer, s.bufs + [s.producer.buf];
    Tests(c, init, s);
    RecordsAppend(c, init, s.bufs, p.buf);
    Publish(c, init, s.region, s.bufs, p.buf, c.queueSize);
    var records, record := Records(c, init, s.bufs), RecordAt(c, init, bufs, |s.bufs|);
    RecordAdded(c, s.consumer, s.asked, s.offset, s.popped, records, record);
    ReadStable(records, record, s.popped, ReadOffset(c, s.consumer, s.offset));
  }

  /** Consumer steps that take no bytes. */
  lemma {:induction false} ConsumerStepInv(c: Config, init: Bytes, s: State, a: Action)
    requires Inv(c, init, s) && Enabled(c, s, a) && InBounds(c, s, a)
    requires !ProducerAction(a) && !a.CopyOut? && !a.AdvanceOffset? && !a.StoreTail?
    ensures Inv(c, init, Step(c, s, a))
  {
    hide Holds, Records, ReadSoFar, ProducerInv, Succ, Slot;
    Tests(c, init, s);
  }

  lemma {:induction false} CopyOutInv(c: Config, init: Bytes, s: State)
    requires Inv(c, init, s) && Enabled(c, s, CopyOut) && InBounds(c, s, CopyOut)
    ensures Inv(c, init, Step(c, s, CopyOut))
  {
    hide CellsHold, Records, ReadSoFar, ProducerInv, CellAfter;
    CopiesInCell(c, init, s, CopyOut);
    RecordHeld(c, init, s.region, s.bufs, Copied(s.producer), s.popped);
    var k, record := s.offset + |s.consumer.out|, Records(c, init, s.bufs)[s.popped];
    LoadByte(c, s.region, s.tail, k);
    assert record[s.offset..k] + [record[k]] == record[s.offset..k + 1];
  }

  lemma {:induction false} AdvanceOffsetInv(c: Config, init: Bytes, s: State)
    requires Inv(c, init, s) && Enabled(c, s, AdvanceOffset)
    ensures Inv(c, init, Step(c, s, AdvanceOffset))
  {
    hide Holds, Records, Flatten, ProducerInv, Slot;
    var q, records := s.consumer, Records(c, init, s.bufs);
    ReadMore(records, s.popped, s.offset, |q.out|);
  }

  lemma {:induction false} StoreTailInv(c: Config, init: Bytes, s: State)
    requires Inv(c, init, s) && Enabled(c, s, StoreTail)
    ensures Inv(c, init, Step(c, s, StoreTail))
  {
    hide Holds, Records, Flatten, Succ, Slot;
    Tests(c, init, s);
    var q, records := s.consumer, Records(c, init, s.bufs);
    ReadMore(records, s.popped, ReadOffset(c, q, s.offset), |q.out|);
  }

  lemma {:induction false} StepInv(c: Config, init: Bytes, s: State, a: Action)
    requires Inv(c, init, s) && Enabled(c, s, a)
    ensures InBounds(c, s, a) && Inv(c, init, Step(c, s, a))
  {
    hide Inv, Step;
    CopiesInCell(c, init, s, a);
    if a.CopyIn? {
      CopyInInv(c, init, s);
    } else if a.StoreHead? {
      StoreHeadInv(c, init, s);
    } else if a.Count? || a.UnlockP? || a.PostEmpty? {
      ProducerEndsInv(c, init, s, a);
    } else if ProducerAction(a) {
      ProducerWaitsInv(c, init, s, a);
    } else if a.CopyOut? {
      CopyOutInv(c, init, s);
    } else if a.AdvanceOffset? {
      AdvanceOffsetInv(c, init, s);
    } else if a.StoreTail? {
      StoreTailInv(c, init, s);
    } else {
      ConsumerStepInv(c, init, s, a);
    }
  }
}
