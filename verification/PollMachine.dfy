/** The lock-free ring under every interleaving of one producer and one consumer.

    `push` and `pop` are cut into their loads, stores and single-byte copies. An atomic index is
    the list of values stored into it (its modification order); an acquire load by the other side
    may return any of them that is not older than the one that side saw last. */
module PollMachine {
  import opened Bytes
  import opened Cells
  import opened Fifos

  /** Where the producer is inside `push`. */
  datatype Producer =
    | Idle
    | Entered(buf: Bytes)                                      // size accepted
    | Spinning(buf: Bytes, head: nat, next: nat)               // waiting for room
    | Copying(buf: Bytes, head: nat, next: nat, done: nat)     // inside memcpy

  /** Where the consumer is inside `pop`. */
  datatype Consumer =
    | Idle
    | Clamped(size: nat)                                       // size cut to the record
    | Admitted(size: nat)                                      // stop flag was off
    | Waiting(size: nat, tail: nat)                            // waiting for a record
    | Reading(size: nat, tail: nat, next: nat, out: Bytes)     // inside memcpy
    | Publishing(out: Bytes, store: nat, ret: nat, finished: bool)

  datatype State = State(
    // shared memory
    region: Bytes,
    heads: seq<nat>,          // modification order of head
    tails: seq<nat>,          // modification order of tail
    offset: nat,              // message_offset
    stop: bool,               // stop_consumer_polling
    // the two threads
    producer: Producer,
    tailSeen: nat,            // position in `tails` of the producer's last load
    consumer: Consumer,
    headSeen: nat,            // position in `heads` of the consumer's last load
    // history
    asked: nat,               // size the current pop was called with
    bufs: seq<Bytes>,         // buffers published so far
    delivered: Bytes,         // bytes handed back by completed pops
    popped: nat,              // records completely read
    tailCounts: seq<nat>,     // `popped` at each store to tail
    pushes: seq<int>,         // return values of finished pushes
    pops: seq<nat>            // return values of finished pops
  )

  datatype Action =
    | PushCall(buf: Bytes)
    | LoadOwnHead
    | LoadTail(pos: nat)
    | CopyIn
    | StoreHead
    | PopCall(size: nat)
    | TestStop
    | LoadOwnTail
    | LoadHead(pos: nat)
    | CopyOut
    | AdvanceOffset
    | StoreTail
    | RaiseStop

  /** The ring as `queue_create` leaves it; the message array itself is not cleared. */
  function Init(c: Config, init: Bytes): (s: State) {
    State(init, [0], [0], 0, false, Producer.Idle, 0, Consumer.Idle, 0, 0, [], [], 0, [0], [], [])
  }

  predicate Enabled(c: Config, s: State, a: Action) {
    match a
    case PushCall(buf) => s.producer.Idle?
    case LoadOwnHead => s.producer.Entered? && s.heads != []
    case LoadTail(pos) => s.producer.Spinning? && s.tailSeen <= pos < |s.tails|
    case CopyIn => s.producer.Copying? && s.producer.done < |s.producer.buf|
    case StoreHead => s.producer.Copying? && s.producer.done == |s.producer.buf|
    case PopCall(size) => s.consumer.Idle? && s.offset <= c.messageSize
    case TestStop => s.consumer.Clamped?
    case LoadOwnTail => s.consumer.Admitted? && s.tails != []
    case LoadHead(pos) => s.consumer.Waiting? && s.headSeen <= pos < |s.heads|
    case CopyOut => s.consumer.Reading? && |s.consumer.out| < s.consumer.size
    case AdvanceOffset => s.consumer.Reading? && |s.consumer.out| == s.consumer.size
    case StoreTail => s.consumer.Publishing?
    case RaiseStop => true
  }

  /** The address a byte copy touches. */
  function CopyInAddress(c: Config, s: State): (a: nat)
    requires s.producer.Copying?
  {
    CellStart(c, s.producer.head) + s.producer.done
  }

  function CopyOutAddress(c: Config, s: State): (a: nat)
    requires s.consumer.Reading?
  {
    CellStart(c, s.consumer.tail) + s.offset + |s.consumer.out|
  }

  /** Every byte copied lies inside the message array. */
  predicate InBounds(c: Config, s: State, a: Action)
    requires Enabled(c, s, a)
  {
    && (a.CopyIn? ==> CopyInAddress(c, s) < |s.region|)
    && (a.CopyOut? ==> CopyOutAddress(c, s) < |s.region|)
  }

  function Step(c: Config, s: State, a: Action): (s': State)
    requires Enabled(c, s, a) && InBounds(c, s, a)
  {
    match a
    case PushCall(buf) =>
      if |buf| > c.messageSize then s.(pushes := s.pushes + [-1])
      else s.(producer := Entered(buf))
    case LoadOwnHead =>
      var head := s.heads[|s.heads| - 1];
      s.(producer := Spinning(s.producer.buf, head, Wrap(head, c.queueSize)))
    case LoadTail(pos) =>
      var p := s.producer;
      s.(tailSeen := pos,
         producer := if p.next == s.tails[pos] then p else Copying(p.buf, p.head, p.next, 0))
    case CopyIn =>
      var p := s.producer;
      s.(region := s.region[CopyInAddress(c, s) := p.buf[p.done]],
         producer := p.(done := p.done + 1))
    case StoreHead =>
      var p := s.producer;
      s.(heads := s.heads + [p.next], bufs := s.bufs + [p.buf], pushes := s.pushes + [0], producer := Producer.Idle)
    case PopCall(size) =>
      s.(asked := size, consumer := Clamped(Clamp(c.messageSize, s.offset, size)))
    case TestStop =>
      if s.stop then s.(pops := s.pops + [0], consumer := Consumer.Idle)
      else s.(consumer := Admitted(s.consumer.size))
    case LoadOwnTail =>
      s.(consumer := Waiting(s.consumer.size, s.tails[|s.tails| - 1]))
    case LoadHead(pos) =>
      var q := s.consumer;
      s.(headSeen := pos,
         consumer := if q.tail == s.heads[pos] then q
                     else Reading(q.size, q.tail, Wrap(q.tail, c.queueSize), []))
    case CopyOut =>
      var q := s.consumer;
      s.(consumer := Reading(q.size, q.tail, q.next, q.out + [s.region[CopyOutAddress(c, s)]]))
    case AdvanceOffset =>
      var q := s.consumer;
      var offset := s.offset + q.size;
      if offset == c.messageSize then
        s.(offset := 0, consumer := Publishing(q.out, q.next, 0, true))
      else
        s.(offset := offset, consumer := Publishing(q.out, q.tail, offset, false))
    case StoreTail =>
      var q := s.consumer;
      var popped := if q.finished then s.popped + 1 else s.popped;
      s.(tails := s.tails + [q.store], tailCounts := s.tailCounts + [popped], popped := popped,
         delivered := s.delivered + q.out, pops := s.pops + [q.ret], consumer := Consumer.Idle)
    case RaiseStop =>
      s.(stop := true)
  }

  // ---------------------------------------------------------------------------------------
  // The invariant
  // ---------------------------------------------------------------------------------------

  // Each conjunct names the parts of the state it depends on.

  /** The cells a list of counters names. */
  function Slots(c: Config, counts: seq<nat>): (slots: seq<nat>)
    requires ValidConfig(c)
    ensures |slots| == |counts|
  {
    if counts == [] then []
    else Slots(c, counts[..|counts| - 1]) + [Slot(counts[|counts| - 1], c.queueSize)]
  }

  lemma {:induction false} SlotsAt(c: Config, counts: seq<nat>, i: nat)
    requires ValidConfig(c) && i < |counts|
    ensures Slots(c, counts)[i] == Slot(counts[i], c.queueSize)
  {
    if i < |counts| - 1 {
      SlotsAt(c, counts[..|counts| - 1], i);
    }
  }

  lemma {:induction false} SlotsAppend(c: Config, counts: seq<nat>, count: nat)
    requires ValidConfig(c)
    ensures Slots(c, counts + [count]) == Slots(c, counts) + [Slot(count, c.queueSize)]
  {
    assert (counts + [count])[..|counts|] == counts;
  }

  /** 0, 1, .., n. */
  function UpTo(n: nat): (counts: seq<nat>)
    ensures |counts| == n + 1 && forall k: nat :: k <= n ==> counts[k] == k
  {
    if n == 0 then [0] else UpTo(n - 1) + [n]
  }

  ghost predicate Nondecreasing(counts: seq<nat>) {
    forall i, j :: 0 <= i <= j < |counts| ==> counts[i] <= counts[j]
  }

  /** The producer's position; `seen` is the number of finished records it knows of. */
  ghost predicate ProducerInv(c: Config, p: Producer, pushed: nat, seen: nat)
    requires ValidConfig(c)
  {
    && pushed - seen <= c.queueSize - 1
    && (!p.Idle? ==> |p.buf| <= c.messageSize)
    && (p.Spinning? || p.Copying? ==>
          p.head == Slot(pushed, c.queueSize) && p.next == Slot(pushed + 1, c.queueSize))
    && (p.Copying? ==> p.done <= |p.buf| && pushed - seen <= c.queueSize - 2)
  }

  /** What the producer has copied of its buffer so far. */
  function Copied(p: Producer): (partial: Bytes) {
    if p.Copying? && p.done <= |p.buf| then p.buf[..p.done] else []
  }

  /** Bytes of the current record read by completed pops. */
  ghost function ReadOffset(c: Config, q: Consumer, offset: nat): int {
    match q
    case Publishing(out, store, ret, finished) =>
      if finished then c.messageSize - |out| else offset - |out|
    case _ => offset
  }

  /** The consumer's position; `record` is the record it is working on, if there is one. */
  ghost predicate ConsumerInv(c: Config, q: Consumer, asked: nat, offset: nat, popped: nat, seen: nat,
                              records: seq<Bytes>)
    requires ValidConfig(c) && Uniform(records, c.messageSize)
  {
    var read := ReadOffset(c, q, offset);
    && popped <= seen <= |records|
    && offset < c.messageSize && 0 <= read < c.messageSize
    && (0 < read ==> popped < seen)
    && (q.Clamped? || q.Admitted? || q.Waiting? || q.Reading? ==> q.size == Clamp(c.messageSize, offset, asked))
    && (q.Waiting? || q.Reading? ==> q.tail == Slot(popped, c.queueSize))
    && (q.Reading? ==>
          && popped < seen
          && q.next == Slot(popped + 1, c.queueSize)
          && |q.out| <= q.size
          && q.out == records[popped][offset..offset + |q.out|])
    && (q.Publishing? ==>
          && popped < seen
          && |q.out| == Clamp(c.messageSize, read, asked)
          && q.out == records[popped][read..read + |q.out|]
          && q.finished == (read + |q.out| == c.messageSize)
          && q.store == Slot(if q.finished then popped + 1 else popped, c.queueSize)
          && q.ret == offset && (q.finished ==> offset == 0))
  }

  ghost predicate Inv(c: Config, init: Bytes, s: State)
    ensures Inv(c, init, s) ==>
      && ValidConfig(c) && ValidRegion(c, init) && ValidRegion(c, s.region)
      && Fitting(c, s.bufs) && s.popped <= |s.bufs|
      && (!s.producer.Idle? ==> |s.producer.buf| <= c.messageSize)
  {
    && ValidConfig(c) && ValidRegion(c, init) && Fitting(c, s.bufs)
    && s.heads == Slots(c, UpTo(|s.bufs|))
    && s.tails == Slots(c, s.tailCounts)
    && Nondecreasing(s.tailCounts)
    && s.tailSeen < |s.tailCounts| && s.tailCounts[|s.tailCounts| - 1] == s.popped
    && ProducerInv(c, s.producer, |s.bufs|, s.tailCounts[s.tailSeen])
    && Holds(c, init, s.region, s.bufs, Copied(s.producer))
    && ConsumerInv(c, s.consumer, s.asked, s.offset, s.popped, s.headSeen, Records(c, init, s.bufs))
    && s.delivered == ReadSoFar(Records(c, init, s.bufs), s.popped, ReadOffset(c, s.consumer, s.offset))
  }

  lemma {:induction false} InitInv(c: Config, init: Bytes)
    requires ValidConfig(c) && ValidRegion(c, init)
    ensures Inv(c, init, Init(c, init))
  {
    hide CellsHold, CellAfter, Flatten;
    HoldsInit(c, init, c.queueSize);
    assert UpTo(0) == [0] && Slots(c, [0]) == [0];
    assert ReadSoFar([], 0, 0) == [] by { EmptyStream(); }
  }

  // ---------------------------------------------------------------------------------------
  // Every step keeps it
  // ---------------------------------------------------------------------------------------

  /** Copies stay inside the cell they are meant for, in every state the ring can reach. */
  lemma {:induction false} CopiesInCell(c: Config, init: Bytes, s: State, a: Action)
    requires Inv(c, init, s) && Enabled(c, s, a)
    ensures InBounds(c, s, a)
    ensures a.CopyIn? ==>
      && s.producer.head < c.queueSize && s.producer.done < c.messageSize
      && CopyInAddress(c, s) == Address(c, s.producer.head, s.producer.done)
    ensures a.CopyOut? ==>
      && s.consumer.tail < c.queueSize && s.offset + |s.consumer.out| < c.messageSize
      && CopyOutAddress(c, s) == Address(c, s.consumer.tail, s.offset + |s.consumer.out|)
  {
    if a.CopyIn? {
      CellsApart(c, s.producer.head, c.queueSize);
    }
    if a.CopyOut? {
      CellsApart(c, s.consumer.tail, c.queueSize);
    }
  }

  /** A load of tail that differs from `next` proves that there is room. */
  lemma {:induction false} LoadTailInv(c: Config, init: Bytes, s: State, pos: nat)
    requires Inv(c, init, s) && Enabled(c, s, LoadTail(pos))
    ensures Inv(c, init, Step(c, s, LoadTail(pos)))
  {
    hide Holds, Records, ReadSoFar;
    var count := s.tailCounts[pos];
    SlotsAt(c, s.tailCounts, pos);
    assert s.tailCounts[s.tailSeen] <= count <= s.popped;
    if |s.bufs| - count == c.queueSize - 1 {
      SlotLap(count, c.queueSize);
    }
  }

  /** A consumer step that delivers nothing concerns the consumer only. */
  lemma {:induction false} ConsumerMoved(c: Config, init: Bytes, s: State, q: Consumer, asked: nat, offset: nat,
                                         seen: nat, stop: bool)
    requires Inv(c, init, s)
    requires ConsumerInv(c, q, asked, offset, s.popped, seen, Records(c, init, s.bufs))
    requires ReadOffset(c, q, offset) == ReadOffset(c, s.consumer, s.offset)
    ensures Inv(c, init, s.(consumer := q, asked := asked, offset := offset, headSeen := seen, stop := stop))
  {
  }

  /** A load of head that differs from the own tail proves that there is a record. */
  lemma {:induction false} LoadHeadInv(c: Config, init: Bytes, s: State, pos: nat)
    requires Inv(c, init, s) && Enabled(c, s, LoadHead(pos))
    ensures Inv(c, init, Step(c, s, LoadHead(pos)))
  {
    SlotsAt(c, UpTo(|s.bufs|), pos);
    ConsumerMoved(c, init, s, Step(c, s, LoadHead(pos)).consumer, s.asked, s.offset, pos, s.stop);
  }

  lemma {:induction false} CopyInInv(c: Config, init: Bytes, s: State)
    requires Inv(c, init, s) && Enabled(c, s, CopyIn) && InBounds(c, s, CopyIn)
    ensures Inv(c, init, Step(c, s, CopyIn))
  {
    hide Records, ReadSoFar, CellsHold, ConsumerInv, CellAfter, Slots;
    CopiesInCell(c, init, s, CopyIn);
    var p := s.producer;
    CopyByte(c, init, s.region, s.bufs, Copied(p), p.buf[p.done], c.queueSize);
    assert p.buf[..p.done + 1] == p.buf[..p.done] + [p.buf[p.done]];
  }

  lemma {:induction false} RecordAdded(c: Config, q: Consumer, asked: nat, offset: nat, popped: nat, seen: nat,
                                       records: seq<Bytes>, record: Bytes)
    requires ValidConfig(c) && Uniform(records, c.messageSize) && |record| == c.messageSize
    requires ConsumerInv(c, q, asked, offset, popped, seen, records)
    ensures Uniform(records + [record], c.messageSize)
    ensures ConsumerInv(c, q, asked, offset, popped, seen, records + [record])
  {
  }

  lemma {:induction false} StoreHeadInv(c: Config, init: Bytes, s: State)
    requires Inv(c, init, s) && Enabled(c, s, StoreHead)
    ensures Inv(c, init, Step(c, s, StoreHead))
  {
    hide Records, ReadSoFar, CellsHold, CellAfter;
    var p, bufs := s.producer, s.bufs + [s.producer.buf];
    RecordsAppend(c, init, s.bufs, p.buf);
    assert Copied(p) == p.buf;
    Publish(c, init, s.region, s.bufs, p.buf, c.queueSize);
    var records, record := Records(c, init, s.bufs), RecordAt(c, init, bufs, |s.bufs|);
    SlotsAppend(c, UpTo(|s.bufs|), |s.bufs| + 1);
    RecordAdded(c, s.consumer, s.asked, s.offset, s.popped, s.headSeen, records, record);
    assert Records(c, init, bufs) == records + [record];
    ReadStable(records, record, s.popped, ReadOffset(c, s.consumer, s.offset));
  }

  /** While the consumer reads, its cell holds the current record: the producer is elsewhere. */
  lemma {:induction false} CurrentInCell(c: Config, init: Bytes, s: State)
    requires Inv(c, init, s) && s.consumer.Reading?
    ensures s.consumer.tail < c.queueSize && s.popped < |s.bufs|
    ensures Cell(c, s.region, s.consumer.tail) == Records(c, init, s.bufs)[s.popped]
    ensures s.producer.Copying? ==> s.producer.head != s.consumer.tail
  {
    assert s.tailCounts[s.tailSeen] <= s.popped;
    RecordHeld(c, init, s.region, s.bufs, Copied(s.producer), s.popped);
  }

  /** One more byte of the current record. */
  lemma {:induction false} ReadByte(c: Config, q: Consumer, asked: nat, offset: nat, popped: nat, seen: nat,
                                    records: seq<Bytes>, b: Byte)
    requires ValidConfig(c) && Uniform(records, c.messageSize)
    requires ConsumerInv(c, q, asked, offset, popped, seen, records) && q.Reading? && |q.out| < q.size
    requires b == records[popped][offset + |q.out|]
    ensures ConsumerInv(c, Reading(q.size, q.tail, q.next, q.out + [b]), asked, offset, popped, seen, records)
  {
    var k, record := offset + |q.out|, records[popped];
    assert record[offset..k] + [record[k]] == record[offset..k + 1];
  }

  /** A byte read by the consumer is the byte of the current record at that position. */
  lemma {:induction false} CopyOutInv(c: Config, init: Bytes, s: State)
    requires Inv(c, init, s) && Enabled(c, s, CopyOut) && InBounds(c, s, CopyOut)
    ensures Inv(c, init, Step(c, s, CopyOut))
  {
    hide Records, ReadSoFar, CellsHold, Slots;
    CopiesInCell(c, init, s, CopyOut);
    CurrentInCell(c, init, s);
    var records, b := Records(c, init, s.bufs), s.region[CopyOutAddress(c, s)];
    LoadByte(c, s.region, s.consumer.tail, s.offset + |s.consumer.out|);
    ReadByte(c, s.consumer, s.asked, s.offset, s.popped, s.headSeen, records, b);
    ConsumerMoved(c, init, s, Step(c, s, CopyOut).consumer, s.asked, s.offset, s.headSeen, s.stop);
  }

  /** All bytes asked for have been copied: the offset moves, the record may be finished. */
  lemma {:induction false} OffsetAdvanced(c: Config, q: Consumer, asked: nat, offset: nat, popped: nat, seen: nat,
                                          records: seq<Bytes>)
    requires ValidConfig(c) && Uniform(records, c.messageSize)
    requires ConsumerInv(c, q, asked, offset, popped, seen, records) && q.Reading? && |q.out| == q.size
    ensures offset + q.size == c.messageSize ==>
      ConsumerInv(c, Publishing(q.out, q.next, 0, true), asked, 0, popped, seen, records)
    ensures offset + q.size != c.messageSize ==>
      ConsumerInv(c, Publishing(q.out, q.tail, offset + q.size, false), asked, offset + q.size, popped, seen, records)
  {
    if offset + q.size == c.messageSize {
      assert ReadOffset(c, Publishing(q.out, q.next, 0, true), 0) == offset;
    }
  }

  lemma {:induction false} StoreTailInv(c: Config, init: Bytes, s: State)
    requires Inv(c, init, s) && Enabled(c, s, StoreTail)
    ensures Inv(c, init, Step(c, s, StoreTail))
  {
    hide Holds, Records, Flatten, Slots;
    var s' := Step(c, s, StoreTail);
    SlotsAppend(c, s.tailCounts, s'.popped);
    assert Nondecreasing(s'.tailCounts);
    var records := Records(c, init, s.bufs);
    ReadMore(records, s.popped, ReadOffset(c, s.consumer, s.offset), |s.consumer.out|);
    assert s'.tailCounts[s.tailSeen] == s.tailCounts[s.tailSeen];
    assert ConsumerInv(c, Consumer.Idle, s.asked, s.offset, s'.popped, s.headSeen, records);
  }

  lemma {:induction false} AdvanceOffsetInv(c: Config, init: Bytes, s: State)
    requires Inv(c, init, s) && Enabled(c, s, AdvanceOffset)
    ensures Inv(c, init, Step(c, s, AdvanceOffset))
  {
    OffsetAdvanced(c, s.consumer, s.asked, s.offset, s.popped, s.headSeen, Records(c, init, s.bufs));
    var s' := Step(c, s, AdvanceOffset);
    ConsumerMoved(c, init, s, s'.consumer, s.asked, s'.offset, s.headSeen, s.stop);
  }

  /** Calls, and loads of a side's own index. */
  lemma {:induction false} ProducerStarts(c: Config, init: Bytes, s: State, a: Action)
    requires Inv(c, init, s) && Enabled(c, s, a) && (a.PushCall? || a.LoadOwnHead?)
    ensures Inv(c, init, Step(c, s, a))
  {
    hide Records, ReadSoFar, Holds, ConsumerInv, CellStart;
    if a.LoadOwnHead? {
      SlotsAt(c, UpTo(|s.bufs|), |s.bufs|);
    }
  }

  lemma {:induction false} ConsumerStarts(c: Config, init: Bytes, s: State, a: Action)
    requires Inv(c, init, s) && Enabled(c, s, a) && (a.PopCall? || a.TestStop? || a.LoadOwnTail? || a.RaiseStop?)
    ensures Inv(c, init, Step(c, s, a))
  {
    hide Records, ReadSoFar, Holds, ProducerInv, CellStart;
    if a.LoadOwnTail? {
      SlotsAt(c, s.tailCounts, |s.tails| - 1);
    }
  }

  lemma {:induction false} StepInv(c: Config, init: Bytes, s: State, a: Action)
    requires Inv(c, init, s) && Enabled(c, s, a)
    ensures InBounds(c, s, a) && Inv(c, init, Step(c, s, a))
  {
    hide Inv, Step;
    CopiesInCell(c, init, s, a);
    match a
    case PushCall(_) => ProducerStarts(c, init, s, a);
    case LoadOwnHead => ProducerStarts(c, init, s, a);
    case LoadTail(pos) => LoadTailInv(c, init, s, pos);
    case LoadHead(pos) => LoadHeadInv(c, init, s, pos);
    case CopyIn => CopyInInv(c, init, s);
    case StoreHead => StoreHeadInv(c, init, s);
    case CopyOut => CopyOutInv(c, init, s);
    case StoreTail => StoreTailInv(c, init, s);
    case AdvanceOffset => AdvanceOffsetInv(c, init, s);
    case _ => ConsumerStarts(c, init, s, a);
  }
}
