/** What the lock-free ring guarantees over whole runs. */
module PollTheorems {
  import opened Bytes
  import opened Cells
  import opened Fifos
  import opened PollMachine

  /** `t` is reached from `s` by performing `acts` in order. */
  ghost predicate Reaches(c: Config, s: State, acts: seq<Action>, t: State)
    decreases |acts|
  {
    if acts == [] then s == t
    else
      && Enabled(c, s, acts[0]) && InBounds(c, s, acts[0])
      && Reaches(c, Step(c, s, acts[0]), acts[1..], t)
  }

  lemma {:induction false} RunInv(c: Config, init: Bytes, s: State, acts: seq<Action>, t: State)
    requires Inv(c, init, s) && Reaches(c, s, acts, t)
    ensures Inv(c, init, t)
    decreases |acts|
  {
    if acts != [] {
      StepInv(c, init, s, acts[0]);
      RunInv(c, init, Step(c, s, acts[0]), acts[1..], t);
    }
  }

  lemma {:induction false} ReachableInv(c: Config, init: Bytes, acts: seq<Action>, s: State)
    requires ValidConfig(c) && ValidRegion(c, init) && Reaches(c, Init(c, init), acts, s)
    ensures Inv(c, init, s)
  {
    hide Inv, Init;
    InitInv(c, init);
    RunInv(c, init, Init(c, init), acts, s);
  }

  /** The ring is a byte stream: whatever the interleaving and however stale the indices each side
      loads, the bytes delivered are a prefix of the records pushed, in order, and no more than
      queueSize - 1 records are ever in the ring. */
  lemma {:induction false} DeliversPrefix(c: Config, init: Bytes, acts: seq<Action>, s: State)
    requires ValidConfig(c) && ValidRegion(c, init) && Reaches(c, Init(c, init), acts, s)
    ensures Fitting(c, s.bufs)
    ensures 0 <= |s.bufs| - s.popped <= c.queueSize - 1
    ensures s.delivered <= Flatten(Records(c, init, s.bufs))
    ensures Uniform(s.bufs, c.messageSize) ==> s.delivered <= Flatten(s.bufs)
    ensures s.consumer.Idle? ==> |s.delivered| == s.popped * c.messageSize + s.offset
  {
    hide Init, Reaches, Holds;
    ReachableInv(c, init, acts, s);
    assert s.tailCounts[s.tailSeen] <= s.popped;
    ReadIsPrefix(Records(c, init, s.bufs), c.messageSize, s.popped, ReadOffset(c, s.consumer, s.offset));
    if Uniform(s.bufs, c.messageSize) {
      FullPushes(c, init, s.bufs);
    }
  }

  /** Every byte copy of every run stays inside one cell of the message array. */
  lemma {:induction false} CopiesStayInCell(c: Config, init: Bytes, acts: seq<Action>, s: State, a: Action)
    requires ValidConfig(c) && ValidRegion(c, init) && Reaches(c, Init(c, init), acts, s) && Enabled(c, s, a)
    ensures InBounds(c, s, a)
    ensures a.CopyIn? ==>
      var base := s.producer.head * c.messageSize;
      base <= CopyInAddress(c, s) < base + c.messageSize <= c.queueSize * c.messageSize == |s.region|
    ensures a.CopyOut? ==>
      var base := s.consumer.tail * c.messageSize;
      base <= CopyOutAddress(c, s) < base + c.messageSize <= c.queueSize * c.messageSize == |s.region|
  {
    hide Init, Reaches, Holds;
    ReachableInv(c, init, acts, s);
    hide Inv;
    CopiesInCell(c, init, s, a);
    if a.CopyIn? {
      InsideCell(c, s.producer.head, s.producer.done);
    }
    if a.CopyOut? {
      InsideCell(c, s.consumer.tail, s.offset + |s.consumer.out|);
    }
  }

  lemma {:induction false} InsideCell(c: Config, cell: nat, i: nat)
    requires cell < c.queueSize && i < c.messageSize
    ensures CellStart(c, c.queueSize) == c.queueSize * c.messageSize
    ensures
      var base := cell * c.messageSize;
      base <= Address(c, cell, i) < base + c.messageSize <= c.queueSize * c.messageSize
  {
    CellStartIsProduct(c, c.queueSize);
    CellStartIsProduct(c, cell);
    CellsApart(c, cell, c.queueSize);
  }

  /** When both sides are inside their copies, the two byte ranges are disjoint. */
  lemma {:induction false} CopiesDisjoint(c: Config, init: Bytes, acts: seq<Action>, s: State, i: nat, j: nat)
    requires ValidConfig(c) && ValidRegion(c, init) && Reaches(c, Init(c, init), acts, s)
    requires s.producer.Copying? && s.consumer.Reading?
    requires i < |s.producer.buf| && j < s.consumer.size
    ensures s.producer.head * c.messageSize + i != s.consumer.tail * c.messageSize + s.offset + j
  {
    hide Init, Reaches, Holds;
    ReachableInv(c, init, acts, s);
    CurrentInCell(c, init, s);
    CellStartIsProduct(c, s.producer.head);
    CellStartIsProduct(c, s.consumer.tail);
    AddressesDiffer(c, s.producer.head, s.consumer.tail, i, s.offset + j);
  }

  /** The copies are ordered by what each side has loaded, not by luck: before the producer touches
      a cell it has loaded a tail stored after the cell's previous record was finished, and before
      the consumer touches a cell it has loaded a head stored after its record was written. */
  lemma {:induction false} CopiesSynchronised(c: Config, init: Bytes, acts: seq<Action>, s: State)
    requires ValidConfig(c) && ValidRegion(c, init) && Reaches(c, Init(c, init), acts, s)
    ensures s.tailSeen < |s.tailCounts| && s.headSeen < |s.heads|
    ensures s.producer.Copying? ==> s.tailCounts[s.tailSeen] > |s.bufs| - c.queueSize
    ensures s.consumer.Reading? ==> s.headSeen > s.popped
  {
    hide Init, Reaches, Holds;
    ReachableInv(c, init, acts, s);
  }

  /** The abstract queue a state stands for. */
  ghost function Abstract(c: Config, init: Bytes, s: State): (f: Fifo)
    requires Inv(c, init, s)
    ensures ValidFifo(f, c.messageSize)
  {
    hide Inv;
    QueueValid(c, init, s);
    Fifo(Records(c, init, s.bufs)[s.popped..], ReadOffset(c, s.consumer, s.offset))
  }

  lemma {:induction false} QueueValid(c: Config, init: Bytes, s: State)
    requires Inv(c, init, s)
    ensures Uniform(Records(c, init, s.bufs), c.messageSize) && s.popped <= |Records(c, init, s.bufs)|
    ensures 0 <= ReadOffset(c, s.consumer, s.offset) < c.messageSize
    ensures s.popped == |Records(c, init, s.bufs)| ==> ReadOffset(c, s.consumer, s.offset) == 0
  {
    hide Holds, ReadSoFar, Slots, CellStart, ProducerInv;
  }

  /** Forward simulation: the store to head is an append, the store to tail is a read with the same
      bytes, size and return value, and every other step is invisible. */
  lemma {:induction false} SimulatesFifo(c: Config, init: Bytes, s: State, a: Action)
    requires Inv(c, init, s) && Enabled(c, s, a)
    ensures InBounds(c, s, a) && Inv(c, init, Step(c, s, a))
    ensures
      var f, f' := Abstract(c, init, s), Abstract(c, init, Step(c, s, a));
      match a
      case StoreHead =>
        && |f.records| < c.queueSize - 1
        && f' == Append(f, RecordAt(c, init, s.bufs + [s.producer.buf], |s.bufs|))
      case StoreTail =>
        && f.records != []
        && Take(f, c.messageSize, s.asked)
             == (f', Outcome(s.consumer.out, |s.consumer.out|, s.consumer.ret))
      case _ => f' == f
  {
    hide Inv, Step, Abstract, Take;
    StepInv(c, init, s, a);
    match a
    case StoreHead => PushAgrees(c, init, s);
    case StoreTail => ReadAgrees(c, init, s);
    case _ => Invisible(c, init, s, a);
  }

  lemma {:induction false} Invisible(c: Config, init: Bytes, s: State, a: Action)
    requires Inv(c, init, s) && Enabled(c, s, a) && InBounds(c, s, a) && Inv(c, init, Step(c, s, a))
    requires !a.StoreHead? && !a.StoreTail?
    ensures Abstract(c, init, Step(c, s, a)) == Abstract(c, init, s)
  {
    hide Holds, Records, ReadSoFar, CellStart, Slots;
    if a.AdvanceOffset? {
      OffsetAdvanced(c, s.consumer, s.asked, s.offset, s.popped, s.headSeen, Records(c, init, s.bufs));
    }
  }

  lemma {:induction false} PushAgrees(c: Config, init: Bytes, s: State)
    requires Inv(c, init, s) && Enabled(c, s, StoreHead) && Inv(c, init, Step(c, s, StoreHead))
    ensures
      var f, f' := Abstract(c, init, s), Abstract(c, init, Step(c, s, StoreHead));
      && |f.records| < c.queueSize - 1
      && f' == Append(f, RecordAt(c, init, s.bufs + [s.producer.buf], |s.bufs|))
  {
    hide Holds, CellAfter, ReadSoFar;
    assert s.tailCounts[s.tailSeen] <= s.popped;
    RecordsAppend(c, init, s.bufs, s.producer.buf);
  }

  lemma {:induction false} ReadAgrees(c: Config, init: Bytes, s: State)
    requires Inv(c, init, s) && Enabled(c, s, StoreTail) && Inv(c, init, Step(c, s, StoreTail))
    ensures
      var f, f' := Abstract(c, init, s), Abstract(c, init, Step(c, s, StoreTail));
      f.records != [] && Take(f, c.messageSize, s.asked)
        == (f', Outcome(s.consumer.out, |s.consumer.out|, s.consumer.ret))
  {
    hide Holds, Records, ReadSoFar, CellStart, Slots, Slot, ProducerInv;
    var records, q := Records(c, init, s.bufs), s.consumer;
    var f := Abstract(c, init, s);
    assert f.records[0] == records[s.popped];
    if q.finished {
      assert f.records[1..] == records[s.popped + 1..];
    }
  }

  /** A pop returns how far the oldest record of the abstract queue has been read, or 0 if it found the stop flag up. */
  lemma {:induction false} PopsAnswered(c: Config, init: Bytes, s: State, a: Action)
    requires Inv(c, init, s) && Enabled(c, s, a)
    ensures InBounds(c, s, a) && Inv(c, init, Step(c, s, a))
    ensures Step(c, s, a).pops ==
      if a.StoreTail? then s.pops + [Abstract(c, init, Step(c, s, a)).offset]
      else if a.TestStop? && s.stop then s.pops + [0]
      else s.pops
  {
    hide Inv, Step;
    StepInv(c, init, s, a);
    LastAnswer(c, init, s, a);
  }

  lemma {:induction false} LastAnswer(c: Config, init: Bytes, s: State, a: Action)
    requires Inv(c, init, s) && Enabled(c, s, a) && InBounds(c, s, a) && Inv(c, init, Step(c, s, a))
    ensures Step(c, s, a).pops ==
      if a.StoreTail? then s.pops + [Abstract(c, init, Step(c, s, a)).offset]
      else if a.TestStop? && s.stop then s.pops + [0]
      else s.pops
  {
    hide Holds, Records, ReadSoFar, Slot, Slots, CellStart, ProducerInv;
  }

  predicate LongPush(c: Config, a: Action) {
    a.PushCall? && |a.buf| > c.messageSize
  }

  /** The pushes of the run that were called with too long a buffer. */
  function TooLong(c: Config, acts: seq<Action>): (n: nat)
    decreases |acts|
  {
    if acts == [] then 0 else (if LongPush(c, acts[0]) then 1 else 0) + TooLong(c, acts[1..])
  }

  /** Answers other than 0 and -1. */
  function Strange(answers: seq<int>): (n: int) {
    |answers| - Tally(answers, 0) - Tally(answers, -1)
  }

  lemma {:induction false} StepAnswers(c: Config, s: State, a: Action)
    requires Enabled(c, s, a) && InBounds(c, s, a)
    ensures
      var t := Step(c, s, a);
      && Tally(t.pushes, 0) - |t.bufs| == Tally(s.pushes, 0) - |s.bufs|
      && Tally(t.pushes, -1) == Tally(s.pushes, -1) + (if LongPush(c, a) then 1 else 0)
      && Strange(t.pushes) == Strange(s.pushes)
  {
    hide CellStart, Wrap, Tally;
    TallyAppend(s.pushes, 0, 0);
    TallyAppend(s.pushes, 0, -1);
    TallyAppend(s.pushes, -1, 0);
    TallyAppend(s.pushes, -1, -1);
  }

  lemma {:induction false} RunAnswers(c: Config, s: State, acts: seq<Action>, t: State)
    requires Reaches(c, s, acts, t)
    ensures Tally(t.pushes, 0) - |t.bufs| == Tally(s.pushes, 0) - |s.bufs|
    ensures Tally(t.pushes, -1) == Tally(s.pushes, -1) + TooLong(c, acts) && Strange(t.pushes) == Strange(s.pushes)
    decreases |acts|
  {
    hide Step, Enabled, InBounds, Tally, Strange, LongPush;
    if acts != [] {
      StepAnswers(c, s, acts[0]);
      RunAnswers(c, Step(c, s, acts[0]), acts[1..], t);
    }
  }

  /** Over every run a finished push has returned 0 or -1: 0 for each record that has been published, and -1 for
      each buffer that was too long. */
  lemma {:induction false} PushesAnswered(c: Config, init: Bytes, acts: seq<Action>, s: State)
    requires Reaches(c, Init(c, init), acts, s)
    ensures Tally(s.pushes, 0) == |s.bufs|
    ensures Tally(s.pushes, -1) == TooLong(c, acts) && |s.pushes| == Tally(s.pushes, 0) + Tally(s.pushes, -1)
  {
    RunAnswers(c, Init(c, init), acts, s);
  }

  // ---------------------------------------------------------------------------------------
  // The stop flag
  // ---------------------------------------------------------------------------------------

  predicate RaisesStop(acts: seq<Action>) {
    exists k :: 0 <= k < |acts| && acts[k].RaiseStop?
  }

  lemma {:induction false} RaisesLater(acts: seq<Action>)
    requires acts != []
    ensures RaisesStop(acts) <==> acts[0].RaiseStop? || RaisesStop(acts[1..])
  {
    if RaisesStop(acts) && !acts[0].RaiseStop? {
      var k :| 0 <= k < |acts| && acts[k].RaiseStop?;
      assert acts[1..][k - 1].RaiseStop?;
    }
    if RaisesStop(acts[1..]) {
      var k :| 0 <= k < |acts[1..]| && acts[1..][k].RaiseStop?;
      assert acts[k + 1].RaiseStop?;
    }
  }

  /** The flag is up if and only if somebody has put it up. */
  lemma {:induction false} StopExactly(c: Config, s: State, acts: seq<Action>, t: State)
    requires Reaches(c, s, acts, t)
    ensures t.stop <==> s.stop || RaisesStop(acts)
    decreases |acts|
  {
    hide CellStart, RaisesStop;
    if acts == [] {
      assert !RaisesStop([]) by { NoneRaises(); }
    } else {
      RaisesLater(acts);
      StopExactly(c, Step(c, s, acts[0]), acts[1..], t);
    }
  }

  lemma {:induction false} NoneRaises()
    ensures !RaisesStop([])
  {
  }

  /** The consumer has not got past the test of the flag. */
  predicate BeforeTest(q: Consumer) {
    q.Idle? || q.Clamped?
  }

  /** With the flag up a consumer that has not got past the test reads nothing any more, whatever the producer does, and
      every pop it makes returns 0. */
  lemma {:induction false} StoppedReadsNothing(c: Config, s: State, acts: seq<Action>, t: State)
    requires Reaches(c, s, acts, t) && s.stop && BeforeTest(s.consumer)
    ensures t.stop && BeforeTest(t.consumer) && t.delivered == s.delivered && t.popped == s.popped
    ensures s.pops <= t.pops && forall k :: |s.pops| <= k < |t.pops| ==> t.pops[k] == 0
    decreases |acts|
  {
    hide Step, Enabled, InBounds, BeforeTest;
    if acts != [] {
      StoppedStep(c, s, acts[0]);
      StoppedReadsNothing(c, Step(c, s, acts[0]), acts[1..], t);
    }
  }

  lemma {:induction false} StoppedStep(c: Config, s: State, a: Action)
    requires Enabled(c, s, a) && InBounds(c, s, a) && s.stop && BeforeTest(s.consumer)
    ensures
      var t := Step(c, s, a);
      && t.stop && BeforeTest(t.consumer) && t.delivered == s.delivered && t.popped == s.popped
      && (t.pops == s.pops || t.pops == s.pops + [0])
  {
    hide CellStart;
  }

  // ---------------------------------------------------------------------------------------
  // When a side can move
  // ---------------------------------------------------------------------------------------

  /** A load of tail lets the producer through if and only if it shows room: the records pushed less those finished when
      that value was stored leave a cell. So with the ring full every load keeps the producer spinning, and with room
      the newest one lets it through. */
  lemma {:induction false} ProducerWaits(c: Config, init: Bytes, s: State, pos: nat)
    requires Inv(c, init, s) && s.producer.Spinning?
    ensures Enabled(c, s, LoadTail(|s.tails| - 1)) && (s.tailSeen <= pos < |s.tails| ==> Enabled(c, s, LoadTail(pos)))
    ensures Enabled(c, s, LoadTail(pos)) ==>
      && pos < |s.tailCounts|
      && (Step(c, s, LoadTail(pos)).producer.Copying? <==> |s.bufs| - s.tailCounts[pos] < c.queueSize - 1)
      && (!Step(c, s, LoadTail(pos)).producer.Copying? ==> Step(c, s, LoadTail(pos)).producer == s.producer)
    ensures |s.bufs| - s.popped == c.queueSize - 1 && Enabled(c, s, LoadTail(pos)) ==>
      Step(c, s, LoadTail(pos)).producer.Spinning?
    ensures |s.bufs| - s.popped < c.queueSize - 1 ==>
      Step(c, s, LoadTail(|s.tails| - 1)).producer.Copying?
  {
    hide Holds, Records, ReadSoFar, ConsumerInv;
    LoadShowsRoom(c, init, s, |s.tails| - 1);
    if Enabled(c, s, LoadTail(pos)) {
      LoadShowsRoom(c, init, s, pos);
      assert s.tailCounts[pos] <= s.tailCounts[|s.tailCounts| - 1];
    }
  }

  lemma {:induction false} LoadShowsRoom(c: Config, init: Bytes, s: State, pos: nat)
    requires Inv(c, init, s) && s.producer.Spinning? && s.tailSeen <= pos < |s.tails|
    ensures pos < |s.tailCounts| && 0 <= |s.bufs| - s.tailCounts[pos] <= c.queueSize - 1
    ensures s.producer.next == s.tails[pos] <==> |s.bufs| - s.tailCounts[pos] == c.queueSize - 1
  {
    hide Holds, Records, ReadSoFar, ConsumerInv;
    SlotsAt(c, s.tailCounts, pos);
    var n := s.tailCounts[pos];
    assert s.tailCounts[s.tailSeen] <= n <= s.tailCounts[|s.tailCounts| - 1];
    if |s.bufs| - n == c.queueSize - 1 {
      SlotLap(n, c.queueSize);
    } else {
      SlotsDiffer(n, |s.bufs| + 1, c.queueSize);
    }
  }

  /** A load of head lets the consumer through if and only if it shows a record that has not been finished. So with the
      ring empty every load keeps it waiting, and with a record in the ring the newest one lets it through. */
  lemma {:induction false} ConsumerWaits(c: Config, init: Bytes, s: State, pos: nat)
    requires Inv(c, init, s) && s.consumer.Waiting?
    ensures Enabled(c, s, LoadHead(|s.heads| - 1)) && (s.headSeen <= pos < |s.heads| ==> Enabled(c, s, LoadHead(pos)))
    ensures Enabled(c, s, LoadHead(pos)) ==>
      && (Step(c, s, LoadHead(pos)).consumer.Reading? <==> s.popped < pos)
      && (!Step(c, s, LoadHead(pos)).consumer.Reading? ==> Step(c, s, LoadHead(pos)).consumer == s.consumer)
    ensures s.popped == |s.bufs| && Enabled(c, s, LoadHead(pos)) ==>
      Step(c, s, LoadHead(pos)).consumer.Waiting?
    ensures s.popped < |s.bufs| ==> Step(c, s, LoadHead(|s.heads| - 1)).consumer.Reading?
  {
    hide Holds, Records, ReadSoFar;
    LoadShowsRecord(c, init, s, |s.bufs|);
    if Enabled(c, s, LoadHead(pos)) {
      LoadShowsRecord(c, init, s, pos);
    }
  }

  lemma {:induction false} LoadShowsRecord(c: Config, init: Bytes, s: State, pos: nat)
    requires Inv(c, init, s) && s.consumer.Waiting? && s.headSeen <= pos <= |s.bufs|
    ensures |s.heads| == |s.bufs| + 1 && s.popped <= pos
    ensures s.consumer.tail == s.heads[pos] <==> s.popped == pos
  {
    hide Holds, Records, ReadSoFar;
    SlotsAt(c, UpTo(|s.bufs|), pos);
    assert s.tailCounts[s.tailSeen] <= s.popped;
    if s.popped < pos {
      SlotsDiffer(s.popped, pos, c.queueSize);
    }
  }

  /** A ring of a single cell is always both empty and full: no push ever gets past its wait. */
  lemma {:induction false} SingleCellNeverSends(c: Config, init: Bytes, s: State, acts: seq<Action>, t: State)
    requires Inv(c, init, s) && s.bufs == [] && c.queueSize == 1 && Reaches(c, s, acts, t)
    ensures t.bufs == [] && !t.producer.Copying?
    decreases |acts|
  {
    assert s.tailCounts[s.tailSeen] <= s.popped;
    if acts != [] {
      StepInv(c, init, s, acts[0]);
      SingleCellNeverSends(c, init, Step(c, s, acts[0]), acts[1..], t);
    }
  }
}
