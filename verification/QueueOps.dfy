/** Whole `push` and `pop` operations of the two rings as functions on the header and the message
    array, their meaning as operations on the abstract queue, and the agreement of the two. */
module QueueOps {
  import opened Bytes
  import opened Cells
  import opened Fifos
  import opened SemMachine

  /** Header and message array of a ring between operations. */
  datatype Ring = Ring(c: Config, head: nat, tail: nat, offset: nat, region: Bytes)

  ghost predicate ValidRing(r: Ring) {
    && ValidConfig(r.c) && ValidRegion(r.c, r.region)
    && r.head < r.c.queueSize && r.tail < r.c.queueSize && r.offset < r.c.messageSize
    && (r.head == r.tail ==> r.offset == 0)
  }

  /** What a call gives back: the bytes written to the caller's buffer, the size left in *buf_size and
      the return value. */
  datatype Reply = Reply(bytes: Bytes, size: nat, ret: int)

  /** The bytes of `buf` written over `region` from position `at`. */
  function Splice(region: Bytes, at: nat, buf: Bytes): (r: Bytes)
    requires at + |buf| <= |region|
    ensures |r| == |region|
  {
    region[..at] + buf + region[at + |buf|..]
  }

  lemma {:induction false} SpliceCell(c: Config, region: Bytes, cell: nat, buf: Bytes, other: nat)
    requires ValidConfig(c) && ValidRegion(c, region) && cell < c.queueSize && other < c.queueSize
    requires |buf| <= c.messageSize
    ensures CellStart(c, cell) + |buf| <= |region|
    ensures ValidRegion(c, Splice(region, CellStart(c, cell), buf))
    ensures Cell(c, Splice(region, CellStart(c, cell), buf), other)
         == if other == cell then Overlay(buf, Cell(c, region, cell)) else Cell(c, region, other)
  {
    CellsApart(c, cell, c.queueSize);
    CellsApart(c, other, c.queueSize);
    if cell < other {
      CellsApart(c, cell, other);
    } else if other < cell {
      CellsApart(c, other, cell);
    }
  }

  lemma {:induction false} SliceOfCell(c: Config, region: Bytes, cell: nat, offset: nat, n: nat)
    requires ValidRegion(c, region) && cell < c.queueSize && offset + n <= c.messageSize
    ensures CellStart(c, cell) + offset + n <= |region|
    ensures region[CellStart(c, cell) + offset..CellStart(c, cell) + offset + n]
         == Cell(c, region, cell)[offset..offset + n]
  {
    CellsApart(c, cell, c.queueSize);
    var at := CellStart(c, cell);
    SliceOfSlice(region, at, at + c.messageSize, offset, n);
  }

  lemma {:induction false} SliceOfSlice(s: Bytes, from: nat, to: nat, offset: nat, n: nat)
    requires from + offset + n <= to <= |s|
    ensures s[from + offset..from + offset + n] == s[from..to][offset..offset + n]
  {
    var a, b := s[from + offset..from + offset + n], s[from..to][offset..offset + n];
    forall k | 0 <= k < n
      ensures a[k] == b[k]
    {
    }
  }

  /** Number of records in the ring. */
  function Length(r: Ring): (n: nat)
    requires r.head < r.c.queueSize && r.tail < r.c.queueSize
    ensures n < r.c.queueSize
  {
    if r.tail <= r.head then r.head - r.tail else r.head + r.c.queueSize - r.tail
  }

  /** n consecutive cells from `at` on, with wrap-around. */
  ghost function CellsFrom(c: Config, region: Bytes, at: nat, n: nat): (records: seq<Bytes>)
    requires ValidConfig(c) && ValidRegion(c, region) && at < c.queueSize
    ensures |records| == n && Uniform(records, c.messageSize)
    decreases n
  {
    if n == 0 then [] else [Cell(c, region, at)] + CellsFrom(c, region, Wrap(at, c.queueSize), n - 1)
  }

  /** The abstract queue a ring stands for. */
  ghost function Contents(r: Ring): (f: Fifo)
    requires ValidRing(r)
    ensures ValidFifo(f, r.c.messageSize) && |f.records| == Length(r)
  {
    Fifo(CellsFrom(r.c, r.region, r.tail, Length(r)), r.offset)
  }

  /** The index n advances on. */
  function Advance(at: nat, n: nat, m: nat): (index: nat)
    requires at < m
    ensures index < m
    decreases n
  {
    if n == 0 then at else Advance(Wrap(at, m), n - 1, m)
  }

  lemma {:induction false} AdvanceIs(at: nat, n: nat, m: nat)
    requires at < m && n <= m
    ensures Advance(at, n, m) == if at + n < m then at + n else at + n - m
    decreases n
  {
    if n > 0 {
      AdvanceIs(Wrap(at, m), n - 1, m);
    }
  }

  /** Writing behind the last record adds a record and leaves the others alone. */
  lemma {:induction false} CellsFromAppend(c: Config, region: Bytes, at: nat, n: nat, buf: Bytes)
    requires ValidConfig(c) && ValidRegion(c, region) && at < c.queueSize && n < c.queueSize && |buf| <= c.messageSize
    ensures
      var cell := Advance(at, n, c.queueSize);
      && CellStart(c, cell) + |buf| <= |region|
      && var region' := Splice(region, CellStart(c, cell), buf);
      && ValidRegion(c, region')
      && CellsFrom(c, region', at, n + 1)
         == CellsFrom(c, region, at, n) + [Overlay(buf, Cell(c, region, cell))]
    decreases n
  {
    var cell := Advance(at, n, c.queueSize);
    SpliceCell(c, region, cell, buf, at);
    if n > 0 {
      CellsFromAppend(c, region, Wrap(at, c.queueSize), n - 1, buf);
      AdvanceIs(at, n, c.queueSize);
    }
  }

  // ---------------------------------------------------------------------------------------
  // The lock-free ring
  // ---------------------------------------------------------------------------------------

  /** `push` on a ring it does not have to wait for. */
  function PollPush(r: Ring, buf: Bytes): (res: (Ring, Reply))
    requires ValidRing(r) && (|buf| <= r.c.messageSize ==> Wrap(r.head, r.c.queueSize) != r.tail)
  {
    if |buf| > r.c.messageSize then (r, Reply([], 0, -1))
    else
      CellsApart(r.c, r.head, r.c.queueSize);
      (r.(region := Splice(r.region, CellStart(r.c, r.head), buf), head := Wrap(r.head, r.c.queueSize)),
       Reply([], 0, 0))
  }

  /** `pop` on a ring it does not have to wait for; the size is cut before the stop flag is tested. */
  function PollPop(r: Ring, stop: bool, size: nat): (res: (Ring, Reply))
    requires ValidRing(r) && (!stop ==> r.head != r.tail)
  {
    var n := Clamp(r.c.messageSize, r.offset, size);
    if stop then (r, Reply([], n, 0))
    else
      CellsApart(r.c, r.tail, r.c.queueSize);
      var at := CellStart(r.c, r.tail) + r.offset;
      var bytes := r.region[at..at + n];
      if r.offset + n == r.c.messageSize then
        (r.(offset := 0, tail := Wrap(r.tail, r.c.queueSize)), Reply(bytes, n, 0))
      else
        (r.(offset := r.offset + n), Reply(bytes, n, r.offset + n))
  }

  /** A push that is accepted appends one record: its buffer over what the cell held before. */
  lemma {:induction false} PollPushAppends(r: Ring, buf: Bytes)
    requires ValidRing(r) && |buf| <= r.c.messageSize && Wrap(r.head, r.c.queueSize) != r.tail
    ensures Length(r) < r.c.queueSize - 1
    ensures ValidRing(PollPush(r, buf).0)
    ensures Contents(PollPush(r, buf).0) == Append(Contents(r), Overlay(buf, Cell(r.c, r.region, r.head)))
  {
    AdvanceIs(r.tail, Length(r), r.c.queueSize);
    CellsFromAppend(r.c, r.region, r.tail, Length(r), buf);
  }

  /** A pop is a read of the abstract queue: same bytes, same size, same return value. */
  lemma {:induction false} PollPopTakes(r: Ring, size: nat)
    requires ValidRing(r) && r.head != r.tail
    ensures ValidRing(PollPop(r, false, size).0)
    ensures
      var (r', reply) := PollPop(r, false, size);
      Take(Contents(r), r.c.messageSize, size) == (Contents(r'), Outcome(reply.bytes, reply.size, reply.ret))
  {
    CellsApart(r.c, r.tail, r.c.queueSize);
    var n := Clamp(r.c.messageSize, r.offset, size);
    var cell := Cell(r.c, r.region, r.tail);
    var at := CellStart(r.c, r.tail) + r.offset;
    SliceOfCell(r.c, r.region, r.tail, r.offset, n);
    assert Contents(r).records[0] == cell;
    assert Contents(r).records[1..] == CellsFrom(r.c, r.region, Wrap(r.tail, r.c.queueSize), Length(r) - 1);
  }

  // ---------------------------------------------------------------------------------------
  // The semaphore ring
  // ---------------------------------------------------------------------------------------

  /** The semaphore ring also keeps two counters and three semaphores. */
  datatype SemRing = SemRing(ring: Ring, currentCount: int, totalCount: int, lock: nat, full: nat, empty: nat)

  predicate RingFull(r: Ring)
    requires ValidConfig(r.c)
  {
    Succ(r.head, r.c.queueSize) == r.tail
  }

  /** `sem_push` on a ring it does not have to wait for. */
  function SemPush(s: SemRing, buf: Bytes): (res: (SemRing, Reply))
    requires ValidRing(s.ring) && (|buf| <= s.ring.c.messageSize ==> !RingFull(s.ring) && s.lock > 0)
  {
    var r := s.ring;
    if |buf| > r.c.messageSize then (s, Reply([], 0, -1))
    else
      CellsApart(r.c, r.head, r.c.queueSize);
      var ring := r.(region := Splice(r.region, CellStart(r.c, r.head), buf), head := Succ(r.head, r.c.queueSize));
      (s.(ring := ring, currentCount := s.currentCount + 1, totalCount := s.totalCount + 1,
          empty := if r.head == r.tail then s.empty + 1 else s.empty),
       Reply([], 0, 0))
  }

  /** `sem_pop` on a ring it does not have to wait for; the size is cut after the stop flag is tested. */
  function SemPop(s: SemRing, stop: bool, size: nat): (res: (SemRing, Reply))
    requires ValidRing(s.ring) && (!stop ==> s.ring.head != s.ring.tail && s.lock > 0)
  {
    var r := s.ring;
    if stop then (s, Reply([], size, 0))
    else
      CellsApart(r.c, r.tail, r.c.queueSize);
      var n := Clamp(r.c.messageSize, r.offset, size);
      var at := CellStart(r.c, r.tail) + r.offset;
      var bytes := r.region[at..at + n];
      var full := if RingFull(r) then s.full + 1 else s.full;
      if r.offset + n == r.c.messageSize then
        (s.(ring := r.(tail := Succ(r.tail, r.c.queueSize), offset := 0), currentCount := s.currentCount - 1,
            full := full),
         Reply(bytes, n, 0))
      else
        (s.(ring := r.(offset := r.offset + n), full := full), Reply(bytes, n, r.offset + n))
  }

  /** The counter is the number of records, in the ring as in the concurrent model. */
  ghost predicate ValidSemRing(s: SemRing) {
    ValidRing(s.ring) && s.currentCount == Length(s.ring) && s.lock > 0
  }

  // ---------------------------------------------------------------------------------------
  // Agreement
  // ---------------------------------------------------------------------------------------

  datatype Call = Push(buf: Bytes) | Pop(size: nat)

  /** The call returns without waiting for the other side. */
  predicate PollReady(r: Ring, call: Call)
    requires ValidRing(r)
  {
    match call
    case Push(buf) => |buf| <= r.c.messageSize ==> Wrap(r.head, r.c.queueSize) != r.tail
    case Pop(_) => r.head != r.tail
  }

  predicate SemReady(s: SemRing, call: Call)
    requires ValidSemRing(s)
  {
    match call
    case Push(buf) => |buf| <= s.ring.c.messageSize ==> !RingFull(s.ring)
    case Pop(_) => s.ring.head != s.ring.tail
  }

  function PollCall(r: Ring, call: Call): (res: (Ring, Reply))
    requires ValidRing(r) && PollReady(r, call)
  {
    match call
    case Push(buf) => PollPush(r, buf)
    case Pop(size) => PollPop(r, false, size)
  }

  function SemCall(s: SemRing, call: Call): (res: (SemRing, Reply))
    requires ValidSemRing(s) && SemReady(s, call)
  {
    match call
    case Push(buf) => SemPush(s, buf)
    case Pop(size) => SemPop(s, false, size)
  }

  lemma {:induction false} PollCallValid(r: Ring, call: Call)
    requires ValidRing(r) && PollReady(r, call)
    ensures ValidRing(PollCall(r, call).0)
  {
    match call
    case Push(buf) =>
      if |buf| <= r.c.messageSize {
        PollPushAppends(r, buf);
      }
    case Pop(size) => PollPopTakes(r, size);
  }

  /** Two rings with the same header and bytes: the same calls return at once, and they do the same. */
  lemma {:induction false} CallsAgree(s: SemRing, call: Call)
    requires ValidSemRing(s)
    ensures PollReady(s.ring, call) <==> SemReady(s, call)
    ensures PollReady(s.ring, call) ==>
      && ValidSemRing(SemCall(s, call).0)
      && SemCall(s, call).0.ring == PollCall(s.ring, call).0
      && SemCall(s, call).1 == PollCall(s.ring, call).1
  {
    SuccIsWrap(s.ring.head, s.ring.c.queueSize);
    SuccIsWrap(s.ring.tail, s.ring.c.queueSize);
    if PollReady(s.ring, call) {
      PollCallValid(s.ring, call);
    }
  }

  // ---------------------------------------------------------------------------------------
  // What the calls mean to the caller
  // ---------------------------------------------------------------------------------------

  /** A push answers 0 or -1. It answers -1 if and only if the buffer is longer than a message, and then nothing has
      changed; it answers 0 if and only if there is one record more, and that is the buffer over what the cell held. */
  lemma {:induction false} PushAnswers(r: Ring, buf: Bytes)
    requires ValidRing(r) && PollReady(r, Push(buf))
    ensures
      var (r', reply) := PollPush(r, buf);
      && ValidRing(r') && reply.bytes == [] && reply.size == 0 && reply.ret in {0, -1}
      && (reply.ret == -1 <==> |buf| > r.c.messageSize) && (reply.ret == -1 ==> r' == r)
      && (reply.ret == 0 <==> |Contents(r').records| == |Contents(r).records| + 1)
      && (reply.ret == 0 ==>
            && |buf| <= r.c.messageSize
            && Contents(r') == Append(Contents(r), Overlay(buf, Cell(r.c, r.region, r.head))))
  {
    hide CellsFrom, Cell, Overlay, Splice, CellStart;
    if |buf| <= r.c.messageSize {
      PollPushAppends(r, buf);
    }
  }

  /** The same of sem_push. Besides, sem_empty is posted if and only if a record went into an empty queue, the lock and
      sem_full are left as they were, and both counters count the record. */
  lemma {:induction false} SemPushAnswers(s: SemRing, buf: Bytes)
    requires ValidSemRing(s) && SemReady(s, Push(buf))
    ensures
      var (s', reply) := SemPush(s, buf);
      var r, r' := s.ring, s'.ring;
      && ValidSemRing(s') && reply.bytes == [] && reply.size == 0 && reply.ret in {0, -1}
      && (reply.ret == -1 <==> |buf| > r.c.messageSize) && (reply.ret == -1 ==> s' == s)
      && (reply.ret == 0 <==> |Contents(r').records| == |Contents(r).records| + 1)
      && (reply.ret == 0 ==>
            && |buf| <= r.c.messageSize
            && Contents(r') == Append(Contents(r), Overlay(buf, Cell(r.c, r.region, r.head)))
            && s'.totalCount == s.totalCount + 1 && s'.currentCount == s.currentCount + 1
            && s'.empty == s.empty + One(Contents(r).records == [])
            && s'.lock == s.lock && s'.full == s.full)
  {
    hide CellsFrom, Cell, Overlay, Splice, CellStart;
    CallsAgree(s, Push(buf));
    PushAnswers(s.ring, buf);
  }

  /** sem_pop is a read of the abstract queue. Besides, sem_full is posted if and only if the queue was full, the lock
      and sem_empty are left as they were, and only the counter of records in the ring follows. */
  lemma {:induction false} SemPopAnswers(s: SemRing, size: nat)
    requires ValidSemRing(s) && SemReady(s, Pop(size))
    ensures
      var (s', reply) := SemPop(s, false, size);
      var f := Contents(s.ring);
      && ValidSemRing(s') && f.records != []
      && Take(f, s.ring.c.messageSize, size) == (Contents(s'.ring), Outcome(reply.bytes, reply.size, reply.ret))
      && s'.currentCount == |Contents(s'.ring).records| && s'.totalCount == s.totalCount
      && s'.full == s.full + One(|f.records| == s.ring.c.queueSize - 1)
      && s'.lock == s.lock && s'.empty == s.empty
  {
    hide CellsFrom, Cell, CellStart, Take;
    CallsAgree(s, Pop(size));
    PollPopTakes(s.ring, size);
    SuccIsWrap(s.ring.head, s.ring.c.queueSize);
  }

  /** The replies of a sequence of calls, as far as they return. */
  ghost function PollReplies(r: Ring, calls: seq<Call>): (replies: seq<Reply>)
    requires ValidRing(r)
    decreases |calls|
  {
    if calls == [] || !PollReady(r, calls[0]) then []
    else
      PollCallValid(r, calls[0]);
      var (r', reply) := PollCall(r, calls[0]);
      [reply] + PollReplies(r', calls[1..])
  }

  ghost function SemReplies(s: SemRing, calls: seq<Call>): (replies: seq<Reply>)
    requires ValidSemRing(s)
    decreases |calls|
  {
    if calls == [] || !SemReady(s, calls[0]) then []
    else
      CallsAgree(s, calls[0]);
      var (s', reply) := SemCall(s, calls[0]);
      [reply] + SemReplies(s', calls[1..])
  }

  /** Any sequence of calls gets the same bytes, sizes and return values from both rings, and blocks at
      the same point. */
  lemma {:induction false} RingsAgree(s: SemRing, calls: seq<Call>)
    requires ValidSemRing(s)
    ensures PollReplies(s.ring, calls) == SemReplies(s, calls)
    decreases |calls|
  {
    if calls != [] {
      CallsAgree(s, calls[0]);
      if PollReady(s.ring, calls[0]) {
        RingsAgree(SemCall(s, calls[0]).0, calls[1..]);
      }
    }
  }

  /** With the stop flag up both return 0 and no bytes, but only the lock-free ring cuts the size. */
  lemma {:induction false} StopDiffers(s: SemRing, size: nat)
    requires ValidSemRing(s)
    ensures SemPop(s, true, size) == (s, Reply([], size, 0))
    ensures PollPop(s.ring, true, size).1 == SemPop(s, true, size).1 <==> size + s.ring.offset <= s.ring.c.messageSize
  {
  }
}
