/** The semaphore ring as the object `sem_push` and `sem_pop` work on, when they do not have to wait. */
module SemQueue {
  import opened Bytes
  import opened Cells
  import opened Fifos
  import opened SemMachine
  import opened QueueOps
  import PollQueue

  class Queue {
    const mem: array<Byte>     // the shared memory segment
    const base: nat            // sizeof(sem_spsc_queue_header)
    const messageSize: nat
    const queueSize: nat
    var head: nat
    var tail: nat
    var messageOffset: nat
    var currentCount: int
    var totalCount: int
    var stopConsumerPolling: bool
    var stopProducerPolling: bool
    // values of the three semaphores
    var semLock: nat
    var semFull: nat
    var semEmpty: nat

    ghost function Shape(): (c: Config) {
      Config(queueSize, messageSize)
    }

    ghost predicate Fits() {
      ValidConfig(Shape()) && base + CellStart(Shape(), queueSize) <= mem.Length
    }

    ghost function Value(): (s: SemRing)
      requires Fits()
      reads this, mem
    {
      SemRing(Ring(Shape(), head, tail, messageOffset, mem[base..base + CellStart(Shape(), queueSize)]),
              currentCount, totalCount, semLock, semFull, semEmpty)
    }

    ghost predicate Valid()
      reads this, mem
    {
      Fits() && ValidSemRing(Value())
    }

    /** The bytes of the segment outside the message array. */
    ghost function Outside(): (r: (Bytes, Bytes))
      requires Fits()
      reads this, mem
    {
      (mem[..base], mem[base + CellStart(Shape(), queueSize)..])
    }

    /** queue_create: as many cells as fit behind the header, and fresh semaphores. */
    constructor (mem: array<Byte>, base: nat, messageSize: nat)
      requires 1 <= messageSize && messageSize + base <= mem.Length
      ensures this.mem == mem && this.base == base && this.messageSize == messageSize
      ensures Valid() && head == 0 && tail == 0 && messageOffset == 0 && currentCount == 0 && totalCount == 0
      ensures !stopConsumerPolling && !stopProducerPolling
      ensures semLock == 1 && semFull == 1 && semEmpty == 0
      ensures base + queueSize * messageSize <= mem.Length < base + (queueSize + 1) * messageSize
      ensures Contents(Value().ring) == Fifo([], 0)
    {
      var cells := (mem.Length - base) / messageSize;
      PollQueue.CellsFit(base, mem.Length, messageSize);
      CellStartIsProduct(Config(cells, messageSize), cells);
      this.mem := mem;
      this.base := base;
      this.messageSize := messageSize;
      this.queueSize := cells;
      head, tail, messageOffset := 0, 0, 0;
      currentCount, totalCount := 0, 0;
      stopConsumerPolling, stopProducerPolling := false, false;
      // every semaphore starts at 1; the one for "not empty" is taken once
      semFull, semEmpty, semLock := 1, 1 - 1, 1;
    }

    method Enqueue(buf: Bytes)
      requires Fits() && ValidRing(Value().ring) && |buf| <= messageSize && !RingFull(Value().ring)
      modifies this`head, this`currentCount, this`totalCount, mem
      ensures Fits() && Outside() == old(Outside())
      ensures
        var r := old(Value()).ring;
        && CellStart(r.c, r.head) + |buf| <= |r.region|
        && Value() == old(Value()).(
             ring := r.(region := Splice(r.region, CellStart(r.c, r.head), buf), head := Succ(r.head, r.c.queueSize)),
             currentCount := old(currentCount) + 1, totalCount := old(totalCount) + 1)
    {
      hide CellStart;
      ghost var c, was := Shape(), mem[..];
      CellStartIsProduct(c, head);
      CellsApart(c, head, queueSize);
      PollQueue.Memcpy(mem, base + head * messageSize, buf);
      PollQueue.SpliceWindow(was, base, CellStart(c, queueSize), CellStart(c, head), buf);
      currentCount := currentCount + 1;
      totalCount := totalCount + 1;
      head := (head + 1) % queueSize;
    }

    /** sem_push, when there is room or the buffer is too long. */
    method Push(buf: Bytes) returns (ret: int)
      requires Valid()
      requires |buf| <= messageSize ==> !RingFull(Value().ring)
      modifies this`head, this`currentCount, this`totalCount, this`semLock, this`semEmpty, mem
      ensures Valid() && Outside() == old(Outside())
      ensures (Value(), Reply([], 0, ret)) == SemPush(old(Value()), buf)
      ensures ret == 0 || ret == -1
      ensures ret == -1 <==> |buf| > messageSize
      ensures ret == -1 ==> Value() == old(Value())
      ensures ret == 0 ==>
        && Contents(Value().ring) ==
             Append(old(Contents(Value().ring)), Overlay(buf, old(Cell(Shape(), Value().ring.region, head))))
        && semEmpty == old(semEmpty) + One(old(Contents(Value().ring)).records == [])
        && semLock == old(semLock) && semFull == old(semFull) && totalCount == old(totalCount) + 1
    {
      hide CellStart, Splice, CellsFrom, Cell, Overlay, Contents, Append;
      if |buf| > messageSize {
        return -1;
      }
      SemPushAnswers(Value(), buf);
      semLock := semLock - 1;
      var wasEmpty := head == tail;
      Enqueue(buf);
      semLock := semLock + 1;
      if wasEmpty {
        semEmpty := semEmpty + 1;
      }
      ret := 0;
    }

    method Dequeue(size: nat) returns (bytes: Bytes, n: nat, ret: nat)
      requires Fits() && ValidRing(Value().ring) && head != tail
      modifies this`tail, this`messageOffset, this`currentCount
      ensures Fits()
      ensures
        var r := old(Value()).ring;
        var at := CellStart(r.c, r.tail) + r.offset;
        && n == Clamp(messageSize, r.offset, size) && at + n <= |r.region|
        && bytes == r.region[at..at + n]
        && ret == messageOffset
        && Value() ==
             if r.offset + n == messageSize then
               old(Value()).(ring := r.(tail := Succ(r.tail, r.c.queueSize), offset := 0),
                 currentCount := old(currentCount) - 1)
             else old(Value()).(ring := r.(offset := r.offset + n))
    {
      hide CellStart;
      n := size;
      if n + messageOffset > messageSize {
        n := messageSize - messageOffset;
      }
      ghost var c := Shape();
      CellStartIsProduct(c, tail);
      CellsApart(c, tail, queueSize);
      var at := base + tail * messageSize + messageOffset;
      bytes := mem[at..at + n];
      PollQueue.WindowSlice(mem[..], base, CellStart(c, queueSize), CellStart(c, tail) + messageOffset, n);
      messageOffset := messageOffset + n;
      if messageOffset == messageSize {
        tail := (tail + 1) % queueSize;
        currentCount := currentCount - 1;
        messageOffset := 0;
      }
      ret := messageOffset;
    }

    /** sem_pop, when there is a record or the stop flag is up. */
    method Pop(size: nat) returns (bytes: Bytes, n: nat, ret: nat)
      requires Valid()
      requires !stopConsumerPolling ==> head != tail
      modifies this`tail, this`messageOffset, this`currentCount, this`semLock, this`semFull
      ensures Valid()
      ensures (Value(), Reply(bytes, n, ret)) == SemPop(old(Value()), stopConsumerPolling, size)
      ensures !stopConsumerPolling ==>
        && Take(old(Contents(Value().ring)), messageSize, size) ==
             (Contents(Value().ring), Outcome(bytes, n, ret))
        && semFull == old(semFull) + One(|old(Contents(Value().ring)).records| == queueSize - 1)
        && semLock == old(semLock) && semEmpty == old(semEmpty) && totalCount == old(totalCount)
    {
      hide CellStart, CellsFrom, Cell, Contents, Take;
      if stopConsumerPolling {
        return [], size, 0;
      }
      SemPopAnswers(Value(), size);
      semLock := semLock - 1;
      var wasFull := (head + 1) % queueSize == tail;
      bytes, n, ret := Dequeue(size);
      semLock := semLock + 1;
      if wasFull {
        semFull := semFull + 1;
      }
    }
  }
}
