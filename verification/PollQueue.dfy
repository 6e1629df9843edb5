/** The lock-free ring as the object `push` and `pop` work on, when they do not have to wait. */
module PollQueue {
  import opened Bytes
  import opened Cells
  import opened Fifos
  import opened QueueOps

  /** Copy `src` into `dst` from position `at` on. */
  method Memcpy(dst: array<Byte>, at: nat, src: Bytes)
    requires at + |src| <= dst.Length
    modifies dst
    ensures dst[..] == Splice(old(dst[..]), at, src)
  {
    var i := 0;
    ghost var was := dst[..];
    while i < |src|
      invariant 0 <= i <= |src|
      invariant dst[..] == Splice(was, at, src[..i])
    {
      dst[at + i] := src[i];
      i := i + 1;
    }
    assert src[..i] == src;
  }

  /** Cutting a window out of the memory commutes with writing inside the window. */
  lemma {:induction false} SpliceWindow(mem: Bytes, base: nat, size: nat, at: nat, src: Bytes)
    requires base + size <= |mem| && at + |src| <= size
    ensures Splice(mem, base + at, src)[base..base + size] == Splice(mem[base..base + size], at, src)
    ensures Splice(mem, base + at, src)[..base] == mem[..base]
    ensures Splice(mem, base + at, src)[base + size..] == mem[base + size..]
  {
  }

  class Queue {
    const mem: array<Byte>     // the shared memory segment
    const base: nat            // sizeof(spsc_queue_header)
    const messageSize: nat
    const queueSize: nat
    var head: nat
    var tail: nat
    var messageOffset: nat
    var currentCount: int
    var totalCount: int
    var stopConsumerPolling: bool
    var stopProducerPolling: bool

    ghost function Shape(): (c: Config) {
      Config(queueSize, messageSize)
    }

    /** The message array lies inside the segment, behind the header. */
    ghost predicate Fits() {
      ValidConfig(Shape()) && base + CellStart(Shape(), queueSize) <= mem.Length
    }

    ghost function Value(): (r: Ring)
      requires Fits()
      reads this, mem
    {
      Ring(Shape(), head, tail, messageOffset, mem[base..base + CellStart(Shape(), queueSize)])
    }

    ghost predicate Valid()
      reads this, mem
    {
      Fits() && ValidRing(Value())
    }

    /** The bytes of the segment outside the message array. */
    ghost function Outside(): (r: (Bytes, Bytes))
      requires Fits()
      reads this, mem
    {
      (mem[..base], mem[base + CellStart(Shape(), queueSize)..])
    }

    /** queue_create: as many cells as fit behind the header, empty. */
    constructor (mem: array<Byte>, base: nat, messageSize: nat)
      requires 1 <= messageSize && messageSize + base <= mem.Length
      ensures this.mem == mem && this.base == base && this.messageSize == messageSize
      ensures Valid() && head == 0 && tail == 0 && messageOffset == 0 && currentCount == 0 && totalCount == 0
      ensures !stopConsumerPolling && !stopProducerPolling
      ensures queueSize == (mem.Length - base) / messageSize
      ensures base + queueSize * messageSize <= mem.Length < base + (queueSize + 1) * messageSize
      ensures Contents(Value()) == Fifo([], 0)
    {
      var cells := (mem.Length - base) / messageSize;
      CellsFit(base, mem.Length, messageSize);
      CellStartIsProduct(Config(cells, messageSize), cells);
      this.mem := mem;
      this.base := base;
      this.messageSize := messageSize;
      this.queueSize := cells;
      head, tail, messageOffset := 0, 0, 0;
      currentCount, totalCount := 0, 0;
      stopConsumerPolling, stopProducerPolling := false, false;
    }

    /** push, when there is room or the buffer is too long. */
    method Push(buf: Bytes) returns (ret: int)
      requires Valid()
      requires |buf| <= messageSize ==> Wrap(head, queueSize) != tail
      modifies this`head, mem
      ensures Valid() && Outside() == old(Outside())
      ensures (Value(), Reply([], 0, ret)) == PollPush(old(Value()), buf)
      ensures ret == 0 || ret == -1
      ensures ret == -1 <==> |buf| > messageSize
      ensures ret == -1 ==> Value() == old(Value())
      ensures ret == 0 ==>
        Contents(Value()) == Append(old(Contents(Value())), Overlay(buf, old(Cell(Shape(), Value().region, head))))
    {
      hide CellsFrom, Cell, CellStart, Overlay, Splice, Contents, Append;
      if |buf| > messageSize {
        return -1;
      }
      var writerHead := head;
      var nextWriterHead := writerHead + 1;
      if nextWriterHead == queueSize {
        nextWriterHead := 0;
      }
      ghost var c, was := Shape(), mem[..];
      CellStartIsProduct(c, writerHead);
      CellsApart(c, writerHead, queueSize);
      PushAnswers(Value(), buf);
      Memcpy(mem, base + writerHead * messageSize, buf);
      SpliceWindow(was, base, CellStart(c, queueSize), CellStart(c, writerHead), buf);
      head := nextWriterHead;
      ret := 0;
    }

    /** pop, when there is a record or the stop flag is up. */
    method Pop(size: nat) returns (bytes: Bytes, n: nat, ret: nat)
      requires Valid()
      requires !stopConsumerPolling ==> head != tail
      modifies this`tail, this`messageOffset
      ensures Valid()
      ensures (Value(), Reply(bytes, n, ret)) == PollPop(old(Value()), stopConsumerPolling, size)
      ensures !stopConsumerPolling ==>
        Take(old(Contents(Value())), messageSize, size) == (Contents(Value()), Outcome(bytes, n, ret))
    {
      hide CellsFrom, Cell, CellStart, Take, Contents;
      n := size;
      if n + messageOffset > messageSize {
        n := messageSize - messageOffset;
      }
      if stopConsumerPolling {
        return [], n, 0;
      }
      var readerTail := tail;
      var nextReaderTail := readerTail + 1;
      if nextReaderTail == queueSize {
        nextReaderTail := 0;
      }
      ghost var c := Shape();
      CellStartIsProduct(c, readerTail);
      CellsApart(c, readerTail, queueSize);
      PollPopTakes(Value(), size);
      var at := base + readerTail * messageSize + messageOffset;
      bytes := mem[at..at + n];
      WindowSlice(mem[..], base, CellStart(c, queueSize), CellStart(c, readerTail) + messageOffset, n);
      messageOffset := messageOffset + n;
      if messageOffset == messageSize {
        messageOffset := 0;
        ret := 0;
      } else {
        nextReaderTail := readerTail;
        ret := messageOffset;
      }
      tail := nextReaderTail;
    }
  }

  lemma {:induction false} WindowSlice(mem: Bytes, base: nat, size: nat, at: nat, n: nat)
    requires base + size <= |mem| && at + n <= size
    ensures mem[base..base + size][at..at + n] == mem[base + at..base + at + n]
  {
    var window := mem[base..base + size];
    var a, b := window[at..at + n], mem[base + at..base + at + n];
    forall i | 0 <= i < n
      ensures a[i] == b[i]
    {
    }
  }

  /** As many cells of `m` bytes as fit behind a header of `base` bytes, and what is left over. */
  lemma {:induction false} CellsFit(base: nat, shmSize: nat, m: nat)
    requires 1 <= m && base + m <= shmSize
    ensures
      var cells := (shmSize - base) / m;
      cells >= 1 && base + cells * m == shmSize - (shmSize - base) % m && shmSize < base + (cells + 1) * m
  {
    MulDistributes((shmSize - base) / m + 1, 1, m);
  }

  /** queue_create, which gives up if not even one message fits; otherwise it returns the bytes used, header
      and cells together. */
  method QueueCreate(mem: array<Byte>, base: nat, messageSize: nat) returns (q: Queue?, used: nat)
    requires 1 <= messageSize
    ensures q == null <==> messageSize + base > mem.Length
    ensures q != null ==>
      && fresh(q) && q.mem == mem && q.base == base && q.messageSize == messageSize
      && q.Valid() && Contents(q.Value()) == Fifo([], 0)
      && used == base + q.queueSize * messageSize && used <= mem.Length < used + messageSize
  {
    q, used := null, 0;
    if messageSize + base <= mem.Length {
      q := new Queue(mem, base, messageSize);
      used := mem.Length - (mem.Length - base) % messageSize;
      CellsFit(base, mem.Length, messageSize);
      MulDistributes(q.queueSize, 1, messageSize);
    }
  }
}
