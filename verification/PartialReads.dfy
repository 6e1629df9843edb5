/** Reading records in pieces: what a caller that keeps calling pop with small buffers gets. */
module PartialReads {
  import opened Bytes
  import opened Cells
  import opened Fifos

  /** Reading with these sizes one after the other, as long as there is something to read. */
  function TakeMany(f: Fifo, messageSize: nat, sizes: seq<nat>): (r: (Fifo, seq<Outcome>))
    requires ValidFifo(f, messageSize)
    ensures ValidFifo(r.0, messageSize)
    decreases |sizes|
  {
    if sizes == [] || f.records == [] then (f, [])
    else
      var (f', o) := Take(f, messageSize, sizes[0]);
      var (f'', os) := TakeMany(f', messageSize, sizes[1..]);
      (f'', [o] + os)
  }

  /** The chunks, joined. */
  function Joined(os: seq<Outcome>): (bytes: Bytes) {
    if os == [] then [] else os[0].bytes + Joined(os[1..])
  }

  lemma {:induction false} FlattenHead(log: seq<Bytes>)
    requires log != []
    ensures Flatten(log) == log[0] + Flatten(log[1..])
    decreases |log|
  {
    if |log| == 1 {
      assert log[..0] == [] && log[1..] == [];
    } else {
      var front := log[..|log| - 1];
      FlattenHead(front);
      assert front[1..] == log[1..][..|log| - 2];
    }
  }

  /** One read moves bytes from the pending stream to the caller. */
  lemma {:induction false} TakeConserves(f: Fifo, messageSize: nat, size: nat)
    requires ValidFifo(f, messageSize) && f.records != []
    ensures
      var (f', o) := Take(f, messageSize, size);
      o.bytes + Pending(f') == Pending(f) && |o.bytes| == o.size
  {
    var (f', o) := Take(f, messageSize, size);
    var record := f.records[0];
    if f.offset + o.size == messageSize {
      assert record[f.offset..f.offset + o.size] == record[f.offset..];
      if f'.records != [] {
        FlattenHead(f'.records);
        assert f'.records[0][0..] == f'.records[0];
      }
    } else {
      assert record[f.offset..f.offset + o.size] + record[f.offset + o.size..] == record[f.offset..];
    }
  }

  /** However the reads are cut, the chunks joined and what is left make up what was pending. */
  lemma {:induction false} ChunksConserve(f: Fifo, messageSize: nat, sizes: seq<nat>)
    requires ValidFifo(f, messageSize)
    ensures
      var (f', os) := TakeMany(f, messageSize, sizes);
      Joined(os) + Pending(f') == Pending(f)
    decreases |sizes|
  {
    if sizes != [] && f.records != [] {
      var (f', o) := Take(f, messageSize, sizes[0]);
      TakeConserves(f, messageSize, sizes[0]);
      ChunksConserve(f', messageSize, sizes[1..]);
      var (f'', os) := TakeMany(f', messageSize, sizes[1..]);
      assert ([o] + os)[1..] == os;
      assert o.bytes + (Joined(os) + Pending(f'')) == (o.bytes + Joined(os)) + Pending(f'');
    }
  }

  /** Two ways of cutting that read equally much read the same bytes. */
  lemma {:induction false} ChunkingIrrelevant(f: Fifo, messageSize: nat, sizes: seq<nat>, sizes': seq<nat>)
    requires ValidFifo(f, messageSize)
    requires |Joined(TakeMany(f, messageSize, sizes).1)| == |Joined(TakeMany(f, messageSize, sizes').1)|
    ensures Joined(TakeMany(f, messageSize, sizes).1) == Joined(TakeMany(f, messageSize, sizes').1)
    ensures Pending(TakeMany(f, messageSize, sizes).0) == Pending(TakeMany(f, messageSize, sizes').0)
  {
    ChunksConserve(f, messageSize, sizes);
    ChunksConserve(f, messageSize, sizes');
    var a, b := Joined(TakeMany(f, messageSize, sizes).1), Joined(TakeMany(f, messageSize, sizes').1);
    var p, q := Pending(TakeMany(f, messageSize, sizes).0), Pending(TakeMany(f, messageSize, sizes').0);
    assert a == (a + p)[..|a|] && b == (b + q)[..|b|];
    assert p == (a + p)[|a|..] && q == (b + q)[|b|..];
  }

  /** The documented meaning of the return value, "0 when the record has been read", holds except for
      one call: a read of size 0 at the start of a record also returns 0. */
  lemma {:induction false} ZeroMeansFinished(f: Fifo, messageSize: nat, size: nat)
    requires ValidFifo(f, messageSize) && f.records != []
    ensures
      var (f', o) := Take(f, messageSize, size);
      && ((o.ret == 0 <==> f'.records == f.records[1..]) <==> !(size == 0 && f.offset == 0))
      && (o.ret != 0 ==> f'.records == f.records && f'.offset == o.ret == f.offset + o.size)
  {
    assert |f.records[1..]| < |f.records|;
  }

  /** Read with a buffer of b bytes until pop returns 0: the bytes and the number of calls. */
  function ReadRecord(f: Fifo, messageSize: nat, b: nat): (r: (Fifo, Bytes, nat))
    requires ValidFifo(f, messageSize) && f.records != [] && b > 0
    decreases messageSize - f.offset
  {
    var (f', o) := Take(f, messageSize, b);
    if o.ret == 0 then (f', o.bytes, 1)
    else
      var (f'', bytes, calls) := ReadRecord(f', messageSize, b);
      (f'', o.bytes + bytes, calls + 1)
  }

  /** The smallest number of buffers of b bytes that hold n bytes. */
  function CeilDiv(n: nat, b: nat): (k: nat)
    requires b > 0
    ensures k * b >= n && (n > 0 ==> (k - 1) * b < n)
  {
    var k := (n + b - 1) / b;
    MulDistributes(k, 1, b);
    k
  }

  /** That loop takes exactly ceil(messageSize / b) calls and yields exactly one record. */
  lemma {:induction false} ReadRecordExact(f: Fifo, messageSize: nat, b: nat)
    requires ValidFifo(f, messageSize) && f.records != [] && b > 0
    ensures
      var (f', bytes, calls) := ReadRecord(f, messageSize, b);
      && f' == Fifo(f.records[1..], 0)
      && bytes == f.records[0][f.offset..]
      && calls == CeilDiv(messageSize - f.offset, b)
    decreases messageSize - f.offset
  {
    var (f', o) := Take(f, messageSize, b);
    var left := messageSize - f.offset;
    if o.ret == 0 {
      assert f.offset + o.size == messageSize;
      assert f.records[0][f.offset..f.offset + o.size] == f.records[0][f.offset..];
      CeilOne(left, b);
    } else {
      ReadRecordExact(f', messageSize, b);
      CeilMore(left, b);
      var record := f.records[0];
      assert record[f.offset..f.offset + o.size] + record[f.offset + o.size..] == record[f.offset..];
    }
  }

  lemma {:induction false} CeilOne(n: nat, b: nat)
    requires 0 < n <= b
    ensures CeilDiv(n, b) == 1
  {
    ModUnique(n + b - 1, b, 1, n - 1);
  }

  lemma {:induction false} CeilMore(n: nat, b: nat)
    requires 0 < b < n
    ensures CeilDiv(n, b) == 1 + CeilDiv(n - b, b)
  {
    var q, r := (n - 1) / b, (n - 1) % b;
    assert n - 1 == q * b + r;
    MulDistributes(q + 1, 1, b);
    ModUnique(n + b - 1, b, q + 1, r);
    ModUnique(n - b + b - 1, b, q, r);
  }
}
