/** The abstract queue that both rings implement: a first-in first-out list of records, the
    oldest of which may already have been read in part. */
module Fifos {
  import opened Bytes

  datatype Fifo = Fifo(records: seq<Bytes>, offset: nat)

  /** What a pop hands back: the bytes copied out, the size written back to the caller and the
      return value. */
  datatype Outcome = Outcome(bytes: Bytes, size: nat, ret: nat)

  ghost predicate ValidFifo(f: Fifo, messageSize: nat) {
    Uniform(f.records, messageSize) && f.offset < messageSize && (f.records == [] ==> f.offset == 0)
  }

  /** A read never goes past the end of the current record. */
  function Clamp(messageSize: nat, offset: nat, size: nat): (n: nat)
    requires offset <= messageSize
    ensures offset + n <= messageSize && n <= size
  {
    if size + offset > messageSize then messageSize - offset else size
  }

  function Append(f: Fifo, record: Bytes): (f': Fifo) {
    f.(records := f.records + [record])
  }

  /** Read `size` bytes, at most to the end of the oldest record; the record leaves the queue when
      its last byte has been read. */
  function Take(f: Fifo, messageSize: nat, size: nat): (r: (Fifo, Outcome))
    requires ValidFifo(f, messageSize) && f.records != []
    ensures ValidFifo(r.0, messageSize)
  {
    var n := Clamp(messageSize, f.offset, size);
    var bytes := f.records[0][f.offset..f.offset + n];
    if f.offset + n == messageSize then
      (Fifo(f.records[1..], 0), Outcome(bytes, n, 0))
    else
      (f.(offset := f.offset + n), Outcome(bytes, n, f.offset + n))
  }

  /** How many of these answers are r. */
  function Tally(answers: seq<int>, r: int): (n: nat)
    ensures n <= |answers|
  {
    if answers == [] then 0
    else Tally(answers[..|answers| - 1], r) + if answers[|answers| - 1] == r then 1 else 0
  }

  lemma {:induction false} TallyAppend(answers: seq<int>, x: int, r: int)
    ensures Tally(answers + [x], r) == Tally(answers, r) + if x == r then 1 else 0
  {
    assert (answers + [x])[..|answers|] == answers;
  }

  /** The bytes still to be read. */
  function Pending(f: Fifo): (stream: Bytes)
    requires f.records != [] ==> f.offset <= |f.records[0]|
  {
    if f.records == [] then [] else f.records[0][f.offset..] + Flatten(f.records[1..])
  }
}
