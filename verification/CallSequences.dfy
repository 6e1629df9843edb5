/** Sequences of whole calls on a ring: what has been read and what is left is what there was and what has been pushed,
    and the return values say how much that is. */
module CallSequences {
  import opened Bytes
  import opened Cells
  import opened Fifos
  import opened SemMachine
  import opened QueueOps
  import opened PartialReads

  /** The ring after a sequence of calls, as far as they return. */
  ghost function PollAfter(r: Ring, calls: seq<Call>): (r': Ring)
    requires ValidRing(r)
    ensures ValidRing(r') && r'.c == r.c
    decreases |calls|
  {
    if calls == [] || !PollReady(r, calls[0]) then r
    else
      PollCallValid(r, calls[0]);
      PollAfter(PollCall(r, calls[0]).0, calls[1..])
  }

  ghost function SemAfter(s: SemRing, calls: seq<Call>): (s': SemRing)
    requires ValidSemRing(s)
    ensures ValidSemRing(s')
    decreases |calls|
  {
    if calls == [] || !SemReady(s, calls[0]) then s
    else
      CallsAgree(s, calls[0]);
      SemAfter(SemCall(s, calls[0]).0, calls[1..])
  }

  /** The record by which a queue has grown, if it has. */
  ghost function Growth(f: Fifo, f': Fifo): (records: seq<Bytes>) {
    if |f'.records| > |f.records| then [f'.records[|f'.records| - 1]] else []
  }

  /** The records appended by a sequence of calls. */
  ghost function Appended(r: Ring, calls: seq<Call>): (records: seq<Bytes>)
    requires ValidRing(r)
    decreases |calls|
  {
    if calls == [] || !PollReady(r, calls[0]) then []
    else
      PollCallValid(r, calls[0]);
      var r' := PollCall(r, calls[0]).0;
      Growth(Contents(r), Contents(r')) + Appended(r', calls[1..])
  }

  /** Pushes that were answered with 0. */
  function Accepted(calls: seq<Call>, replies: seq<Reply>): (n: nat)
    decreases |calls|
  {
    if calls == [] || replies == [] then 0
    else One(calls[0].Push? && replies[0].ret == 0) + Accepted(calls[1..], replies[1..])
  }

  /** Pushes that were answered with -1. */
  function Refused(calls: seq<Call>, replies: seq<Reply>): (n: nat)
    decreases |calls|
  {
    if calls == [] || replies == [] then 0
    else One(calls[0].Push? && replies[0].ret == -1) + Refused(calls[1..], replies[1..])
  }

  /** Pushes of buffers that are too long, among the calls that returned. */
  function TooLong(calls: seq<Call>, n: nat, messageSize: nat): (k: nat)
    decreases |calls|
  {
    if calls == [] || n == 0 then 0
    else One(calls[0].Push? && |calls[0].buf| > messageSize) + TooLong(calls[1..], n - 1, messageSize)
  }

  /** The bytes read, joined. */
  function Read(replies: seq<Reply>): (bytes: Bytes) {
    if replies == [] then [] else replies[0].bytes + Read(replies[1..])
  }

  lemma {:induction false} AppendPending(f: Fifo, messageSize: nat, record: Bytes)
    requires ValidFifo(f, messageSize) && |record| == messageSize
    ensures ValidFifo(Append(f, record), messageSize) && Pending(Append(f, record)) == Pending(f) + record
  {
    var g := Append(f, record);
    if f.records == [] {
      assert g.records[1..] == [];
      assert record[0..] == record;
    } else {
      assert g.records[1..] == f.records[1..] + [record];
      FlattenAppend(f.records[1..], record);
    }
  }

  /** One call: bytes read, bytes appended, and what the reply says about it. */
  lemma {:induction false} CallConserves(r: Ring, call: Call)
    requires ValidRing(r) && PollReady(r, call)
    ensures
      var (r', reply) := PollCall(r, call);
      && ValidRing(r')
      && Pending(Contents(r)) + Flatten(Growth(Contents(r), Contents(r'))) == reply.bytes + Pending(Contents(r'))
      && |Growth(Contents(r), Contents(r'))| == One(call.Push? && reply.ret == 0)
      && (call.Push? && reply.ret == -1 <==> call.Push? && |call.buf| > r.c.messageSize)
  {
    hide CellsFrom, Cell, CellStart, Splice, Overlay, Pending;
    var (r', reply) := PollCall(r, call);
    match call
    case Push(buf) =>
      PushAnswers(r, buf);
      if reply.ret == 0 {
        var record := Overlay(buf, Cell(r.c, r.region, r.head));
        AppendPending(Contents(r), r.c.messageSize, record);
        assert Flatten([record]) == record by { FlattenAppend([], record); }
      }
    case Pop(size) =>
      PollPopTakes(r, size);
      TakeConserves(Contents(r), r.c.messageSize, size);
  }

  lemma {:induction false} FlattenJoin(a: seq<Bytes>, b: seq<Bytes>)
    ensures Flatten(a + b) == Flatten(a) + Flatten(b)
    decreases |b|
  {
    if b == [] {
      assert a + b == a;
    } else {
      var front, last := b[..|b| - 1], b[|b| - 1];
      FlattenJoin(a, front);
      assert a + b == (a + front) + [last];
      FlattenAppend(a + front, last);
    }
  }

  /** For every sequence of calls: what was pending and the records appended since make up, byte for byte, what has been
      read and what is pending now; as many records were appended as pushes were answered with 0, and as many pushes
      were answered with -1 as had too long a buffer. */
  lemma {:induction false} StreamConserved(r: Ring, calls: seq<Call>)
    requires ValidRing(r)
    ensures
      var replies := PollReplies(r, calls);
      && Pending(Contents(r)) + Flatten(Appended(r, calls)) == Read(replies) + Pending(Contents(PollAfter(r, calls)))
      && |Appended(r, calls)| == Accepted(calls, replies)
      && Refused(calls, replies) == TooLong(calls, |replies|, r.c.messageSize)
    decreases |calls|
  {
    hide Contents, Pending, Flatten, Growth, PollCall, PollReady;
    if calls != [] && PollReady(r, calls[0]) {
      CallConserves(r, calls[0]);
      var (r', reply) := PollCall(r, calls[0]);
      SameConfig(r, calls[0]);
      StreamConserved(r', calls[1..]);
      var replies := PollReplies(r', calls[1..]);
      assert ([reply] + replies)[1..] == replies;
      var grown, rest := Growth(Contents(r), Contents(r')), Appended(r', calls[1..]);
      FlattenJoin(grown, rest);
      Regroup(Pending(Contents(r)), Flatten(grown), Flatten(rest), reply.bytes, Pending(Contents(r')), Read(replies),
              Pending(Contents(PollAfter(r', calls[1..]))));
    } else {
      assert Flatten([]) == [] by { FlattenNothing(); }
    }
  }

  lemma {:induction false} FlattenNothing()
    ensures Flatten([]) == []
  {
  }

  lemma {:induction false} SameConfig(r: Ring, call: Call)
    requires ValidRing(r) && PollReady(r, call)
    ensures PollCall(r, call).0.c == r.c
  {
  }

  lemma {:induction false} Regroup(a: Bytes, b: Bytes, c: Bytes, d: Bytes, e: Bytes, f: Bytes, g: Bytes)
    requires a + b == d + e && e + c == f + g
    ensures a + (b + c) == (d + f) + g
  {
    assert a + (b + c) == (a + b) + c == d + (e + c);
  }

  /** And the same of the semaphore ring. Between calls its lock is as it was, its counter of all records has gone up
      by the pushes answered with 0, and its other counter is the number of records in the ring. */
  lemma {:induction false} SemStreamConserved(s: SemRing, calls: seq<Call>)
    requires ValidSemRing(s)
    ensures
      var s', replies := SemAfter(s, calls), SemReplies(s, calls);
      && s'.ring == PollAfter(s.ring, calls) && replies == PollReplies(s.ring, calls)
      && Pending(Contents(s.ring)) + Flatten(Appended(s.ring, calls)) == Read(replies) + Pending(Contents(s'.ring))
      && |Appended(s.ring, calls)| == Accepted(calls, replies)
      && s'.totalCount == s.totalCount + Accepted(calls, replies) && s'.lock == s.lock
      && s'.currentCount == |Contents(s'.ring).records|
  {
    RingsAgree(s, calls);
    StreamConserved(s.ring, calls);
    SemFollows(s, calls);
  }

  lemma {:induction false} SemFollows(s: SemRing, calls: seq<Call>)
    requires ValidSemRing(s)
    ensures
      var s' := SemAfter(s, calls);
      && s'.ring == PollAfter(s.ring, calls) && s'.lock == s.lock
      && s'.totalCount == s.totalCount + Accepted(calls, SemReplies(s, calls))
    decreases |calls|
  {
    hide Contents, ValidRing, SemPush, SemPop, PollCall, PollReady;
    if calls != [] {
      CallsAgree(s, calls[0]);
      if SemReady(s, calls[0]) {
        match calls[0] {
          case Push(buf) => SemPushAnswers(s, buf);
          case Pop(size) => SemPopAnswers(s, size);
        }
        var (s', reply) := SemCall(s, calls[0]);
        SemFollows(s', calls[1..]);
        assert ([reply] + SemReplies(s', calls[1..]))[1..] == SemReplies(s', calls[1..]);
      }
    }
  }
}
