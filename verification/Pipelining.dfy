/** A client that sends K requests before it reads any response, against a receive-then-send
    server: how many requests fit into the two rings and the server's hands. */
module Pipelining {
  import opened Bytes
  import opened Cells
  import opened PollMachine
  import PollTheorems
  import opened RpcChannel

  /** The client's program: K sends, then K receives of whole records. */
  predicate Allowed(c: Config, k: nat, ch: Channel, m: Move) {
    match m
    case ClientSend(buf) => |ch.request.bufs| < k
    case ClientReceive(size) => |ch.request.bufs| == k && ch.response.popped < k && size == c.messageSize
    case _ => true
  }

  ghost predicate Inv(c: Config, f: Bytes -> Bytes, k: nat, initQ: Bytes, initR: Bytes, ch: Channel) {
    && RpcChannel.Inv(c, f, initQ, initR, ch)
    && |ch.request.bufs| <= k && ch.response.popped <= k
    && (ch.client.Sending? ==> |ch.request.bufs| < k)
    && (ch.client.Receiving? ==> |ch.request.bufs| == k && ch.response.popped < k && ch.response.asked == c.messageSize)
    && (0 < ch.response.popped ==> |ch.request.bufs| == k)
    && ReadOffset(c, ch.response.consumer, ch.response.offset) == 0
  }

  lemma {:induction false} StepKeepsInv(c: Config, f: Bytes -> Bytes, k: nat, initQ: Bytes, initR: Bytes, ch: Channel,
                                        m: Move)
    requires Inv(c, f, k, initQ, initR, ch) && Possible(c, f, ch, m) && Allowed(c, k, ch, m) && Sized(c, f)
    ensures MoveInBounds(c, f, ch, m) && Inv(c, f, k, initQ, initR, After(c, f, ch, m))
  {
    RpcChannel.StepKeepsInv(c, f, initQ, initR, ch, m);
    var q, r := OnRequest(c, f, ch, m), OnResponse(c, f, ch, m);
    if m.ClientSend? || (m.ClientStep? && ch.client.Sending?) {
      PushFrame(c, ch.request, q[0]);
    } else if m.ServerReceive? || (m.ServerStep? && ch.server.Fetching?) {
      PopFrame(c, ch.request, q[0]);
    } else if m.ServerSend? || m.ServerStep? {
      AnswerFits(c, f, initQ, initR, ch);
      PushFrame(c, ch.response, r[0]);
    } else {
      PopFrame(c, ch.response, r[0]);
      if r[0].StoreTail? {
        WholeRecord(c, initR, ch.response);
      }
    }
  }

  lemma {:induction false} AnswerFits(c: Config, f: Bytes -> Bytes, initQ: Bytes, initR: Bytes, ch: Channel)
    requires RpcChannel.Inv(c, f, initQ, initR, ch) && Sized(c, f)
    ensures ch.server.Holding? ==> |f(ch.server.request)| == c.messageSize
  {
  }

  ghost predicate Reaches(c: Config, f: Bytes -> Bytes, k: nat, ch: Channel, moves: seq<Move>, end: Channel)
    decreases |moves|
  {
    if moves == [] then ch == end
    else
      && Possible(c, f, ch, moves[0]) && MoveInBounds(c, f, ch, moves[0]) && Allowed(c, k, ch, moves[0])
      && Reaches(c, f, k, After(c, f, ch, moves[0]), moves[1..], end)
  }

  lemma {:induction false} RunKeepsInv(c: Config, f: Bytes -> Bytes, k: nat, initQ: Bytes, initR: Bytes, ch: Channel,
                                       moves: seq<Move>, end: Channel)
    requires Inv(c, f, k, initQ, initR, ch) && Sized(c, f) && Reaches(c, f, k, ch, moves, end)
    ensures Inv(c, f, k, initQ, initR, end)
    decreases |moves|
  {
    if moves != [] {
      StepKeepsInv(c, f, k, initQ, initR, ch, moves[0]);
      RunKeepsInv(c, f, k, initQ, initR, After(c, f, ch, moves[0]), moves[1..], end);
    }
  }

  lemma {:induction false} InitKeepsInv(c: Config, f: Bytes -> Bytes, k: nat, initQ: Bytes, initR: Bytes)
    requires ValidConfig(c) && ValidRegion(c, initQ) && ValidRegion(c, initR)
    ensures Inv(c, f, k, initQ, initR, RpcChannel.Init(c, initQ, initR))
  {
    hide PollMachine.Inv;
    RpcChannel.InitInv(c, f, initQ, initR);
  }

  lemma {:induction false} ReachableInv(c: Config, f: Bytes -> Bytes, k: nat, initQ: Bytes, initR: Bytes,
                                        moves: seq<Move>, ch: Channel)
    requires ValidConfig(c) && ValidRegion(c, initQ) && ValidRegion(c, initR) && Sized(c, f)
    requires Reaches(c, f, k, RpcChannel.Init(c, initQ, initR), moves, ch)
    ensures Inv(c, f, k, initQ, initR, ch)
  {
    hide Inv, RpcChannel.Init;
    InitKeepsInv(c, f, k, initQ, initR);
    RunKeepsInv(c, f, k, initQ, initR, RpcChannel.Init(c, initQ, initR), moves, ch);
  }

  // ---------------------------------------------------------------------------------------
  // The bound
  // ---------------------------------------------------------------------------------------

  /** Records in the rings, and the one in the server's hands. */
  lemma {:induction false} Occupancy(c: Config, f: Bytes -> Bytes, initQ: Bytes, initR: Bytes, ch: Channel)
    requires RpcChannel.Inv(c, f, initQ, initR, ch)
    ensures 0 <= |ch.request.bufs| - ch.request.popped <= c.queueSize - 1
    ensures 0 <= |ch.response.bufs| - ch.response.popped <= c.queueSize - 1
    ensures ch.request.popped ==
      |ch.response.bufs| + if ch.server.Holding? || ch.server.Answering? then 1 else 0
  {
    assert ch.request.tailCounts[ch.request.tailSeen] <= ch.request.popped;
    assert ch.response.tailCounts[ch.response.tailSeen] <= ch.response.popped;
  }

  /** No run ever has 2*queueSize requests sent and none of their answers read: a client that insists
      on sending that many first never gets past its sends. */
  lemma {:induction false} SendsNeverComplete(c: Config, f: Bytes -> Bytes, k: nat, initQ: Bytes, initR: Bytes,
                                              moves: seq<Move>, ch: Channel)
    requires ValidConfig(c) && ValidRegion(c, initQ) && ValidRegion(c, initR) && Sized(c, f)
    requires k >= 2 * c.queueSize
    requires Reaches(c, f, k, RpcChannel.Init(c, initQ, initR), moves, ch)
    ensures |ch.request.bufs| <= 2 * c.queueSize - 1 < k
    decreases |moves|
  {
    hide PollMachine.Inv, Reaches;
    InitKeepsInv(c, f, k, initQ, initR);
    NeverPast(c, f, k, initQ, initR, RpcChannel.Init(c, initQ, initR), moves, ch);
    Occupancy(c, f, initQ, initR, ch);
  }

  lemma {:induction false} NeverPast(c: Config, f: Bytes -> Bytes, k: nat, initQ: Bytes, initR: Bytes, ch: Channel,
                                     moves: seq<Move>, end: Channel)
    requires Inv(c, f, k, initQ, initR, ch) && Sized(c, f) && k >= 2 * c.queueSize
    requires Reaches(c, f, k, ch, moves, end) && ch.response.popped == 0
    ensures Inv(c, f, k, initQ, initR, end) && end.response.popped == 0
    decreases |moves|
  {
    if moves != [] {
      StepKeepsInv(c, f, k, initQ, initR, ch, moves[0]);
      Occupancy(c, f, initQ, initR, ch);
      NeverPast(c, f, k, initQ, initR, After(c, f, ch, moves[0]), moves[1..], end);
    }
  }

  // ---------------------------------------------------------------------------------------
  // Progress below the bound
  // ---------------------------------------------------------------------------------------

  /** A load that leaves its thread where it was. */
  predicate Spins(c: Config, s: State, a: Action)
    requires PollMachine.Enabled(c, s, a) && PollMachine.InBounds(c, s, a)
  {
    || (a.LoadTail? && PollMachine.Step(c, s, a).producer.Spinning?)
    || (a.LoadHead? && PollMachine.Step(c, s, a).consumer.Waiting?)
  }

  predicate IsSpin(c: Config, f: Bytes -> Bytes, ch: Channel, m: Move)
    requires Possible(c, f, ch, m) && MoveInBounds(c, f, ch, m)
  {
    var q, r := OnRequest(c, f, ch, m), OnResponse(c, f, ch, m);
    || (q != [] && Spins(c, ch.request, q[0]))
    || (r != [] && Spins(c, ch.response, r[0]))
  }

  /** All responses have been received. */
  predicate Done(k: nat, ch: Channel) {
    ch.client.Resting? && ch.response.popped == k
  }

  /** The next step of a push that has room. */
  lemma {:induction false} PushMoves(c: Config, init: Bytes, s: State) returns (a: Action)
    requires PollMachine.Inv(c, init, s) && !s.producer.Idle?
    requires s.producer.Spinning? ==> |s.bufs| - s.popped < c.queueSize - 1
    ensures InsidePush(a) && PollMachine.Enabled(c, s, a) && PollMachine.InBounds(c, s, a) && !Spins(c, s, a)
  {
    match s.producer
    case Entered(_) => a := LoadOwnHead;
    case Spinning(_, _, _) =>
      PollTheorems.ProducerWaits(c, init, s, 0);
      a := LoadTail(|s.tails| - 1);
    case Copying(buf, _, _, done) =>
      a := if done < |buf| then CopyIn else StoreHead;
      CopiesInCell(c, init, s, a);
  }

  /** The next step of a pop that has a record to read. */
  lemma {:induction false} PopMoves(c: Config, init: Bytes, s: State) returns (a: Action)
    requires PollMachine.Inv(c, init, s) && !s.consumer.Idle?
    requires s.consumer.Waiting? ==> s.popped < |s.bufs|
    ensures InsidePop(a) && PollMachine.Enabled(c, s, a) && PollMachine.InBounds(c, s, a) && !Spins(c, s, a)
  {
    match s.consumer
    case Clamped(_) => a := TestStop;
    case Admitted(_) => a := LoadOwnTail;
    case Waiting(_, _) =>
      PollTheorems.ConsumerWaits(c, init, s, 0);
      a := LoadHead(|s.heads| - 1);
    case Reading(size, _, _, out) =>
      a := if |out| < size then CopyOut else AdvanceOffset;
      CopiesInCell(c, init, s, a);
    case Publishing(_, _, _, _) => a := StoreTail;
  }

  /** A thread that can go on without spinning, unless everything has been received. */
  lemma {:induction false} FindMove(c: Config, f: Bytes -> Bytes, k: nat, initQ: Bytes, initR: Bytes, ch: Channel)
    returns (m: Move)
    requires Inv(c, f, k, initQ, initR, ch) && 2 <= c.queueSize && k <= 2 * c.queueSize - 1 && !Done(k, ch)
    ensures Possible(c, f, ch, m) && MoveInBounds(c, f, ch, m) && Allowed(c, k, ch, m) && !IsSpin(c, f, ch, m)
  {
    hide PollMachine.Inv;
    Occupancy(c, f, initQ, initR, ch);
    var q, r := ch.request, ch.response;
    if ch.client.Resting? {
      m := if |q.bufs| < k then ClientSend([]) else ClientReceive(c.messageSize);
    } else if ch.client.Sending? && (q.producer.Spinning? ==> |q.bufs| - q.popped < c.queueSize - 1) {
      var a := PushMoves(c, initQ, q);
      m := ClientStep(a);
    } else if ch.client.Receiving? && (r.consumer.Waiting? ==> r.popped < |r.bufs|) {
      var a := PopMoves(c, initR, r);
      m := ClientStep(a);
    } else {
      m := ServerMoves(c, f, k, initQ, initR, ch);
    }
  }

  /** When the client cannot go on, the server can. */
  lemma {:induction false} ServerMoves(c: Config, f: Bytes -> Bytes, k: nat, initQ: Bytes, initR: Bytes, ch: Channel)
    returns (m: Move)
    requires Inv(c, f, k, initQ, initR, ch) && 2 <= c.queueSize && k <= 2 * c.queueSize - 1
    requires
      || (ch.client.Sending? && |ch.request.bufs| - ch.request.popped == c.queueSize - 1)
      || (ch.client.Receiving? && ch.response.popped == |ch.response.bufs|)
    ensures Possible(c, f, ch, m) && MoveInBounds(c, f, ch, m) && Allowed(c, k, ch, m) && !IsSpin(c, f, ch, m)
  {
    hide PollMachine.Inv;
    Occupancy(c, f, initQ, initR, ch);
    match ch.server
    case Ready => m := ServerReceive;
    case Fetching =>
      var a := PopMoves(c, initQ, ch.request);
      m := ServerStep(a);
    case Holding(_) => m := ServerSend;
    case Answering(_) =>
      var a := PushMoves(c, initR, ch.response);
      m := ServerStep(a);
  }

  /** Below the bound the two sides are never stuck together. */
  lemma {:induction false} NeverStuck(c: Config, f: Bytes -> Bytes, k: nat, initQ: Bytes, initR: Bytes,
                                      moves: seq<Move>, ch: Channel)
    requires ValidConfig(c) && ValidRegion(c, initQ) && ValidRegion(c, initR) && Sized(c, f)
    requires 2 <= c.queueSize && k <= 2 * c.queueSize - 1
    requires Reaches(c, f, k, RpcChannel.Init(c, initQ, initR), moves, ch)
    ensures Done(k, ch) ||
      exists m :: Possible(c, f, ch, m) && MoveInBounds(c, f, ch, m) && Allowed(c, k, ch, m) && !IsSpin(c, f, ch, m)
  {
    hide Inv, RpcChannel.Init, Reaches;
    ReachableInv(c, f, k, initQ, initR, moves, ch);
    if !Done(k, ch) {
      var m := FindMove(c, f, k, initQ, initR, ch);
    }
  }

  // ---------------------------------------------------------------------------------------
  // Only finitely many steps can be progress
  // ---------------------------------------------------------------------------------------

  /** Steps taken inside the current push, and inside the current pop. */
  function PushWork(p: Producer): (w: nat) {
    match p
    case Idle => 0
    case Entered(_) => 1
    case Spinning(_, _, _) => 2
    case Copying(_, _, _, done) => 3 + done
  }

  function PopWork(c: Config, q: Consumer): (w: nat) {
    match q
    case Idle => 0
    case Clamped(_) => 1
    case Admitted(_) => 2
    case Waiting(_, _) => 3
    case Reading(_, _, _, out) => 4 + |out|
    case Publishing(_, _, _, _) => 5 + c.messageSize
  }

  /** More steps than one call takes. */
  function CallCost(c: Config): (w: nat) { c.messageSize + 6 }

  function Times(n: nat, w: nat): (t: nat) {
    if n == 0 then 0 else Times(n - 1, w) + w
  }

  lemma {:induction false} TimesIsProduct(n: nat, w: nat)
    ensures Times(n, w) == n * w
  {
    if n > 0 {
      TimesIsProduct(n - 1, w);
    }
  }

  lemma {:induction false} TimesMonotone(m: nat, n: nat, w: nat)
    requires m <= n
    ensures Times(m, w) <= Times(n, w)
  {
    if m < n {
      TimesMonotone(m, n - 1, w);
    }
  }

  function RingWork(c: Config, s: State): (w: nat) {
    Times(|s.bufs|, CallCost(c)) + PushWork(s.producer) + Times(s.popped, CallCost(c)) + PopWork(c, s.consumer)
  }

  function Work(c: Config, ch: Channel): (w: nat) {
    RingWork(c, ch.request) + RingWork(c, ch.response)
  }

  /** A step inside a call counts for at least one unless it spins. */
  lemma {:induction false} PushWorks(c: Config, init: Bytes, s: State, a: Action)
    requires PollMachine.Inv(c, init, s) && PollMachine.Enabled(c, s, a) && PollMachine.InBounds(c, s, a)
    requires InsidePush(a) || (a.PushCall? && |a.buf| <= c.messageSize)
    ensures RingWork(c, PollMachine.Step(c, s, a)) >= RingWork(c, s) + if Spins(c, s, a) then 0 else 1
  {
    hide Records, ReadSoFar, Holds, ConsumerInv, CellStart, Slots, Slot;
  }

  /** A pop whose result is a whole record counts likewise. */
  lemma {:induction false} PopWorks(c: Config, init: Bytes, s: State, a: Action)
    requires PollMachine.Inv(c, init, s) && PollMachine.Enabled(c, s, a) && PollMachine.InBounds(c, s, a)
    requires InsidePop(a) || a.PopCall?
    requires !s.stop && (a.StoreTail? ==> s.consumer.finished)
    ensures RingWork(c, PollMachine.Step(c, s, a)) >= RingWork(c, s) + if Spins(c, s, a) then 0 else 1
  {
    hide Records, ReadSoFar, Holds, ProducerInv, CellStart, Slots;
  }

  lemma {:induction false} ClientWorks(c: Config, f: Bytes -> Bytes, k: nat, initQ: Bytes, initR: Bytes, ch: Channel,
                                       m: Move)
    requires Inv(c, f, k, initQ, initR, ch)
    requires Possible(c, f, ch, m) && MoveInBounds(c, f, ch, m) && Allowed(c, k, ch, m)
    requires m.ClientSend? || m.ClientReceive? || m.ClientStep?
    ensures Work(c, After(c, f, ch, m)) >= Work(c, ch) + if IsSpin(c, f, ch, m) then 0 else 1
  {
    hide PollMachine.Inv;
    if m.ClientSend? || (m.ClientStep? && ch.client.Sending?) {
      PushWorks(c, initQ, ch.request, OnRequest(c, f, ch, m)[0]);
    } else {
      if m == ClientStep(StoreTail) {
        WholeRecord(c, initR, ch.response);
      }
      PopWorks(c, initR, ch.response, OnResponse(c, f, ch, m)[0]);
    }
  }

  lemma {:induction false} ServerWorks(c: Config, f: Bytes -> Bytes, k: nat, initQ: Bytes, initR: Bytes, ch: Channel,
                                       m: Move)
    requires Inv(c, f, k, initQ, initR, ch) && Sized(c, f)
    requires Possible(c, f, ch, m) && MoveInBounds(c, f, ch, m)
    requires m.ServerReceive? || m.ServerSend? || m.ServerStep?
    ensures Work(c, After(c, f, ch, m)) >= Work(c, ch) + if IsSpin(c, f, ch, m) then 0 else 1
  {
    hide PollMachine.Inv;
    if m.ServerReceive? || (m.ServerStep? && ch.server.Fetching?) {
      if m == ServerStep(StoreTail) {
        WholeRecord(c, initQ, ch.request);
      }
      PopWorks(c, initQ, ch.request, OnRequest(c, f, ch, m)[0]);
    } else {
      AnswerFits(c, f, initQ, initR, ch);
      PushWorks(c, initR, ch.response, OnResponse(c, f, ch, m)[0]);
    }
  }

  lemma {:induction false} RingWorkBound(c: Config, init: Bytes, s: State, k: nat)
    requires PollMachine.Inv(c, init, s) && |s.bufs| <= k
    ensures RingWork(c, s) <= 2 * Times(k + 1, CallCost(c))
  {
    TimesMonotone(|s.bufs|, k, CallCost(c));
    TimesMonotone(s.popped, k, CallCost(c));
  }

  /** The number of moves of a run that are not spinning. */
  ghost function Progress(c: Config, f: Bytes -> Bytes, k: nat, ch: Channel, moves: seq<Move>, end: Channel): (n: nat)
    requires Reaches(c, f, k, ch, moves, end)
    decreases |moves|
  {
    if moves == [] then 0
    else
      (if IsSpin(c, f, ch, moves[0]) then 0 else 1) + Progress(c, f, k, After(c, f, ch, moves[0]), moves[1..], end)
  }

  lemma {:induction false} ProgressIsWork(c: Config, f: Bytes -> Bytes, k: nat, initQ: Bytes, initR: Bytes, ch: Channel,
                                          moves: seq<Move>, end: Channel)
    requires Inv(c, f, k, initQ, initR, ch) && Sized(c, f) && Reaches(c, f, k, ch, moves, end)
    ensures Work(c, ch) + Progress(c, f, k, ch, moves, end) <= Work(c, end)
    decreases |moves|
  {
    if moves != [] {
      var m := moves[0];
      if m.ClientSend? || m.ClientReceive? || m.ClientStep? {
        ClientWorks(c, f, k, initQ, initR, ch, m);
      } else {
        ServerWorks(c, f, k, initQ, initR, ch, m);
      }
      StepKeepsInv(c, f, k, initQ, initR, ch, moves[0]);
      ProgressIsWork(c, f, k, initQ, initR, After(c, f, ch, moves[0]), moves[1..], end);
    }
  }

  /** No run makes more than 4(K+1)(messageSize+6) moves besides spinning. Together with NeverStuck:
      as long as the spinning side sooner or later loads the newest index, every run below the bound
      ends with all K responses received. */
  lemma {:induction false} ProgressBounded(c: Config, f: Bytes -> Bytes, k: nat, initQ: Bytes, initR: Bytes,
                                           moves: seq<Move>, ch: Channel)
    requires ValidConfig(c) && ValidRegion(c, initQ) && ValidRegion(c, initR) && Sized(c, f)
    requires Reaches(c, f, k, RpcChannel.Init(c, initQ, initR), moves, ch)
    ensures Progress(c, f, k, RpcChannel.Init(c, initQ, initR), moves, ch) <= 4 * ((k + 1) * (c.messageSize + 6))
  {
    TimesIsProduct(k + 1, CallCost(c));
    ProgressBoundedByTimes(c, f, k, initQ, initR, moves, ch);
  }

  lemma {:induction false} ProgressBoundedByTimes(c: Config, f: Bytes -> Bytes, k: nat, initQ: Bytes, initR: Bytes,
                                                  moves: seq<Move>, ch: Channel)
    requires ValidConfig(c) && ValidRegion(c, initQ) && ValidRegion(c, initR) && Sized(c, f)
    requires Reaches(c, f, k, RpcChannel.Init(c, initQ, initR), moves, ch)
    ensures Progress(c, f, k, RpcChannel.Init(c, initQ, initR), moves, ch) <= 4 * Times(k + 1, CallCost(c))
  {
    hide PollMachine.Inv, RpcChannel.Init, Reaches, RingWork, Times;
    InitKeepsInv(c, f, k, initQ, initR);
    ReachableInv(c, f, k, initQ, initR, moves, ch);
    ProgressIsWork(c, f, k, initQ, initR, RpcChannel.Init(c, initQ, initR), moves, ch);
    Occupancy(c, f, initQ, initR, ch);
    RingWorkBound(c, initQ, ch.request, k);
    RingWorkBound(c, initR, ch.response, k);
  }
}
