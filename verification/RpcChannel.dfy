/** A whole connection: a request ring and a response ring, a client thread that calls blocking
    sends and receives in any order, and a server thread that receives, computes and answers. The
    two threads run the rings' micro-steps in every interleaving. */
module RpcChannel {
  import opened Bytes
  import opened Cells
  import opened PollMachine

  /** The blocking call the client is in. */
  datatype Client = Resting | Sending | Receiving

  /** The server loop: receive a request, hold it, send its answer. */
  datatype Server = Ready | Fetching | Holding(request: Bytes) | Answering(request: Bytes)

  datatype Channel = Channel(request: State, response: State, client: Client, server: Server)

  datatype Move =
    | ClientSend(buf: Bytes)
    | ClientReceive(size: nat)
    | ClientStep(a: Action)
    | ServerReceive
    | ServerSend
    | ServerStep(a: Action)

  /** A server function answers full-size requests with full-size responses. */
  ghost predicate Sized(c: Config, f: Bytes -> Bytes) {
    forall x :: |x| == c.messageSize ==> |f(x)| == c.messageSize
  }

  function Answers(f: Bytes -> Bytes, requests: seq<Bytes>): (responses: seq<Bytes>)
    ensures |responses| == |requests|
  {
    if requests == [] then []
    else Answers(f, requests[..|requests| - 1]) + [f(requests[|requests| - 1])]
  }

  lemma {:induction false} AnswersIndex(f: Bytes -> Bytes, requests: seq<Bytes>, k: nat)
    requires k < |requests|
    ensures Answers(f, requests)[k] == f(requests[k])
  {
    if k < |requests| - 1 {
      AnswersIndex(f, requests[..|requests| - 1], k);
    }
  }

  lemma {:induction false} AnswersAppend(f: Bytes -> Bytes, requests: seq<Bytes>, request: Bytes)
    ensures Answers(f, requests + [request]) == Answers(f, requests) + [f(request)]
  {
    assert (requests + [request])[..|requests|] == requests;
  }

  lemma {:induction false} AnswersTake(f: Bytes -> Bytes, requests: seq<Bytes>, k: nat)
    requires k <= |requests|
    ensures Answers(f, requests[..k]) == Answers(f, requests)[..k]
  {
    if k < |requests| {
      var front := requests[..|requests| - 1];
      AnswersTake(f, front, k);
      assert front[..k] == requests[..k];
    } else {
      assert requests[..k] == requests;
    }
  }

  predicate InsidePush(a: Action) {
    a.LoadOwnHead? || a.LoadTail? || a.CopyIn? || a.StoreHead?
  }

  predicate InsidePop(a: Action) {
    a.TestStop? || a.LoadOwnTail? || a.LoadHead? || a.CopyOut? || a.AdvanceOffset? || a.StoreTail?
  }

  function Init(c: Config, initQ: Bytes, initR: Bytes): (ch: Channel) {
    Channel(PollMachine.Init(c, initQ), PollMachine.Init(c, initR), Resting, Ready)
  }

  /** The ring a move works on and what it does there. */
  function OnRequest(c: Config, f: Bytes -> Bytes, ch: Channel, m: Move): (a: seq<Action>)
    ensures |a| <= 1
  {
    match m
    case ClientSend(buf) => [PushCall(buf)]
    case ClientStep(a) => if ch.client.Sending? then [a] else []
    case ServerReceive => [PopCall(c.messageSize)]
    case ServerStep(a) => if ch.server.Fetching? then [a] else []
    case _ => []
  }

  function OnResponse(c: Config, f: Bytes -> Bytes, ch: Channel, m: Move): (a: seq<Action>)
    ensures |a| <= 1
  {
    match m
    case ClientReceive(size) => [PopCall(size)]
    case ClientStep(a) => if ch.client.Receiving? then [a] else []
    case ServerSend => if ch.server.Holding? then [PushCall(f(ch.server.request))] else []
    case ServerStep(a) => if ch.server.Answering? then [a] else []
    case _ => []
  }

  predicate Possible(c: Config, f: Bytes -> Bytes, ch: Channel, m: Move) {
    && (match m
        case ClientSend(buf) => ch.client.Resting? && |buf| <= c.messageSize
        case ClientReceive(size) => ch.client.Resting?
        case ClientStep(a) => (ch.client.Sending? && InsidePush(a)) || (ch.client.Receiving? && InsidePop(a))
        case ServerReceive => ch.server.Ready?
        case ServerSend => ch.server.Holding?
        case ServerStep(a) => (ch.server.Fetching? && InsidePop(a)) || (ch.server.Answering? && InsidePush(a)))
    && var q, r := OnRequest(c, f, ch, m), OnResponse(c, f, ch, m);
    && (q == [] || PollMachine.Enabled(c, ch.request, q[0]))
    && (r == [] || PollMachine.Enabled(c, ch.response, r[0]))
  }

  predicate MoveInBounds(c: Config, f: Bytes -> Bytes, ch: Channel, m: Move)
    requires Possible(c, f, ch, m)
  {
    var q, r := OnRequest(c, f, ch, m), OnResponse(c, f, ch, m);
    && (q == [] || PollMachine.InBounds(c, ch.request, q[0]))
    && (r == [] || PollMachine.InBounds(c, ch.response, r[0]))
  }

  function After(c: Config, f: Bytes -> Bytes, ch: Channel, m: Move): (ch': Channel)
    requires Possible(c, f, ch, m) && MoveInBounds(c, f, ch, m)
  {
    var q, r := OnRequest(c, f, ch, m), OnResponse(c, f, ch, m);
    Channel(
      if q == [] then ch.request else PollMachine.Step(c, ch.request, q[0]),
      if r == [] then ch.response else PollMachine.Step(c, ch.response, r[0]),
      match m
      case ClientSend(buf) => Client.Sending
      case ClientReceive(size) => Client.Receiving
      case ClientStep(a) => if a.StoreHead? || a.StoreTail? then Resting else ch.client
      case _ => ch.client,
      match m
      case ServerReceive => Fetching
      case ServerSend => Answering(ch.server.request)
      case ServerStep(a) =>
        if a.StoreHead? then Ready
        else if a.StoreTail? then Holding(ch.request.consumer.out)
        else ch.server
      case _ => ch.server)
  }

  // ---------------------------------------------------------------------------------------
  // The invariant
  // ---------------------------------------------------------------------------------------

  /** The requests as the server sees them. */
  ghost function Requests(c: Config, initQ: Bytes, ch: Channel): (requests: seq<Bytes>)
    requires ValidConfig(c) && ValidRegion(c, initQ) && Fitting(c, ch.request.bufs)
  {
    Records(c, initQ, ch.request.bufs)
  }

  /** How many requests have been answered. */
  ghost predicate ServerInv(f: Bytes -> Bytes, server: Server, requests: seq<Bytes>, taken: nat, responses: seq<Bytes>)
  {
    && taken <= |requests|
    && match server
       case Ready => responses == Answers(f, requests[..taken])
       case Fetching => responses == Answers(f, requests[..taken])
       case Holding(x) =>
         1 <= taken && x == requests[taken - 1] && responses == Answers(f, requests[..taken - 1])
       case Answering(x) =>
         1 <= taken && x == requests[taken - 1] && responses == Answers(f, requests[..taken - 1])
  }

  /** Each thread is inside exactly the call its ring side is inside; the server reads whole
      records and pushes the answer to the request it holds. */
  ghost predicate ControlInv(c: Config, f: Bytes -> Bytes, ch: Channel) {
    && (ch.client.Sending? <==> !ch.request.producer.Idle?)
    && (ch.client.Receiving? <==> !ch.response.consumer.Idle?)
    && (ch.server.Fetching? <==> !ch.request.consumer.Idle?)
    && (ch.server.Answering? <==> !ch.response.producer.Idle?)
    && !ch.request.stop && !ch.response.stop
    && ReadOffset(c, ch.request.consumer, ch.request.offset) == 0
    && (ch.server.Fetching? ==> ch.request.asked == c.messageSize)
    && (ch.server.Answering? ==> ch.response.producer.buf == f(ch.server.request))
  }

  ghost predicate Inv(c: Config, f: Bytes -> Bytes, initQ: Bytes, initR: Bytes, ch: Channel) {
    && PollMachine.Inv(c, initQ, ch.request)
    && PollMachine.Inv(c, initR, ch.response)
    && ControlInv(c, f, ch)
    && Uniform(ch.response.bufs, c.messageSize)
    && ServerInv(f, ch.server, Requests(c, initQ, ch), ch.request.popped, ch.response.bufs)
  }

  lemma {:induction false} InitInv(c: Config, f: Bytes -> Bytes, initQ: Bytes, initR: Bytes)
    requires ValidConfig(c) && ValidRegion(c, initQ) && ValidRegion(c, initR)
    ensures Inv(c, f, initQ, initR, Init(c, initQ, initR))
  {
    hide PollMachine.Inv, Records;
    PollMachine.InitInv(c, initQ);
    PollMachine.InitInv(c, initR);
  }

  /** A step inside push changes nothing of the consumer's, and publishes only at the end. */
  lemma {:induction false} PushFrame(c: Config, s: State, a: Action)
    requires PollMachine.Enabled(c, s, a) && PollMachine.InBounds(c, s, a)
    requires InsidePush(a) || (a.PushCall? && |a.buf| <= c.messageSize)
    ensures
      var s' := PollMachine.Step(c, s, a);
      && s'.consumer == s.consumer && s'.offset == s.offset && s'.asked == s.asked
      && s'.popped == s.popped && s'.stop == s.stop && s'.delivered == s.delivered
      && s'.bufs == (if a.StoreHead? then s.bufs + [s.producer.buf] else s.bufs)
      && (s'.producer.Idle? <==> a.StoreHead?)
      && (!a.StoreHead? ==> s'.producer.buf == if a.PushCall? then a.buf else s.producer.buf)
  {
  }

  /** A step inside pop changes nothing of the producer's, and finishes only at the end. */
  lemma {:induction false} PopFrame(c: Config, s: State, a: Action)
    requires PollMachine.Enabled(c, s, a) && PollMachine.InBounds(c, s, a) && !s.stop
    requires InsidePop(a) || a.PopCall?
    ensures
      var s' := PollMachine.Step(c, s, a);
      && s'.producer == s.producer && s'.bufs == s.bufs && !s'.stop
      && s'.asked == (if a.PopCall? then a.size else s.asked)
      && (s'.consumer.Idle? <==> a.StoreTail?)
      && (!a.StoreTail? ==>
            && s'.popped == s.popped && s'.delivered == s.delivered
            && ReadOffset(c, s'.consumer, s'.offset) == ReadOffset(c, s.consumer, s.offset))
  {
  }

  /** The server's pop takes exactly one whole record. */
  lemma {:induction false} WholeRecord(c: Config, initQ: Bytes, s: State)
    requires PollMachine.Inv(c, initQ, s) && s.consumer.Publishing? && s.asked == c.messageSize
    requires ReadOffset(c, s.consumer, s.offset) == 0
    ensures s.popped < |s.bufs| && s.consumer.finished && s.offset == 0
    ensures s.consumer.out == Records(c, initQ, s.bufs)[s.popped]
  {
  }

  /** The server's side of the bookkeeping when it starts a call. */
  lemma {:induction false} ServerCalls(f: Bytes -> Bytes, requests: seq<Bytes>, taken: nat, responses: seq<Bytes>,
                                       x: Bytes)
    ensures ServerInv(f, Ready, requests, taken, responses) ==> ServerInv(f, Fetching, requests, taken, responses)
    ensures ServerInv(f, Holding(x), requests, taken, responses) ==>
      ServerInv(f, Answering(x), requests, taken, responses)
  {
  }

  lemma {:induction false} ServerTook(f: Bytes -> Bytes, requests: seq<Bytes>, taken: nat, responses: seq<Bytes>)
    requires ServerInv(f, Fetching, requests, taken, responses) && taken < |requests|
    ensures ServerInv(f, Holding(requests[taken]), requests, taken + 1, responses)
  {
  }

  lemma {:induction false} ServerAnswered(f: Bytes -> Bytes, requests: seq<Bytes>, taken: nat, responses: seq<Bytes>,
                                          x: Bytes)
    requires ServerInv(f, Answering(x), requests, taken, responses)
    ensures ServerInv(f, Ready, requests, taken, responses + [f(x)])
  {
    assert requests[..taken] == requests[..taken - 1] + [x];
    AnswersAppend(f, requests[..taken - 1], x);
  }

  lemma {:induction false} RequestAdded(f: Bytes -> Bytes, server: Server, requests: seq<Bytes>, taken: nat,
                                        responses: seq<Bytes>, x: Bytes)
    requires ServerInv(f, server, requests, taken, responses)
    ensures ServerInv(f, server, requests + [x], taken, responses)
  {
    assert (requests + [x])[..taken] == requests[..taken];
    if 1 <= taken {
      assert (requests + [x])[..taken - 1] == requests[..taken - 1];
    }
  }

  /** The client side of the request ring. */
  lemma {:induction false} ClientPushInv(c: Config, f: Bytes -> Bytes, initQ: Bytes, initR: Bytes, ch: Channel, m: Move)
    requires Inv(c, f, initQ, initR, ch) && Possible(c, f, ch, m)
    requires m.ClientSend? || (m.ClientStep? && ch.client.Sending?)
    ensures MoveInBounds(c, f, ch, m) && Inv(c, f, initQ, initR, After(c, f, ch, m))
  {
    hide PollMachine.Inv, Records;
    var a := OnRequest(c, f, ch, m)[0];
    StepInv(c, initQ, ch.request, a);
    PushFrame(c, ch.request, a);
    if a.StoreHead? {
      RecordsAppend(c, initQ, ch.request.bufs, ch.request.producer.buf);
      RequestAdded(f, ch.server, Requests(c, initQ, ch), ch.request.popped, ch.response.bufs,
                   RecordAt(c, initQ, ch.request.bufs + [ch.request.producer.buf], |ch.request.bufs|));
    }
  }

  /** The client side of the response ring. */
  lemma {:induction false} ClientPopInv(c: Config, f: Bytes -> Bytes, initQ: Bytes, initR: Bytes, ch: Channel, m: Move)
    requires Inv(c, f, initQ, initR, ch) && Possible(c, f, ch, m)
    requires m.ClientReceive? || (m.ClientStep? && ch.client.Receiving?)
    ensures MoveInBounds(c, f, ch, m) && Inv(c, f, initQ, initR, After(c, f, ch, m))
  {
    hide PollMachine.Inv, Records;
    var a := OnResponse(c, f, ch, m)[0];
    StepInv(c, initR, ch.response, a);
    PopFrame(c, ch.response, a);
  }

  /** The server side of the request ring. */
  lemma {:induction false} ServerPopInv(c: Config, f: Bytes -> Bytes, initQ: Bytes, initR: Bytes, ch: Channel, m: Move)
    requires Inv(c, f, initQ, initR, ch) && Possible(c, f, ch, m)
    requires m.ServerReceive? || (m.ServerStep? && ch.server.Fetching?)
    ensures MoveInBounds(c, f, ch, m) && Inv(c, f, initQ, initR, After(c, f, ch, m))
  {
    hide PollMachine.Inv, Records;
    var a := OnRequest(c, f, ch, m)[0];
    StepInv(c, initQ, ch.request, a);
    PopFrame(c, ch.request, a);
    if a.StoreTail? {
      ServerFetched(c, f, initQ, initR, ch, m);
    } else if a.PopCall? {
      ServerCalls(f, Requests(c, initQ, ch), ch.request.popped, ch.response.bufs, []);
    }
  }

  lemma {:induction false} ServerFetched(c: Config, f: Bytes -> Bytes, initQ: Bytes, initR: Bytes, ch: Channel, m: Move)
    requires Inv(c, f, initQ, initR, ch) && Possible(c, f, ch, m)
    requires m == ServerStep(StoreTail) && ch.server.Fetching?
    ensures MoveInBounds(c, f, ch, m) && Inv(c, f, initQ, initR, After(c, f, ch, m))
  {
    hide PollMachine.Inv, Records;
    StepInv(c, initQ, ch.request, StoreTail);
    PopFrame(c, ch.request, StoreTail);
    WholeRecord(c, initQ, ch.request);
    ServerTook(f, Requests(c, initQ, ch), ch.request.popped, ch.response.bufs);
  }

  /** The server side of the response ring. */
  lemma {:induction false} ServerPushInv(c: Config, f: Bytes -> Bytes, initQ: Bytes, initR: Bytes, ch: Channel, m: Move)
    requires Inv(c, f, initQ, initR, ch) && Possible(c, f, ch, m) && Sized(c, f)
    requires m.ServerSend? || (m.ServerStep? && ch.server.Answering?)
    ensures MoveInBounds(c, f, ch, m) && Inv(c, f, initQ, initR, After(c, f, ch, m))
  {
    hide PollMachine.Inv, Records;
    var a, x := OnResponse(c, f, ch, m)[0], ch.server.request;
    assert |f(x)| == c.messageSize;
    StepInv(c, initR, ch.response, a);
    PushFrame(c, ch.response, a);
    if a.StoreHead? {
      ServerAnswered(f, Requests(c, initQ, ch), ch.request.popped, ch.response.bufs, x);
    } else if a.PushCall? {
      ServerCalls(f, Requests(c, initQ, ch), ch.request.popped, ch.response.bufs, x);
    }
  }

  lemma {:induction false} StepKeepsInv(c: Config, f: Bytes -> Bytes, initQ: Bytes, initR: Bytes, ch: Channel, m: Move)
    requires Inv(c, f, initQ, initR, ch) && Possible(c, f, ch, m) && Sized(c, f)
    ensures MoveInBounds(c, f, ch, m) && Inv(c, f, initQ, initR, After(c, f, ch, m))
  {
    if m.ClientSend? || (m.ClientStep? && ch.client.Sending?) {
      ClientPushInv(c, f, initQ, initR, ch, m);
    } else if m.ClientReceive? || m.ClientStep? {
      ClientPopInv(c, f, initQ, initR, ch, m);
    } else if m.ServerReceive? || (m.ServerStep? && ch.server.Fetching?) {
      ServerPopInv(c, f, initQ, initR, ch, m);
    } else {
      ServerPushInv(c, f, initQ, initR, ch, m);
    }
  }

  // ---------------------------------------------------------------------------------------
  // Whole runs
  // ---------------------------------------------------------------------------------------

  ghost predicate Reaches(c: Config, f: Bytes -> Bytes, ch: Channel, moves: seq<Move>, end: Channel)
    decreases |moves|
  {
    if moves == [] then ch == end
    else
      && Possible(c, f, ch, moves[0]) && MoveInBounds(c, f, ch, moves[0])
      && Reaches(c, f, After(c, f, ch, moves[0]), moves[1..], end)
  }

  lemma {:induction false} RunKeepsInv(c: Config, f: Bytes -> Bytes, initQ: Bytes, initR: Bytes, ch: Channel,
                                       moves: seq<Move>, end: Channel)
    requires Inv(c, f, initQ, initR, ch) && Sized(c, f) && Reaches(c, f, ch, moves, end)
    ensures Inv(c, f, initQ, initR, end)
    decreases |moves|
  {
    if moves != [] {
      StepKeepsInv(c, f, initQ, initR, ch, moves[0]);
      RunKeepsInv(c, f, initQ, initR, After(c, f, ch, moves[0]), moves[1..], end);
    }
  }

  lemma {:induction false} ReachableInv(c: Config, f: Bytes -> Bytes, initQ: Bytes, initR: Bytes, moves: seq<Move>,
                                        ch: Channel)
    requires ValidConfig(c) && ValidRegion(c, initQ) && ValidRegion(c, initR) && Sized(c, f)
    requires Reaches(c, f, Init(c, initQ, initR), moves, ch)
    ensures Inv(c, f, initQ, initR, ch)
  {
    hide Init, Inv;
    InitInv(c, f, initQ, initR);
    RunKeepsInv(c, f, initQ, initR, Init(c, initQ, initR), moves, ch);
  }

  /** The answers sent are those of the first requests, in order. */
  lemma {:induction false} AnsweredPrefix(f: Bytes -> Bytes, server: Server, requests: seq<Bytes>, taken: nat,
                                          responses: seq<Bytes>)
    requires ServerInv(f, server, requests, taken, responses)
    ensures responses <= Answers(f, requests)
  {
    AnswersTake(f, requests, |responses|);
  }

  /** End to end: whatever the server function and the interleaving, the bytes the client has
      received are a prefix of the answers to its requests, in the order of the requests. */
  lemma {:induction false} ResponsesAnswerRequests(c: Config, f: Bytes -> Bytes, initQ: Bytes, initR: Bytes,
                                                   moves: seq<Move>, ch: Channel)
    requires ValidConfig(c) && ValidRegion(c, initQ) && ValidRegion(c, initR) && Sized(c, f)
    requires Reaches(c, f, Init(c, initQ, initR), moves, ch)
    ensures Fitting(c, ch.request.bufs)
    ensures ch.response.delivered <= Flatten(Answers(f, Requests(c, initQ, ch)))
  {
    hide Init, Reaches, Holds;
    ReachableInv(c, f, initQ, initR, moves, ch);
    var requests := Requests(c, initQ, ch);
    FullPushes(c, initR, ch.response.bufs);
    var r := ch.response;
    ReadIsPrefix(r.bufs, c.messageSize, r.popped, ReadOffset(c, r.consumer, r.offset));
    AnsweredPrefix(f, ch.server, requests, ch.request.popped, r.bufs);
    FlattenTake(Answers(f, requests), |r.bufs|);
    assert Answers(f, requests)[..|r.bufs|] == r.bufs;
  }

  /** The i-th whole response answers the i-th request; a request of full size is the buffer sent. */
  lemma {:induction false} IthResponse(c: Config, f: Bytes -> Bytes, initQ: Bytes, initR: Bytes, moves: seq<Move>,
                                       ch: Channel, i: nat)
    requires ValidConfig(c) && ValidRegion(c, initQ) && ValidRegion(c, initR) && Sized(c, f)
    requires Reaches(c, f, Init(c, initQ, initR), moves, ch)
    requires (i + 1) * c.messageSize <= |ch.response.delivered|
    ensures i < |ch.request.bufs| && Fitting(c, ch.request.bufs)
    ensures 0 <= i * c.messageSize <= (i + 1) * c.messageSize
    ensures ch.response.delivered[i * c.messageSize..(i + 1) * c.messageSize] == f(Requests(c, initQ, ch)[i])
    ensures |ch.request.bufs[i]| == c.messageSize ==>
      ch.response.delivered[i * c.messageSize..(i + 1) * c.messageSize] == f(ch.request.bufs[i])
  {
    hide Records, Flatten;
    ResponsesAnswerRequests(c, f, initQ, initR, moves, ch);
    var requests := Requests(c, initQ, ch);
    var answers, size := Answers(f, requests), c.messageSize;
    AnswersSized(c, f, requests);
    FlattenLength(answers, size);
    if i >= |answers| {
      assert (i + 1 - |answers|) * size >= size by { MulAtLeast(i + 1 - |answers|, size); }
      MulDistributes(i + 1, |answers|, size);
      assert false;
    }
    FlattenRecord(answers, size, i);
    AnswersIndex(f, requests, i);
    RecordsIndex(c, initQ, ch.request.bufs, i);
    if |ch.request.bufs[i]| == size {
      FullPush(c, initQ, ch.request.bufs, i);
    }
    var d := ch.response.delivered;
    assert d == Flatten(answers)[..|d|];
    assert d[i * size..(i + 1) * size] == Flatten(answers)[i * size..(i + 1) * size];
  }

  lemma {:induction false} AnswersSized(c: Config, f: Bytes -> Bytes, requests: seq<Bytes>)
    requires Sized(c, f) && Uniform(requests, c.messageSize)
    ensures Uniform(Answers(f, requests), c.messageSize)
  {
    if requests != [] {
      AnswersSized(c, f, requests[..|requests| - 1]);
    }
  }
}
