/** The manager reads a row's queue type before it tests the reservation: exactly which clients can be
    given rings of the wrong type because of that. */
module QueueTypeRace {
  import opened Slots
  import opened SlotProtocol
  import opened SlotInvariant
  import opened SlotManager
  import opened SlotTheorems

  ghost predicate Reachable(p: Params, s: State) {
    exists acts :: Reaches(p, Init(p), acts, s)
  }

  /** One more step of a run. */
  lemma {:induction false} Then(p: Params, s: State, a: Action) returns (t: State)
    requires ValidParams(p) && Reachable(p, s) && Inv(p, s) && Enabled(p, s, a)
    ensures t == Step(p, s, a) && Reachable(p, t) && Inv(p, t)
  {
    hide Inv, Reaches, Step, Enabled, Init;
    t := Step(p, s, a);
    var acts :| Reaches(p, Init(p), acts, s);
    ReachesThen(p, Init(p), acts, s, a);
    StepInv(p, s, a);
  }

  /** Every live segment was made by the POLL allocator. */
  predicate AllPoll(live: map<int, Segment>) {
    forall id :: id in live ==> live[id].kind == POLL
  }

  /** Client x is at q and the manager at m, and only POLL segments have been made. */
  ghost predicate At(p: Params, s: State, x: Id, q: Client, m: Manager)
    ensures At(p, s, x, q, m) ==> Shaped(p, s)
  {
    && ValidParams(p) && Reachable(p, s) && Inv(p, s)
    && x in s.clients && s.clients[x] == q && s.manager == m
    && AllPoll(s.live)
  }

  /** The manager reads the type of a blank row. */
  lemma {:induction false} ReadsType(p: Params, x: Id) returns (s: State)
    requires ValidParams(p) && x in p.want
    ensures At(p, s, x, Out, TestReserved(0, POLL)) && s.mutex == {} && !s.reserved[0] && !AcceptHolds(s.accept.pc)
  {
    hide Inv, ClientStep, AcceptStep;
    assert Reaches(p, Init(p), [], Init(p));
    InitInv(p);
    s := Then(p, Init(p), ManagerMove);
  }

  /** Then the client starts to fill it in. */
  lemma {:induction false} Starts(p: Params, x: Id) returns (s: State)
    requires ValidParams(p) && x in p.want
    ensures At(p, s, x, Writing(0, 0), TestReserved(0, POLL))
  {
    hide Inv, Reachable, AllPoll, ManagerStep, AcceptStep;
    s := ReadsType(p, x);
    s := Then(p, s, OpenCall(x));
    s := Then(p, s, ClientMove(x));
    s := Then(p, s, ClientMove(x));
  }

  lemma {:induction false} Fills(p: Params, s: State, x: Id, k: nat) returns (t: State)
    requires At(p, s, x, Writing(0, k), TestReserved(0, POLL)) && k <= 7
    ensures At(p, t, x, Granted(0), TestReserved(0, POLL)) && t.reserved[0] && !t.rows[0].created
    decreases 7 - k
  {
    hide Inv, Reachable, AllPoll, WriteField, Claimed, ManagerStep, AcceptStep;
    ClientFacts(p, s, x);
    FreeFacts(p, s, 0);
    t := Then(p, s, ClientMove(x));
    if k < 7 {
      t := Fills(p, t, x, k + 1);
    }
  }

  /** The manager goes on with the type it read before. */
  lemma {:induction false} Services(p: Params, s: State, x: Id) returns (t: State)
    requires At(p, s, x, Granted(0), TestReserved(0, POLL)) && s.reserved[0] && !s.rows[0].created
    ensures exists size, id :: At(p, t, x, Granted(0), MakeRequest(0, POLL, size, id))
  {
    hide Inv, Reachable, AllPoll, ClientStep, AcceptStep;
    t := Then(p, s, ManagerMove);
    t := Then(p, t, ManagerMove);
    t := ReadsRow(p, t, x);
  }

  lemma {:induction false} ReadsRow(p: Params, s: State, x: Id) returns (t: State)
    requires At(p, s, x, Granted(0), ReadSize(0, POLL))
    ensures exists size, id :: At(p, t, x, Granted(0), MakeRequest(0, POLL, size, id))
  {
    hide Inv, Reachable, AllPoll, ClientStep, AcceptStep;
    t := Then(p, s, ManagerMove);
    t := Then(p, t, ManagerMove);
    assert At(p, t, x, Granted(0), MakeRequest(0, POLL, t.manager.size, t.manager.id));
  }

  lemma {:induction false} Allocates(p: Params, s: State, x: Id) returns (t: State)
    requires s.manager.MakeRequest? && At(p, s, x, Granted(0), MakeRequest(0, POLL, s.manager.size, s.manager.id))
    ensures exists request, response :: At(p, t, x, Granted(0), WriteRequest(0, request, response))
  {
    hide Inv, Reachable, ClientStep, AcceptStep;
    t := Then(p, s, ManagerMove);
    t := Then(p, t, ManagerMove);
    t := Formats(p, t, x);
  }

  lemma {:induction false} Formats(p: Params, s: State, x: Id) returns (t: State)
    requires s.manager.FormatRequest? && s.manager.i == 0 && At(p, s, x, Granted(0), s.manager)
    ensures exists request, response :: At(p, t, x, Granted(0), WriteRequest(0, request, response))
  {
    hide Inv, Reachable, ShmCreate, ClientStep, AcceptStep;
    t := Then(p, s, ManagerMove);
    t := Then(p, t, ManagerMove);
    assert At(p, t, x, Granted(0), WriteRequest(0, t.manager.request, t.manager.response));
  }

  lemma {:induction false} Publishes(p: Params, s: State, x: Id) returns (t: State)
    requires s.manager.WriteRequest? && At(p, s, x, Granted(0), WriteRequest(0, s.manager.request, s.manager.response))
    ensures At(p, t, x, Granted(0), TestDetach(0)) && t.rows[0].created
  {
    hide Inv, Reachable, AllPoll, ClientStep, AcceptStep;
    t := Then(p, s, ManagerMove);
    t := Then(p, t, ManagerMove);
    t := Raises(p, t, x);
  }

  lemma {:induction false} Raises(p: Params, s: State, x: Id) returns (t: State)
    requires s.manager.Publish? && s.manager.i == 0 && At(p, s, x, Granted(0), s.manager)
    ensures At(p, t, x, Granted(0), TestDetach(0)) && t.rows[0].created
  {
    hide Inv, Reachable, AllPoll, ClientStep, AcceptStep;
    t := Then(p, s, ManagerMove);
  }

  /** The client opens with what it finds. */
  lemma {:induction false} Opens(p: Params, s: State, x: Id) returns (t: State)
    requires At(p, s, x, Granted(0), TestDetach(0)) && s.rows[0].created
    ensures t.clients.Keys == p.want.Keys && x in p.want && t.clients[x].Open? &&
      At(p, t, x, t.clients[x], TestDetach(0))
  {
    hide Inv, Reachable, AllPoll, ManagerStep, AcceptStep;
    t := Then(p, s, ClientMove(x));
    t := Then(p, t, ClientMove(x));
    t := Then(p, t, ClientMove(x));
    t := Copies(p, t, x);
    t := Attaches(p, t, x);
  }

  lemma {:induction false} Copies(p: Params, s: State, x: Id) returns (t: State)
    requires x in s.clients && s.clients[x].CopyingRequest? && At(p, s, x, s.clients[x], TestDetach(0))
    ensures x in t.clients && t.clients[x].Identifying? && At(p, t, x, t.clients[x], TestDetach(0))
  {
    hide Inv, Reachable, AllPoll, ManagerStep, AcceptStep;
    t := Then(p, s, ClientMove(x));
    t := Then(p, t, ClientMove(x));
  }

  lemma {:induction false} Attaches(p: Params, s: State, x: Id) returns (t: State)
    requires x in s.clients && s.clients[x].Identifying? && At(p, s, x, s.clients[x], TestDetach(0))
    ensures t.clients.Keys == p.want.Keys && x in p.want && t.clients[x].Open? &&
      At(p, t, x, t.clients[x], TestDetach(0))
  {
    hide Inv, Reachable, AllPoll, PairInv, IsKeyOf, ManagerStep, AcceptStep;
    ClientFacts(p, s, x);
    t := Then(p, s, ClientMove(x));
    ClientFacts(p, t, x);
    t := Then(p, t, ClientMove(x));
    t := Then(p, t, ClientMove(x));
  }

  /** If x is connected, both its rings are of the type it asked for. */
  ghost predicate RightType(p: Params, s: State, x: Id)
    requires Shaped(p, s) && x in p.want
  {
    var q := s.clients[x];
    q.Open? ==>
      && q.request.shmid in s.live && s.live[q.request.shmid].kind == p.want[x].kind
      && q.response.shmid in s.live && s.live[q.response.shmid].kind == p.want[x].kind
  }

  ghost predicate AlwaysRightType(p: Params, x: Id)
    requires x in p.want
  {
    forall s :: Reachable(p, s) && Shaped(p, s) ==> RightType(p, s, x)
  }

  /** A client that asks for anything but POLL can be given rings laid out by the POLL allocator. */
  lemma {:induction false} WrongTypePossible(p: Params, x: Id)
    requires ValidParams(p) && x in p.want && p.want[x].kind != POLL
    ensures !AlwaysRightType(p, x)
  {
    hide Inv, Reachable, PairInv;
    var s := Starts(p, x);
    s := Fills(p, s, x, 0);
    s := Services(p, s, x);
    s := Allocates(p, s, x);
    s := Publishes(p, s, x);
    s := Opens(p, s, x);
    assert !RightType(p, s, x);
  }

  lemma {:induction false} PollIsRight(p: Params, s: State, x: Id)
    requires Inv(p, s) && x in p.want && p.want[x].kind == POLL
    ensures RightType(p, s, x)
  {
    hide Inv, IsKeyOf;
    ClientFacts(p, s, x);
    SlotFacts(p, s, s.manager.i);
  }

  /** Over all runs, a client's rings are of the type it asked for if and only if it asked for POLL, the
      type of a blank row. */
  lemma {:induction false} QueueTypeExactly(p: Params, x: Id)
    requires ValidParams(p) && x in p.want
    ensures AlwaysRightType(p, x) <==> p.want[x].kind == POLL
  {
    hide Inv, Init, RightType, Reaches;
    if p.want[x].kind != POLL {
      WrongTypePossible(p, x);
    } else {
      forall s | Reachable(p, s) && Shaped(p, s)
        ensures RightType(p, s, x)
      {
        var acts :| Reaches(p, Init(p), acts, s);
        ReachableInv(p, acts, s);
        PollIsRight(p, s, x);
      }
    }
  }
}
