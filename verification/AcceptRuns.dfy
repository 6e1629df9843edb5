/** What accept hands out, over every interleaving of the accepting thread with the manager and the clients. */
module AcceptRuns {
  import opened Slots
  import opened SlotProtocol
  import opened SlotInvariant
  import opened SlotManager
  import opened SlotTheorems
  import opened AcceptInvariant
  import opened AcceptOrder
  import CoordOps

  // ---------------------------------------------------------------------------------------
  // The pair accept has in hand
  // ---------------------------------------------------------------------------------------

  /** Tenancy t of slot i has not been cleared: its first segment has not been removed. */
  predicate Standing(s: State, i: nat, t: nat) {
    && i < |s.term| && GoesOn(t, i in s.owner, s.manager, i, s.term[i])
    && !(s.manager.i == i && s.manager.RemoveResponse?)
  }

  /** Segment id is a live one of tenancy t of slot i. */
  predicate Of(live: map<int, Segment>, id: int, i: nat, t: nat) {
    id in live && live[id].slot == i && live[id].term == t
  }

  predicate LivePair(live: map<int, Segment>, request: Info, response: Info, i: nat, t: nat) {
    Of(live, request.shmid, i, t) && Of(live, response.shmid, i, t)
  }

  /** A tenancy whose pair has been published and not cleared. */
  lemma {:induction false} StandingFacts(p: Params, s: State, i: nat)
    requires Inv(p, s) && i < p.slots && Standing(s, i, s.term[i])
    ensures s.owner[i] in p.want && s.owner[i] in s.clients
    ensures s.rows[i].created ==>
      && LivePair(s.live, s.rows[i].request, s.rows[i].response, i, s.term[i])
      && MadeFor(p, s, s.rows[i].request, i, s.owner[i]) && MadeFor(p, s, s.rows[i].response, i, s.owner[i])
      && s.rows[i].request.shmid != s.rows[i].response.shmid
      && s.rows[i].id == s.owner[i] && s.rows[i].kind == p.want[s.owner[i]].kind
  {
    hide Inv, IsKeyOf, ClientOk, Claimed;
    SlotFacts(p, s, i);
  }

  /** Live segments of a slot are of its present tenancy, and are those the slot answers for. */
  lemma {:induction false} LiveOf(p: Params, s: State, id: int, i: nat, t: nat)
    requires Inv(p, s) && Of(s.live, id, i, t)
    ensures i < p.slots && i in s.owner && t == s.term[i] && id in Segments(s.rows[i], s.manager, i)
  {
    hide Inv, IsKeyOf, ClientOk, Claimed, TakenSlot, PairInv, FreeSlot, Segments;
    SlotFacts(p, s, s.manager.i);
  }

  /** The manager takes the segments away only from a client that has closed. */
  lemma {:induction false} OpenStands(p: Params, s: State, i: nat)
    requires Inv(p, s) && i in s.owner && s.owner[i] in s.clients && !s.clients[s.owner[i]].Closed?
    ensures i < p.slots && Standing(s, i, s.term[i])
  {
    hide Inv, IsKeyOf, ClientOk, Claimed, PairInv, FreeSlot, ServiceInv, Wiped, SegmentInv;
    OwnerInRange(p, s, i);
    SlotFacts(p, s, i);
  }

  /** At every moment from leaving its loop to attaching, accept has in hand the live pair of the tenancy it picked
      if and only if that tenancy has not been cleared. Then the pair, the id and the queue type are those of
      the client that holds the slot. */
  lemma {:induction false} PairInHand(p: Params, s: State)
    requires AcceptInv(p, s) && HasId(s.accept.pc) && !s.accept.pc.AttachResponse?
    ensures
      var pc, t := s.accept.pc, s.accept.picked;
      && (LivePair(s.live, pc.request, pc.response, pc.i, t) <==> Standing(s, pc.i, t))
      && (Standing(s, pc.i, t) ==>
            && s.owner[pc.i] in p.want
            && MadeFor(p, s, pc.request, pc.i, s.owner[pc.i]) && MadeFor(p, s, pc.response, pc.i, s.owner[pc.i])
            && pc.request.shmid != pc.response.shmid
            && pc.id == s.owner[pc.i] && s.accept.kind == p.want[s.owner[pc.i]].kind)
  {
    hide Inv, IsKeyOf, MadeFor, RowKnown;
    var pc, t := s.accept.pc, s.accept.picked;
    if Standing(s, pc.i, t) {
      StandingFacts(p, s, pc.i);
    }
    if LivePair(s.live, pc.request, pc.response, pc.i, t) {
      FirstOfPair(p, s);
    }
  }

  lemma {:induction false} RemovingFacts(p: Params, s: State)
    requires Inv(p, s) && s.manager.RemoveResponse? && s.manager.i in s.owner
    ensures s.rows[s.manager.i].created && s.rows[s.manager.i].request.shmid !in s.live
  {
    hide Inv, IsKeyOf, ClientOk, Claimed, SegmentInv;
    SlotFacts(p, s, s.manager.i);
  }

  /** Attaching: the call gains the request segment of the tenancy it picked if and only if that tenancy has not been
      cleared; having gained it, it hands out the tenancy if and only if the row has not been wiped in between. */
  lemma {:induction false} AttachesExactly(p: Params, s: State)
    requires AcceptInv(p, s) && (s.accept.pc.AttachRequest? || s.accept.pc.AttachResponse?)
    ensures
      var c, c', i, t := s.accept, AcceptStep(p, s).accept, s.accept.pc.i, s.accept.picked;
      && (c.pc.AttachRequest? ==> (c'.gained == t <==> Standing(s, i, t)))
      && (c.pc.AttachResponse? && c.gained == t ==>
            (c'.handed[(i, t)] == c.handed[(i, t)] + 1 <==> GoesOn(t, i in s.owner, s.manager, i, s.term[i])))
  {
    hide Inv, IsKeyOf, MadeFor, RowKnown;
    var c, i, t := s.accept, s.accept.pc.i, s.accept.picked;
    if c.pc.AttachRequest? {
      PairInHand(p, s);
      if Of(s.live, c.pc.request.shmid, i, t) {
        FirstOfPair(p, s);
      }
      if c.pc.request.shmid in s.live {
        RowFacts(p, s, i);
      }
    } else {
      if GoesOn(t, i in s.owner, s.manager, i, s.term[i]) {
        SecondOfPair(p, s, i);
      } else if Of(s.live, c.pc.response.shmid, i, t) {
        LiveOf(p, s, c.pc.response.shmid, i, t);
      }
    }
  }

  lemma {:induction false} FirstOfPair(p: Params, s: State)
    requires AcceptInv(p, s) && HasId(s.accept.pc)
    requires Of(s.live, s.accept.pc.request.shmid, s.accept.pc.i, s.accept.picked)
    ensures Standing(s, s.accept.pc.i, s.accept.picked)
  {
    hide Inv, IsKeyOf, RowKnown;
    var pc, t := s.accept.pc, s.accept.picked;
    LiveOf(p, s, pc.request.shmid, pc.i, t);
    if s.manager.i == pc.i && s.manager.RemoveResponse? {
      RemovingFacts(p, s);
    }
  }

  lemma {:induction false} SecondOfPair(p: Params, s: State, i: nat)
    requires Inv(p, s) && i < p.slots && GoesOn(s.term[i], i in s.owner, s.manager, i, s.term[i]) && s.rows[i].created
    ensures Of(s.live, s.rows[i].response.shmid, i, s.term[i])
  {
    hide Inv, IsKeyOf, ClientOk, Claimed;
    SlotFacts(p, s, i);
  }

  /** Some step of the run removes the first segment of slot i. */
  ghost predicate Clears(p: Params, s: State, acts: seq<Action>, t: State, i: nat)
    requires Reaches(p, s, acts, t)
    decreases |acts|
  {
    acts != [] &&
    (|| (acts[0].ManagerMove? && s.manager == RemoveRequest(i))
     || Clears(p, Step(p, s, acts[0]), acts[1..], t, i))
  }

  /** A tenancy that stands is brought down by exactly one step of the manager. */
  lemma {:induction false} StandsExactly(p: Params, s: State, a: Action, i: nat, t: nat)
    requires Inv(p, s) && Enabled(p, s, a) && i < p.slots && s.term[i] == t
    ensures Standing(Step(p, s, a), i, t) ==> Standing(s, i, t)
    ensures Standing(s, i, t) ==>
      (Standing(Step(p, s, a), i, t) <==> !(a.ManagerMove? && s.manager == RemoveRequest(i)))
  {
    hide Inv, ClientStep, ManagerStep, AcceptNext, Wiping, GoesOn;
    if a.ClientMove? {
      ClientStands(p, s, a.x, i, t);
    } else if a.ManagerMove? {
      ManagerStands(p, s, i, t);
    }
  }

  lemma {:induction false} ClientStands(p: Params, s: State, x: Id, i: nat, t: nat)
    requires Inv(p, s) && Enabled(p, s, ClientMove(x)) && i < p.slots && s.term[i] == t
    ensures Standing(ClientStep(p, s, x), i, t) <==> Standing(s, i, t)
  {
    hide Inv, PairInv, FreeSlot, Claimed, IsKeyOf, ServiceInv, TakenSlot;
    ClientFacts(p, s, x);
    MutexFacts(p, s);
  }

  lemma {:induction false} ManagerStands(p: Params, s: State, i: nat, t: nat)
    requires Inv(p, s) && i < p.slots && s.term[i] == t
    ensures Standing(ManagerStep(p, s), i, t) ==> Standing(s, i, t)
    ensures Standing(s, i, t) ==> (Standing(ManagerStep(p, s), i, t) <==> s.manager != RemoveRequest(i))
  {
    hide Inv, ShmCreate, Format, WipeField, RequestKey, ResponseKey, Fades, IsKeyOf, ClientOk, Claimed, SegmentInv,
      FreeSlot;
    SlotFacts(p, s, i);
    var m := s.manager;
    if m.MakeRequest? {
      CreateFades(s, RequestKey(m.kind, m.id), m.kind, m.i);
    } else if m.MakeResponse? {
      CreateFades(s, ResponseKey(m.kind, m.id), m.kind, m.i);
    }
  }

  lemma {:induction false} TermGrows(p: Params, s: State, a: Action, i: nat)
    requires Inv(p, s) && Enabled(p, s, a) && i < p.slots
    ensures |Step(p, s, a).term| == p.slots && s.term[i] <= Step(p, s, a).term[i]
  {
    hide Inv, ManagerStep, AcceptNext;
    StepInv(p, s, a);
    if a.ManagerMove? {
      ManagerSpares(p, s, i);
    }
  }

  /** Over whole runs: a tenancy stands at the end if and only if it stood at the beginning and the manager has not
      removed its first segment in between. */
  lemma {:induction false} StandsRun(p: Params, s: State, acts: seq<Action>, u: State, i: nat, t: nat)
    requires Inv(p, s) && Reaches(p, s, acts, u) && i < p.slots && t <= s.term[i]
    ensures Standing(u, i, t) <==> Standing(s, i, t) && !Clears(p, s, acts, u, i)
    decreases |acts|
  {
    hide Inv, Step, Enabled;
    if acts != [] {
      var s' := Step(p, s, acts[0]);
      StepInv(p, s, acts[0]);
      TermGrows(p, s, acts[0], i);
      if s.term[i] == t {
        StandsExactly(p, s, acts[0], i, t);
      }
      StandsRun(p, s', acts[1..], u, i, t);
    }
  }

  function AcceptCalls(acts: seq<Action>): (n: nat)
    decreases |acts|
  {
    if acts == [] then 0 else (if acts[0].AcceptCall? then 1 else 0) + AcceptCalls(acts[1..])
  }

  lemma {:induction false} PickStays(slots: nat, rows: seq<Row>, reserved: seq<bool>, term: seq<nat>,
                                     live: map<int, Segment>, c: Accept)
    requires |rows| == |reserved| == |term| == slots && InRange(c, slots) && HasPicked(c.pc)
    ensures
      var c' := AcceptNext(slots, rows, reserved, term, live, c);
      c'.picked == c.picked && (c'.pc.Resting? || (HasPicked(c'.pc) && c'.pc.i == c.pc.i))
  {
    hide CoordOps.NextSlot;
  }

  /** Until it returns, a call that has picked a slot is concerned with that slot. */
  lemma {:induction false} SameCall(p: Params, s: State, acts: seq<Action>, u: State)
    requires AcceptInv(p, s) && Reaches(p, s, acts, u) && AcceptCalls(acts) == 0
    requires s.accept.pc.Resting? || HasPicked(s.accept.pc)
    ensures u.accept.picked == s.accept.picked
    ensures u.accept.pc.Resting? || (HasPicked(s.accept.pc) && HasPicked(u.accept.pc) && u.accept.pc.i == s.accept.pc.i)
    decreases |acts|
  {
    hide AcceptInv, Inv, ClientStep, ManagerStep, AcceptNext;
    if acts != [] {
      var a := acts[0];
      StepAccept(p, s, a);
      if a.AcceptMove? {
        PickStays(p.slots, s.rows, s.reserved, s.term, s.live, s.accept);
      } else if a.ClientMove? {
        ClientFrames(p, s, a.x);
      } else if a.ManagerMove? {
        ManagerFrames(p, s);
      }
      SameCall(p, Step(p, s, a), acts[1..], u);
    }
  }

  /** A call of accept that has picked a slot, at s, and comes to attach, at u: it has the live pair of the tenancy it
      picked in hand if and only if the manager had not removed that tenancy's first segment before the pick and
      has not done so since. */
  lemma {:induction false} PickedPairExactly(p: Params, before: seq<Action>, s: State, acts: seq<Action>, u: State)
    requires ValidParams(p) && Reaches(p, Init(p), before, s) && Reaches(p, s, acts, u)
    requires s.accept.pc.Advancing? && AcceptCalls(acts) == 0
    requires HasId(u.accept.pc) && !u.accept.pc.AttachResponse?
    ensures Shaped(p, s) && Shaped(p, u) && u.accept.pc.i == s.accept.pc.i
    ensures
      var pc, i, t := u.accept.pc, s.accept.pc.i, s.accept.picked;
      && (LivePair(u.live, pc.request, pc.response, i, t) <==> Standing(s, i, t) && !Clears(p, s, acts, u, i))
      && (LivePair(u.live, pc.request, pc.response, i, t) ==>
            && i in u.owner && u.owner[i] in p.want
            && MadeFor(p, u, pc.request, i, u.owner[i]) && MadeFor(p, u, pc.response, i, u.owner[i])
            && pc.request.shmid != pc.response.shmid
            && pc.id == u.owner[i] && u.accept.kind == p.want[u.owner[i]].kind)
  {
    hide Inv, Init, Reaches, MadeFor, Clears, LivePair, RowKnown, Wiping;
    ReachableAccept(p, before, s);
    RunAccept(p, s, acts, u);
    SameCall(p, s, acts, u);
    StandsRun(p, s, acts, u, s.accept.pc.i, s.accept.picked);
    PairInHand(p, u);
  }

  // ---------------------------------------------------------------------------------------
  // The account of a tenancy
  // ---------------------------------------------------------------------------------------

  function One(b: bool): (n: nat) {
    if b then 1 else 0
  }

  /** accept is about to return the live pair of the present tenancy of slot i. */
  predicate Due(c: Accept, live: map<int, Segment>, i: nat, term: nat) {
    && AtSlot(c.pc) && c.pc.i == i
    && (|| (c.pc.AttachRequest? && LivePair(live, c.pc.request, c.pc.response, i, term))
        || (c.pc.AttachResponse? && c.gained == term && Of(live, c.pc.response.shmid, i, term)))
  }

  /** Addresses handed out, or about to be, less the flag that says so. */
  function Account(c: Accept, row: Row, live: map<int, Segment>, i: nat, term: nat): (n: int) {
    c.handed[(i, term)] + One(Due(c, live, i, term)) - One(row.serverAttached)
  }

  /** From here a call that looked at an earlier tenancy can still do harm to the present one. */
  predicate Danger(pc: Acceptor) {
    || pc.LoadRequest? || (pc.LoadResponse? && pc.request.key != 0)
    || ((pc.CheckId? || pc.LoadId?) && pc.request.key != 0 && pc.response.key != 0)
    || pc.CheckFlag? || pc.LoadFlag? || pc.CheckSet? || pc.StoreFlag?
  }

  /** No call that last found slot i created in an earlier tenancy is at such a point. */
  predicate Tame(c: Accept, i: nat, term: nat) {
    Danger(c.pc) && c.pc.i == i ==> c.seen == term
  }

  /** accept makes no change to what it owes a slot until it stores the flag or attaches. */
  lemma {:induction false} QuietAccount(slots: nat, rows: seq<Row>, reserved: seq<bool>, term: seq<nat>,
                                        live: map<int, Segment>, c: Accept, i: nat)
    requires |rows| == |reserved| == |term| == slots && InRange(c, slots) && i < slots
    requires !(AtSlot(c.pc) && c.pc.i == i &&
      (c.pc.CheckSet? || c.pc.StoreFlag? || c.pc.AttachRequest? || c.pc.AttachResponse?))
    ensures
      var c' := AcceptNext(slots, rows, reserved, term, live, c);
      c'.handed[(i, term[i])] == c.handed[(i, term[i])] && !Due(c', live, i, term[i]) && !Due(c, live, i, term[i])
  {
    hide CoordOps.NextSlot, LivePair, Of;
  }

  lemma {:induction false} StaysTame(slots: nat, rows: seq<Row>, reserved: seq<bool>, term: seq<nat>,
                                     live: map<int, Segment>, c: Accept, i: nat)
    requires |rows| == |reserved| == |term| == slots && InRange(c, slots) && i < slots && Tame(c, i, term[i])
    ensures Tame(AcceptNext(slots, rows, reserved, term, live, c), i, term[i])
  {
    hide CoordOps.NextSlot;
  }

  /** One step of accept, on the slot or elsewhere. */
  lemma {:induction false} AcceptAccount(slots: nat, rows: seq<Row>, reserved: seq<bool>, term: seq<nat>,
                                         live: map<int, Segment>, c: Accept, m: Manager, next: int, i: nat)
    requires |rows| == |reserved| == |term| == slots && InRange(c, slots) && i < slots
    requires HasPicked(c.pc) && c.pc.i == i ==> AcceptOk(c, rows[i], m, true, term[i], live, next)
    requires !Wiping(m, i) && Tame(c, i, term[i])
    requires rows[i].created ==> LivePair(live, rows[i].request, rows[i].response, i, term[i])
    requires forall id :: id in live && live[id].slot == i ==> live[id].term == term[i]
    ensures
      var c' := AcceptNext(slots, rows, reserved, term, live, c);
      var row' := if c.pc.StoreFlag? && c.pc.i == i then rows[i].(serverAttached := true) else rows[i];
      Tame(c', i, term[i]) && Account(c', row', live, i, term[i]) == Account(c, rows[i], live, i, term[i])
  {
    hide CoordOps.NextSlot, Wiping, AcceptNext, Tame;
    StaysTame(slots, rows, reserved, term, live, c, i);
    if AtSlot(c.pc) && c.pc.i == i &&
      (c.pc.CheckSet? || c.pc.StoreFlag? || c.pc.AttachRequest? || c.pc.AttachResponse?) {
      LateAccount(slots, rows, reserved, term, live, c, m, next, i);
    } else {
      QuietAccount(slots, rows, reserved, term, live, c, i);
    }
  }

  lemma {:induction false} LateAccount(slots: nat, rows: seq<Row>, reserved: seq<bool>, term: seq<nat>,
                                       live: map<int, Segment>, c: Accept, m: Manager, next: int, i: nat)
    requires |rows| == |reserved| == |term| == slots && InRange(c, slots) && i < slots
    requires c.pc.CheckSet? || c.pc.StoreFlag? || c.pc.AttachRequest? || c.pc.AttachResponse?
    requires c.pc.i == i && AcceptOk(c, rows[i], m, true, term[i], live, next)
    requires !Wiping(m, i) && Tame(c, i, term[i])
    requires rows[i].created ==> LivePair(live, rows[i].request, rows[i].response, i, term[i])
    requires forall id :: id in live && live[id].slot == i ==> live[id].term == term[i]
    ensures
      var c' := AcceptNext(slots, rows, reserved, term, live, c);
      var row' := if c.pc.StoreFlag? && c.pc.i == i then rows[i].(serverAttached := true) else rows[i];
      Account(c', row', live, i, term[i]) == Account(c, rows[i], live, i, term[i])
  {
    hide CoordOps.NextSlot, Wiping;
    var c' := AcceptNext(slots, rows, reserved, term, live, c);
    match c.pc
    case CheckSet(_, _, _, _) =>
    case StoreFlag(_, _, _, _) =>
    case AttachRequest(_, request, _, _) =>
      assert Due(c', live, i, term[i]) <==> Due(c, live, i, term[i]);
    case AttachResponse(_, _, response, _) =>
      assert c'.handed[(i, term[i])] == c.handed[(i, term[i])] + One(Due(c, live, i, term[i]));
  }

  /** The manager leaves the segments of a standing tenancy alone. */
  lemma {:induction false} ManagerOf(p: Params, s: State, i: nat, id: int, t: nat)
    requires AcceptInv(p, s) && i < p.slots && id < s.nextShmid
    requires !(s.manager.i == i && (s.manager.RemoveRequest? || s.manager.RemoveResponse?))
    ensures Of(ManagerStep(p, s).live, id, i, t) <==> Of(s.live, id, i, t)
  {
    hide Inv, ShmCreate, WipeField, RequestKey, ResponseKey, Fades, AcceptOk, IsKeyOf, ClientOk, Claimed, SegmentInv,
      PairInv;
    var m := s.manager;
    if m.MakeRequest? {
      CreateKeepsOf(s, RequestKey(m.kind, m.id), m.kind, m.i, id);
    } else if m.MakeResponse? {
      CreateKeepsOf(s, ResponseKey(m.kind, m.id), m.kind, m.i, id);
    } else if m.RemoveRequest? || m.RemoveResponse? {
      SlotFacts(p, s, m.i);
      assert RowKnown(s.rows[m.i], m.i, s.live, s.nextShmid);
    }
  }

  lemma {:induction false} CreateKeepsOf(s: State, key: int, kind: QueueType, i: nat, id: int)
    requires i < |s.term| && id < s.nextShmid
    ensures
      var s' := ShmCreate(s, key, kind, i).0;
      s'.live.Keys - {s.nextShmid} <= s.live.Keys <= s'.live.Keys && (id in s.live ==> s'.live[id] == s.live[id])
  {
  }

  /** Nor does it touch the flag. */
  lemma {:induction false} ManagerFlag(p: Params, s: State, i: nat)
    requires Shaped(p, s) && i < p.slots && !Wiping(s.manager, i)
    ensures
      var s' := ManagerStep(p, s);
      |s'.rows| == p.slots && s'.rows[i].serverAttached == s.rows[i].serverAttached && s'.term == s.term &&
        s'.accept == s.accept
  {
    hide ShmCreate, Format, RequestKey, ResponseKey, Fades;
    var m := s.manager;
    if m.MakeRequest? {
      CreateFades(s, RequestKey(m.kind, m.id), m.kind, m.i);
    } else if m.MakeResponse? {
      CreateFades(s, ResponseKey(m.kind, m.id), m.kind, m.i);
    }
  }

  lemma {:induction false} ManagerAccount(p: Params, s: State, i: nat)
    requires AcceptInv(p, s) && i < p.slots && Standing(s, i, s.term[i]) && s.manager != RemoveRequest(i)
    ensures
      var s' := ManagerStep(p, s);
      && |s'.rows| == p.slots && s'.term == s.term && s'.accept == s.accept
      && Account(s'.accept, s'.rows[i], s'.live, i, s.term[i]) == Account(s.accept, s.rows[i], s.live, i, s.term[i])
  {
    hide Inv, ManagerStep, Of, RowKnown;
    ManagerFlag(p, s, i);
    var pc := s.accept.pc;
    if pc.AttachRequest? || pc.AttachResponse? {
      ManagerOf(p, s, i, pc.request.shmid, s.term[i]);
      ManagerOf(p, s, i, pc.response.shmid, s.term[i]);
    }
  }

  lemma {:induction false} ClientAccount(p: Params, s: State, x: Id, i: nat)
    requires Inv(p, s) && Enabled(p, s, ClientMove(x)) && i < p.slots && i in s.owner
    ensures
      var s' := ClientStep(p, s, x);
      && |s'.rows| == |s'.term| == p.slots && s'.rows[i].serverAttached == s.rows[i].serverAttached &&
        s'.term[i] == s.term[i]
      && s'.accept == s.accept && s'.live == s.live
  {
    hide Inv, PairInv, FreeSlot, Claimed, IsKeyOf, ServiceInv, TakenSlot;
    ClientFacts(p, s, x);
  }

  /** No step changes the account of a standing tenancy, unless it starts from a call gone astray. */
  lemma {:induction false} AccountStep(p: Params, s: State, a: Action, i: nat)
    requires AcceptInv(p, s) && Enabled(p, s, a) && i < p.slots
    requires Standing(s, i, s.term[i]) && Standing(Step(p, s, a), i, s.term[i]) && Tame(s.accept, i, s.term[i])
    ensures
      var s' := Step(p, s, a);
      && |s'.rows| == |s'.term| == p.slots && s'.term[i] == s.term[i] && Tame(s'.accept, i, s.term[i])
      && Account(s'.accept, s'.rows[i], s'.live, i, s.term[i]) == Account(s.accept, s.rows[i], s.live, i, s.term[i])
  {
    hide Inv, ClientStep, ManagerStep, AcceptNext, RowKnown, Due, Wiping;
    match a
    case ClientMove(x) =>
      ClientAccount(p, s, x, i);
      SameAccount(s.accept, s.rows[i], ClientStep(p, s, x).rows[i], s.live, i, s.term[i]);
    case ManagerMove =>
      StandsExactly(p, s, a, i, s.term[i]);
      ManagerAccount(p, s, i);
    case AcceptMove =>
      StandingFacts(p, s, i);
      RowFacts(p, s, i);
      AcceptAccount(p.slots, s.rows, s.reserved, s.term, s.live, s.accept, s.manager, s.nextShmid, i);
    case AcceptCall =>
      assert !Due(s.accept, s.live, i, s.term[i]) &&
        !Due(s.accept.(pc := Calling(s.accept.slot)), s.live, i, s.term[i]) by {
        NotDue(s.accept, s.live, i, s.term[i]);
        NotDue(s.accept.(pc := Calling(s.accept.slot)), s.live, i, s.term[i]);
      }
    case _ =>
  }

  lemma {:induction false} NotDue(c: Accept, live: map<int, Segment>, i: nat, term: nat)
    requires !AtSlot(c.pc)
    ensures !Due(c, live, i, term)
  {
  }

  lemma {:induction false} SameAccount(c: Accept, row: Row, row': Row, live: map<int, Segment>, i: nat, term: nat)
    requires row.serverAttached == row'.serverAttached
    ensures Account(c, row, live, i, term) == Account(c, row', live, i, term)
  {
  }

  ghost predicate Balanced(s: State, i: nat, b: int)
    requires i < |s.rows| == |s.term|
  {
    Account(s.accept, s.rows[i], s.live, i, s.term[i]) == b
  }

  lemma {:induction false} AccountRun(p: Params, s: State, acts: seq<Action>, u: State, i: nat, b: int)
    requires AcceptInv(p, s) && Reaches(p, s, acts, u) && i < p.slots
    requires Standing(u, i, s.term[i]) && Tame(s.accept, i, s.term[i]) && Balanced(s, i, b)
    ensures AcceptInv(p, u) && Balanced(u, i, b) && Tame(u.accept, i, s.term[i])
    decreases |acts|
  {
    hide AcceptInv, Inv, Step, Enabled, Tame, Account;
    if acts != [] {
      var s' := Step(p, s, acts[0]);
      StepAccept(p, s, acts[0]);
      TermGrows(p, s, acts[0], i);
      StandsRun(p, s, acts, u, i, s.term[i]);
      StandsRun(p, s', acts[1..], u, i, s.term[i]);
      AccountStep(p, s, acts[0], i);
      AccountRun(p, s', acts[1..], u, i, b);
    }
  }

  // ---------------------------------------------------------------------------------------
  // Nobody is passed over
  // ---------------------------------------------------------------------------------------

  /** Slot i is one accept would pick: reserved, created and not asked to be given up. */
  predicate Eligible(s: State, i: nat) {
    i < |s.rows| && i < |s.reserved| && !s.rows[i].detach && s.reserved[i] && s.rows[i].created
  }

  /** Slot i is eligible in every state of the run. */
  ghost predicate StaysEligible(p: Params, s: State, acts: seq<Action>, i: nat)
    decreases |acts|
  {
    && Eligible(s, i)
    && (acts != [] && Shaped(p, s) && Enabled(p, s, acts[0]) ==> StaysEligible(p, Step(p, s, acts[0]), acts[1..], i))
  }

  lemma {:induction false} EligibleStands(p: Params, s: State, i: nat)
    requires Inv(p, s) && i < p.slots && Eligible(s, i)
    ensures i in s.owner && Standing(s, i, s.term[i])
  {
    hide Inv, IsKeyOf, ClientOk, Claimed, PairInv, SegmentInv, ServiceInv;
    SlotFacts(p, s, i);
  }

  /** accept has yet to come to slot i in the scan it is at; and if it is at slot i, it is there for the present
      tenancy. */
  predicate Watched(c: Accept, i: nat, term: nat, slots: nat)
    requires InRange(c, slots) && i < slots
  {
    && (c.pc.Calling? ==> c.pc.at == c.slot)
    && (c.pc.LookDetach? || c.pc.LookReserved? || c.pc.LookCreated? ==>
          Distance(c.pc.i, i, slots) < c.pc.left && Distance(c.pc.i, i, slots) <= Distance(c.slot, i, slots))
    && !c.pc.GivingUp?
    && (HasPicked(c.pc) && c.pc.i == i ==> c.seen == term)
  }

  /** How many more calls of accept it takes, at most, until the flag of slot i is up. */
  function Need(c: Accept, flag: bool, i: nat, slots: nat): (n: nat)
    requires InRange(c, slots) && i < slots
    ensures n <= slots
  {
    if flag then 0
    else if c.pc.Calling? || c.pc.LookDetach? || c.pc.LookReserved? || c.pc.LookCreated? then Distance(c.slot, i, slots)
    else if c.pc.Advancing? then
      if c.pc.i == i then 0 else Distance(CoordOps.NextSlot(c.pc.i, slots), i, slots) + 1
    else if HasPicked(c.pc) && c.pc.i == i then 0
    else Distance(c.slot, i, slots) + 1
  }

  lemma {:induction false} ScanNears(slots: nat, rows: seq<Row>, reserved: seq<bool>, term: seq<nat>,
                                     live: map<int, Segment>, c: Accept, i: nat)
    requires |rows| == |reserved| == |term| == slots && InRange(c, slots) && i < slots && !HasPicked(c.pc) &&
      !c.pc.Resting?
    requires !rows[i].detach && reserved[i] && rows[i].created && Watched(c, i, term[i], slots)
    ensures
      var c' := AcceptNext(slots, rows, reserved, term, live, c);
      InRange(c', slots) && Watched(c', i, term[i], slots)
      && Need(c', rows[i].serverAttached, i, slots) <= Need(c, rows[i].serverAttached, i, slots)
  {
    hide CoordOps.NextSlot, Distance;
    if AtSlot(c.pc) {
      Onwards(c.pc.i, i, slots);
    }
  }

  lemma {:induction false} PickNears(slots: nat, rows: seq<Row>, reserved: seq<bool>, term: seq<nat>,
                                     live: map<int, Segment>, c: Accept, i: nat)
    requires |rows| == |reserved| == |term| == slots && InRange(c, slots) && i < slots && HasPicked(c.pc)
    requires rows[i].created && Watched(c, i, term[i], slots) && (c.pc.i == i ==> ViewOk(c.pc, rows[i]))
    ensures
      var c' := AcceptNext(slots, rows, reserved, term, live, c);
      var flag := rows[i].serverAttached || (c.pc.StoreFlag? && c.pc.i == i);
      InRange(c', slots) && Watched(c', i, term[i], slots)
      && Need(c', flag, i, slots) <= Need(c, rows[i].serverAttached, i, slots)
  {
    hide CoordOps.NextSlot, Distance;
  }

  /** A call brings accept_slot nearer, or picks slot i and leaves its flag up. */
  lemma {:induction false} FairStep(p: Params, s: State, a: Action, i: nat)
    requires AcceptInv(p, s) && Enabled(p, s, a) && i < p.slots && Eligible(s, i) && Eligible(Step(p, s, a), i)
    requires Watched(s.accept, i, s.term[i], p.slots)
    ensures
      var s' := Step(p, s, a);
      && Inv(p, s') && s'.term[i] == s.term[i] && Watched(s'.accept, i, s.term[i], p.slots)
      && Need(s'.accept, s'.rows[i].serverAttached, i, p.slots) + One(a.AcceptCall? && !s.rows[i].serverAttached)
           <= Need(s.accept, s.rows[i].serverAttached, i, p.slots)
  {
    hide Inv, ClientStep, ManagerStep, AcceptNext, RowKnown, Wiping, Distance, ViewOk, FirstOk, PairKnown;
    StepInv(p, s, a);
    EligibleStands(p, s, i);
    match a
    case ClientMove(x) => ClientAccount(p, s, x, i);
    case ManagerMove => ManagerFlag(p, s, i);
    case AcceptMove =>
      if HasPicked(s.accept.pc) {
        PickNears(p.slots, s.rows, s.reserved, s.term, s.live, s.accept, i);
      } else {
        ScanNears(p.slots, s.rows, s.reserved, s.term, s.live, s.accept, i);
      }
    case _ =>
  }

  lemma {:induction false} FairRun(p: Params, s: State, acts: seq<Action>, u: State, i: nat)
    requires AcceptInv(p, s) && Reaches(p, s, acts, u) && i < p.slots && StaysEligible(p, s, acts, i)
    requires Watched(s.accept, i, s.term[i], p.slots) && u.accept.pc.Resting?
    requires s.rows[i].serverAttached || AcceptCalls(acts) >= Need(s.accept, s.rows[i].serverAttached, i, p.slots)
    ensures AcceptInv(p, u) && Eligible(u, i) && u.term[i] == s.term[i] && u.rows[i].serverAttached
    decreases |acts|
  {
    hide AcceptInv, Inv, Step, Enabled, Watched, Distance;
    if acts != [] {
      StepAccept(p, s, acts[0]);
      FairStep(p, s, acts[0], i);
      FairRun(p, Step(p, s, acts[0]), acts[1..], u, i);
    }
  }

  /** Fairness and uniqueness together, in every interleaving. Take any state between two calls of accept, and any run
      from it, with as many calls as there are slots, to another such state, throughout which slot i stays
      reserved, created and undetached. Then its addresses have been handed out once more if its flag was down, and
      not again if it was up. */
  lemma {:induction false} HandedExactly(p: Params, before: seq<Action>, s: State, acts: seq<Action>, u: State, i: nat)
    requires ValidParams(p) && Reaches(p, Init(p), before, s) && Reaches(p, s, acts, u)
    requires i < p.slots && StaysEligible(p, s, acts, i)
    requires s.accept.pc.Resting? && u.accept.pc.Resting? && AcceptCalls(acts) >= p.slots
    ensures Shaped(p, s) && Shaped(p, u) && u.term[i] == s.term[i] && u.rows[i].serverAttached
    ensures u.accept.handed[(i, s.term[i])]
         == s.accept.handed[(i, s.term[i])] + (if s.rows[i].serverAttached then 0 else 1)
  {
    hide Inv, Init, Reaches, Step, Distance, RowKnown;
    ReachableAccept(p, before, s);
    FairRun(p, s, acts, u, i);
    EligibleStands(p, u, i);
    AccountRun(p, s, acts, u, i, Account(s.accept, s.rows[i], s.live, i, s.term[i]));
  }

  /** So in the end they have been handed out exactly once if and only if at the start they had been handed out as
      often as the flag says. */
  lemma {:induction false} HandedExactlyOnce(p: Params, before: seq<Action>, s: State, acts: seq<Action>, u: State,
                                             i: nat)
    requires ValidParams(p) && Reaches(p, Init(p), before, s) && Reaches(p, s, acts, u)
    requires i < p.slots && StaysEligible(p, s, acts, i)
    requires s.accept.pc.Resting? && u.accept.pc.Resting? && AcceptCalls(acts) >= p.slots
    ensures Shaped(p, s)
    ensures u.accept.handed[(i, s.term[i])] == 1 <==>
      s.accept.handed[(i, s.term[i])] == One(s.rows[i].serverAttached)
  {
    hide Init, Reaches, StaysEligible;
    HandedExactly(p, before, s, acts, u, i);
  }

  // ---------------------------------------------------------------------------------------
  // Calls return
  // ---------------------------------------------------------------------------------------

  /** Most steps the call takes until it returns, as long as it need not look again. */
  function StepsLeft(pc: Acceptor, slots: nat): (n: nat) {
    match pc
    case Resting => 0
    case GivingUp => 1
    case Calling(_) => 3 * slots + 20
    case LookDetach(_, left) => 3 * left + 17
    case LookReserved(_, left) => 3 * left + 16
    case LookCreated(_, left) => 3 * left + 15
    case Advancing(_) => 14
    case Unlocking(_) => 13
    case LoadType(_) => 12
    case CheckCreated(_, _, _) => 11
    case LoadRequest(_, _, _) => 10
    case LoadResponse(_, _, _, _) => 9
    case CheckId(_, _, _) => 8
    case LoadId(_, _, _) => 7
    case CheckFlag(_, _, _, _) => 6
    case LoadFlag(_, _, _, _) => 5
    case CheckSet(_, _, _, _) => 4
    case StoreFlag(_, _, _, _) => 3
    case AttachRequest(_, _, _, _) => 2
    case AttachResponse(_, _, _, _) => 1
  }

  /** The row of the slot that accept has picked has been wiped since. */
  predicate WipedUnder(s: State) {
    var pc := s.accept.pc;
    HasPicked(pc) && pc.i < |s.term| && !GoesOn(s.accept.picked, pc.i in s.owner, s.manager, pc.i, s.term[pc.i])
  }

  lemma {:induction false} CallStep(p: Params, s: State)
    requires AcceptInv(p, s) && !s.accept.pc.Resting? && !WipedUnder(s)
    ensures StepsLeft(AcceptStep(p, s).accept.pc, p.slots) < StepsLeft(s.accept.pc, p.slots)
  {
    hide Inv, RowKnown, Wiping, PairKnown, CoordOps.NextSlot;
    if HasPicked(s.accept.pc) {
      RowFacts(p, s, s.accept.pc.i);
    }
  }

  function AcceptMoves(acts: seq<Action>): (n: nat)
    decreases |acts|
  {
    if acts == [] then 0 else (if acts[0].AcceptMove? then 1 else 0) + AcceptMoves(acts[1..])
  }

  /** A call of accept returns within 3 * slots + 20 of its own steps, whatever the others do, unless the row of the
      slot it has picked is wiped first. */
  lemma {:induction false} CallReturns(p: Params, s: State, acts: seq<Action>, u: State) returns (n: nat, v: State)
    requires AcceptInv(p, s) && Reaches(p, s, acts, u) && AcceptMoves(acts) >= StepsLeft(s.accept.pc, p.slots)
    ensures n <= |acts| && Reaches(p, s, acts[..n], v) && (v.accept.pc.Resting? || WipedUnder(v))
    decreases |acts|
  {
    hide AcceptInv, Inv, ClientStep, ManagerStep, AcceptNext, WipedUnder;
    if s.accept.pc.Resting? || WipedUnder(s) {
      n, v := 0, s;
    } else {
      assert StepsLeft(s.accept.pc, p.slots) > 0;
      var a := acts[0];
      StepAccept(p, s, a);
      if a.AcceptMove? {
        CallStep(p, s);
      } else if a.ClientMove? {
        ClientFrames(p, s, a.x);
      } else if a.ManagerMove? {
        ManagerFrames(p, s);
      }
      n, v := CallReturns(p, Step(p, s, a), acts[1..], u);
      assert acts[..n + 1][1..] == acts[1..][..n];
      n := n + 1;
    }
  }

  /** Slot i has no pair in any state of the run. */
  ghost predicate Unpublished(p: Params, s: State, acts: seq<Action>, i: nat)
    decreases |acts|
  {
    && i < |s.rows| && !s.rows[i].created
    && (acts != [] && Shaped(p, s) && Enabled(p, s, acts[0]) ==> Unpublished(p, Step(p, s, acts[0]), acts[1..], i))
  }

  /** A call that looks again at a slot without a pair does so for as long as the slot has none. */
  lemma {:induction false} WaitsForPair(p: Params, s: State, acts: seq<Action>, u: State)
    requires AcceptInv(p, s) && Reaches(p, s, acts, u)
    requires s.accept.pc.CheckCreated? && s.accept.pc.again && Unpublished(p, s, acts, s.accept.pc.i)
    ensures u.accept == s.accept
    decreases |acts|
  {
    hide AcceptInv, Inv, ClientStep, ManagerStep;
    if acts != [] {
      var a := acts[0];
      StepAccept(p, s, a);
      if a.ClientMove? {
        ClientFrames(p, s, a.x);
      } else if a.ManagerMove? {
        ManagerFrames(p, s);
      }
      WaitsForPair(p, Step(p, s, a), acts[1..], u);
    }
  }
}
