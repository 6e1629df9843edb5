/** Runs in which accept goes astray, for any number of slots and clients: one client is enough. It connects, a call of
    accept picks its slot, the client closes and comes back to the slot before that call has gone on. */
module AcceptAstray {
  import opened Slots
  import opened SlotProtocol
  import opened SlotInvariant
  import opened SlotTheorems
  import opened SlotProgress
  import opened AcceptInvariant
  import opened AcceptRuns
  import opened AcceptRace
  import opened AcceptOrder
  import CoordOps

  /** Only client x has done anything, and only slot 0 has been used. */
  ghost predicate Alone(p: Params, s0: State, s: State, x: Id) {
    && Leads(p, s0, s) && AcceptInv(p, s) && x in s.clients && s.mutex <= {x}
    && (forall j :: j in s.owner ==> j == 0)
  }

  // ---------------------------------------------------------------------------------------
  // The client
  // ---------------------------------------------------------------------------------------

  /** x opens: it finds slot 0 free and fills in its row. */
  lemma {:induction false} Fills(p: Params, s0: State, s: State, x: Id) returns (u: State)
    requires Alone(p, s0, s, x) && 0 !in s.owner && !AcceptHolds(s.accept.pc)
    requires s.clients[x].Out? || s.clients[x].Closed?
    ensures Alone(p, s0, u, x) && u.clients[x] == Writing(0, 7) && u.accept == s.accept && u.live == s.live
    ensures 0 !in u.owner && 0 < |u.rows| && !u.rows[0].serverAttached
  {
    hide Inv, AcceptOk, RowKnown, ClientStep, Leads, Claimed, FreeSlot, TakenSlot, PairInv, SegmentInv;
    ClientFacts(p, s, x);
    u := Then(p, s0, s, OpenCall(x));
    MutexFacts(p, u);
    u := Locks(p, s0, u, x);
    u := Writes(p, s0, u, x, 0);
  }

  lemma {:induction false} Locks(p: Params, s0: State, s: State, x: Id) returns (u: State)
    requires Alone(p, s0, s, x) && 0 !in s.owner && !AcceptHolds(s.accept.pc) && s.clients[x].Locking? && s.mutex == {}
    ensures Alone(p, s0, u, x) && u.clients[x] == Writing(0, 0) && u.accept == s.accept && u.live == s.live &&
      0 !in u.owner
  {
    hide Inv, AcceptOk, RowKnown, Leads;
    u := Then(p, s0, s, ClientMove(x));
    MutexFacts(p, u);
    u := Then(p, s0, u, ClientMove(x));
  }

  lemma {:induction false} Writes(p: Params, s0: State, s: State, x: Id, k: nat) returns (u: State)
    requires Alone(p, s0, s, x) && 0 !in s.owner && s.clients[x] == Writing(0, k) && k <= 7
    requires k >= 6 ==> 0 < |s.rows| && !s.rows[0].serverAttached
    ensures Alone(p, s0, u, x) && u.clients[x] == Writing(0, 7) && u.accept == s.accept && u.live == s.live
    ensures 0 !in u.owner && 0 < |u.rows| && !u.rows[0].serverAttached
    decreases 7 - k
  {
    hide Inv, AcceptOk, RowKnown, Leads;
    u := s;
    if k < 7 {
      u := Then(p, s0, s, ClientMove(x));
      u := Writes(p, s0, u, x, k + 1);
    }
  }

  function ToOpen(q: Client): (n: nat) {
    match q
    case Granted(_) => 7
    case Polling(_) => 6
    case Checking(_, _, _) => 5
    case CopyingRequest(_, _, _) => 4
    case CopyingResponse(_, _, _, _) => 3
    case Identifying(_, _, _, _, _) => 2
    case TestingAttach(_, _, _, _) => 1
    case _ => 0
  }

  predicate Connecting(q: Client) {
    Tenant(q) && q.i == 0 && !Attached(q)
  }

  lemma {:induction false} ConnectStep(p: Params, s: State, x: Id)
    requires Inv(p, s) && x in s.clients && Connecting(s.clients[x]) && Eligible(s, 0)
    ensures
      var s' := ClientStep(p, s, x);
      && Eligible(s', 0) && s'.rows[0].serverAttached == s.rows[0].serverAttached
      && (if s.clients[x].SettingAttach? then s'.clients[x].Open? && s'.clients[x].i == 0
          else Connecting(s'.clients[x]) && ToOpen(s'.clients[x]) < ToOpen(s.clients[x]))
  {
    hide Inv, PairInv, IsKeyOf;
    ClientFacts(p, s, x);
  }

  /** x attaches to the pair it has been given. */
  lemma {:induction false} Connects(p: Params, s0: State, s: State, x: Id) returns (u: State)
    requires Alone(p, s0, s, x) && Connecting(s.clients[x]) && Eligible(s, 0) && 0 in s.owner && s.owner[0] == x
    ensures Alone(p, s0, u, x) && u.clients[x].Open? && u.clients[x].i == 0 && Eligible(u, 0)
    ensures u.accept == s.accept && u.owner == s.owner && u.rows[0].serverAttached == s.rows[0].serverAttached &&
      u.term == s.term
    decreases ToOpen(s.clients[x])
  {
    hide AcceptInv, Inv, Leads, WriteField;
    ConnectStep(p, s, x);
    u := Then(p, s0, s, ClientMove(x));
    if !s.clients[x].SettingAttach? {
      u := Connects(p, s0, u, x);
    }
  }

  /** x closes: its own row is the first it looks at. */
  lemma {:induction false} Closes(p: Params, s0: State, s: State, x: Id) returns (u: State)
    requires Alone(p, s0, s, x) && s.clients[x].Open? && s.clients[x].i == 0
    ensures Alone(p, s0, u, x) && u.clients[x] == Closed(0) && u.accept == s.accept && u.owner == s.owner
  {
    hide Inv, AcceptOk, RowKnown, Leads, PairInv, IsKeyOf;
    u := Then(p, s0, s, CloseCall(x));
    ClientFacts(p, u, x);
    u := Then(p, s0, u, ClientMove(x));
    u := Then(p, s0, u, ClientMove(x));
  }

  // ---------------------------------------------------------------------------------------
  // The manager
  // ---------------------------------------------------------------------------------------

  /** The manager publishes the pair of slot 0. */
  lemma {:induction false} Serves(p: Params, s0: State, s: State, x: Id) returns (u: State)
    requires Alone(p, s0, s, x) && Waiting(s, 0, x) && 0 < |s.rows| && 0 < |s.term|
    ensures Alone(p, s0, u, x) && Eligible(u, 0) && 0 in u.owner && u.owner[0] == x && Kept(s, u, 0)
  {
    hide AcceptInv, Inv, Leads, Gone;
    u := ToPublish(p, s0, s, 0, x);
    u := Published(p, s0, u, 0, x);
  }

  /** The manager gives up slot 0. */
  lemma {:induction false} Releases(p: Params, s0: State, s: State, x: Id) returns (u: State)
    requires Alone(p, s0, s, x) && Leaving(s, 0, x) && 0 < p.slots
    ensures Alone(p, s0, u, x) && 0 !in u.owner && u.accept == s.accept && u.clients == s.clients
    decreases Rank(p, s.manager, 0, false)
  {
    hide AcceptInv, Inv, ManagerStep, Leads, Rank;
    ManagerServes(p, s, 0, x, false);
    ManagerFrames(p, s);
    if Past(s.manager) {
      FrameLate(p, s);
    } else {
      FrameEarly(p, s);
    }
    u := Then(p, s0, s, ManagerMove);
    if 0 in u.owner {
      u := Releases(p, s0, u, x);
    }
  }

  // ---------------------------------------------------------------------------------------
  // accept
  // ---------------------------------------------------------------------------------------

  /** Steps to the return of the call, on the way to slot 0 and there. */
  function ToReturn(pc: Acceptor, slots: nat): (n: nat)
    requires slots > 0 && (AtSlot(pc) ==> pc.i < slots)
  {
    match pc
    case Resting => 0
    case Calling(_) => 3 * slots + 20
    case GivingUp => 0
    case LookDetach(j, _) => 3 * Distance(j, 0, slots) + 19
    case LookReserved(j, _) => 3 * Distance(j, 0, slots) + 18
    case LookCreated(j, _) => 3 * Distance(j, 0, slots) + 17
    case Advancing(_) => 16
    case Unlocking(_) => 15
    case LoadType(_) => 14
    case CheckCreated(_, _, _) => 13
    case LoadRequest(_, _, _) => 12
    case LoadResponse(_, _, _, _) => 11
    case CheckId(_, _, _) => 10
    case LoadId(_, _, _) => 9
    case CheckFlag(_, _, _, _) => 8
    case LoadFlag(_, _, _, _) => 7
    case CheckSet(_, _, _, _) => 6
    case StoreFlag(_, _, _, _) => 5
    case AttachRequest(_, _, _, _) => 4
    case AttachResponse(_, _, _, _) => 3
  }

  /** The call is on its way to slot 0, or there for its present tenancy. */
  predicate OnItsWay(c: Accept, term: nat, slots: nat)
    requires InRange(c, slots) && slots > 0
  {
    Watched(c, 0, term, slots) && (HasPicked(c.pc) ==> c.pc.i == 0 && c.picked == term)
  }

  lemma {:induction false} ScanStep(p: Params, s: State)
    requires AcceptInv(p, s) && Eligible(s, 0) && (forall j :: j in s.owner ==> j == 0)
    requires OnItsWay(s.accept, s.term[0], p.slots) && !s.accept.pc.Resting? && !HasPicked(s.accept.pc)
    ensures
      var c' := AcceptNext(p.slots, s.rows, s.reserved, s.term, s.live, s.accept);
      && InRange(c', p.slots) && OnItsWay(c', s.term[0], p.slots) && !c'.pc.Resting?
      && ToReturn(c'.pc, p.slots) < ToReturn(s.accept.pc, p.slots)
      && ToReturn(c'.pc, p.slots) >= 16
  {
    hide Inv, AcceptOk, RowKnown, CoordOps.NextSlot, Distance;
    ScanNears(p.slots, s.rows, s.reserved, s.term, s.live, s.accept, 0);
    MutexFacts(p, s);
    if AtSlot(s.accept.pc) {
      RowFacts(p, s, s.accept.pc.i);
      Onwards(s.accept.pc.i, 0, p.slots);
      Apart(s.accept.pc.i, p.slots);
    }
  }

  lemma {:induction false} Apart(j: nat, slots: nat)
    requires j < slots
    ensures Distance(j, 0, slots) == 0 <==> j == 0
  {
  }

  lemma {:induction false} ReadStep(p: Params, s: State)
    requires AcceptInv(p, s) && Eligible(s, 0) && !s.rows[0].serverAttached
    requires OnItsWay(s.accept, s.term[0], p.slots) && HasPicked(s.accept.pc)
    requires !s.accept.pc.StoreFlag? && !s.accept.pc.AttachRequest? && !s.accept.pc.AttachResponse?
    ensures
      var c' := AcceptNext(p.slots, s.rows, s.reserved, s.term, s.live, s.accept);
      && InRange(c', p.slots) && OnItsWay(c', s.term[0], p.slots) && !c'.pc.Resting? && HasPicked(c'.pc)
      && ToReturn(c'.pc, p.slots) == ToReturn(s.accept.pc, p.slots) - 1
  {
    hide Inv, RowKnown, CoordOps.NextSlot, Distance, PairKnown;
    EligibleStands(p, s, 0);
    RowFacts(p, s, 0);
  }

  /** The call gets to the point from which `left` steps remain. */
  lemma {:induction false} Goes(p: Params, s0: State, s: State, x: Id, left: nat) returns (u: State)
    requires Alone(p, s0, s, x) && x !in s.mutex && Eligible(s, 0) && !s.rows[0].serverAttached
    requires OnItsWay(s.accept, s.term[0], p.slots) && !s.accept.pc.Resting? && 5 <= left <= 16
    requires ToReturn(s.accept.pc, p.slots) >= left
    ensures Alone(p, s0, u, x) && u == s.(accept := u.accept) && OnItsWay(u.accept, u.term[0], p.slots)
    ensures ToReturn(u.accept.pc, p.slots) == left && !u.accept.pc.Resting?
    decreases ToReturn(s.accept.pc, p.slots)
  {
    hide AcceptInv, Inv, AcceptNext, Leads, Distance, Watched;
    u := s;
    if ToReturn(s.accept.pc, p.slots) > left {
      assert s.mutex == {};
      if HasPicked(s.accept.pc) {
        ReadStep(p, s);
      } else {
        ScanStep(p, s);
      }
      u := Then(p, s0, s, AcceptMove);
      u := Goes(p, s0, u, x, left);
    }
  }

  // ---------------------------------------------------------------------------------------
  // The runs
  // ---------------------------------------------------------------------------------------

  lemma {:induction false} ReachesOn(p: Params, s: State, acts: seq<Action>, t: State, more: seq<Action>, u: State)
    requires Reaches(p, s, acts, t) && Reaches(p, t, more, u)
    ensures Reaches(p, s, acts + more, u)
    decreases |acts|
  {
    hide Step, Enabled, Shaped;
    if acts == [] {
      assert acts + more == more;
    } else {
      ReachesOn(p, Step(p, s, acts[0]), acts[1..], t, more, u);
      assert (acts + more)[1..] == acts[1..] + more;
    }
  }

  lemma {:induction false} LeadsOn(p: Params, s: State, t: State, u: State)
    requires Leads(p, s, t) && Leads(p, t, u)
    ensures Leads(p, s, u)
  {
    hide Reaches;
    var acts :| Reaches(p, s, acts, t);
    var more :| Reaches(p, t, more, u);
    ReachesOn(p, s, acts, t, more, u);
  }

  /** x connects in slot 0. */
  lemma {:induction false} Opens(p: Params, x: Id) returns (s: State)
    requires ValidParams(p) && x in p.want
    ensures Alone(p, Init(p), s, x) && s.clients[x].Open? && s.clients[x].i == 0 && Eligible(s, 0)
    ensures 0 in s.owner && s.owner[0] == x && !s.rows[0].serverAttached && s.accept == Init(p).accept
  {
    hide AcceptInv, Inv, Leads, ClientStep, Gone;
    InitAccept(p);
    Here(p, Init(p));
    s := Fills(p, Init(p), Init(p), x);
    FreshFacts(p, s, x, ClientStep(p, s, x));
    var r := s;
    s := Then(p, Init(p), s, ClientMove(x));
    StillAlone(p, r, x);
    s := Serves(p, Init(p), s, x);
    s := Connects(p, Init(p), s, x);
  }

  lemma {:induction false} StillAlone(p: Params, r: State, x: Id)
    requires Inv(p, r) && x in r.clients && r.clients[x] == Writing(0, 7) && r.mutex <= {x}
    requires forall j :: j in r.owner ==> j == 0
    ensures
      var s := ClientStep(p, r, x);
      s.mutex <= {x} && forall j :: j in s.owner ==> j == 0
  {
  }

  /** Where a call stands when `left` steps remain. */
  predicate HaltedAt(pc: Acceptor, left: nat) {
    if left == 13 then pc.CheckCreated? && pc.i == 0 && !pc.again
    else if left == 12 then pc.LoadRequest? && pc.i == 0
    else pc.StoreFlag? && pc.i == 0
  }

  /** A call of accept picks slot 0 and gets to the point from which `left` steps remain. */
  lemma {:induction false} Halts(p: Params, x: Id, left: nat) returns (s: State)
    requires ValidParams(p) && x in p.want && (left == 13 || left == 12 || left == 5)
    ensures Alone(p, Init(p), s, x) && s.clients[x].Open? && s.clients[x].i == 0 && 0 in s.owner && s.owner[0] == x
    ensures HaltedAt(s.accept.pc, left)
  {
    hide AcceptInv, Inv, Leads, ClientStep, Gone, Distance;
    s := Opens(p, x);
    NotInside(p, s, x);
    s := Then(p, Init(p), s, AcceptCall);
    s := Goes(p, Init(p), s, x, left);
    FirstLook(p, s);
  }

  lemma {:induction false} FirstLook(p: Params, s: State)
    requires AcceptInv(p, s) && Eligible(s, 0) && OnItsWay(s.accept, s.term[0], p.slots) && HasPicked(s.accept.pc)
    ensures s.accept.pc.CheckCreated? ==> !s.accept.pc.again
  {
    hide Inv, RowKnown;
    EligibleStands(p, s, 0);
  }

  /** x closes and comes back, and reserves slot 0 again. */
  lemma {:induction false} ComesBack(p: Params, s: State, x: Id) returns (r: State, u: State)
    requires Alone(p, Init(p), s, x) && s.clients[x].Open? && s.clients[x].i == 0 && 0 in s.owner && s.owner[0] == x
    requires !AcceptHolds(s.accept.pc)
    ensures Leads(p, Init(p), r) && JustReserved(p, r, x, u) && r.clients[x].i == 0 && Alone(p, Init(p), u, x)
    ensures u.accept == s.accept && 0 < |u.rows| && !u.rows[0].serverAttached
  {
    hide AcceptInv, Inv, Leads, ClientStep, Reaches, Rank;
    u := Closes(p, Init(p), s, x);
    u := Releases(p, Init(p), u, x);
    r := Fills(p, Init(p), u, x);
    FreshFacts(p, r, x, ClientStep(p, r, x));
    u := Then(p, Init(p), r, ClientMove(x));
    StillAlone(p, r, x);
  }

  lemma {:induction false} NotInside(p: Params, s: State, x: Id)
    requires Inv(p, s) && x in s.clients && s.clients[x].Open?
    ensures x !in s.mutex
  {
    hide Inv, TakenSlot, PairInv;
    ClientFacts(p, s, x);
  }

  /** The call attaches and returns. */
  lemma {:induction false} Returns(p: Params, s0: State, s: State) returns (u: State)
    requires Leads(p, s0, s) && AcceptInv(p, s) && s.accept.pc.AttachRequest?
    ensures Leads(p, s0, u) && AcceptInv(p, u) && u == s.(accept := u.accept) && u.accept.pc.Resting?
  {
    hide Inv, Leads, AcceptOk, RowKnown;
    u := Then(p, s0, s, AcceptMove);
    u := Then(p, s0, u, AcceptMove);
  }

  /** The account over a stretch of a run in which the tenancy stands. */
  lemma {:induction false} AccountLeads(p: Params, s: State, u: State, b: int)
    requires AcceptInv(p, s) && Leads(p, s, u) && 0 < p.slots && Standing(u, 0, s.term[0])
    requires Tame(s.accept, 0, s.term[0]) && Balanced(s, 0, b)
    ensures AcceptInv(p, u) && Balanced(u, 0, b)
  {
    hide AcceptInv, Inv, Reaches, Standing, Account, Tame;
    var acts :| Reaches(p, s, acts, u);
    AccountRun(p, s, acts, u, 0, b);
  }

  lemma {:induction false} SameTerm(u: State, i: nat, t: nat)
    requires Standing(u, i, t)
    ensures i < |u.term| && u.term[i] == t
  {
  }

  /** A call gone astray has been let run on: it is about to attach, and the account of the tenancy is out. */
  lemma {:induction false} Astray(p: Params, x: Id, left: nat) returns (u: State)
    requires ValidParams(p) && x in p.want && (left == 12 || left == 5)
    ensures Leads(p, Init(p), u) && AcceptInv(p, u) && u.accept.pc.AttachRequest? && u.accept.pc.i == 0
    ensures Alone(p, u, u, x) && u.clients[x] == Granted(0)
    ensures 0 in u.owner && u.owner[0] == x && Standing(u, 0, u.term[0])
    ensures Balanced(u, 0, if left == 12 then 1 else -1) && u.accept.handed[(0, u.term[0])] == 0
    ensures if left == 12 then Waiting(u, 0, x) && u.manager.Publish? && u.manager.i == 0 else Eligible(u, 0)
  {
    hide AcceptInv, Inv, Leads, ClientStep, LivePair, Of, Standing, Reaches, Init, Due;
    var s := Halts(p, x, left);
    var r, s1 := ComesBack(p, s, x);
    FreshFacts(p, r, x, s1);
    u := StraysFrom(p, r, x, s1);
    AstrayAccount(p, r, x, s1, u);
    LeadsOn(p, Init(p), s1, u);
    SameTerm(u, 0, s1.term[0]);
    Here(p, u);
  }

  /** The flag of an eligible slot is up though nothing has been handed out. */
  lemma {:induction false} Spoilt(p: Params, x: Id) returns (s: State)
    requires ValidParams(p) && x in p.want
    ensures Leads(p, Init(p), s) && AcceptInv(p, s) && s.accept.pc.Resting? && Eligible(s, 0)
    ensures 0 in s.owner && s.owner[0] == x && Balanced(s, 0, -1)
  {
    hide AcceptInv, Inv, Leads, Standing, Init, Account;
    s := Astray(p, x, 5);
    Here(p, s);
    var u := Returns(p, s, s);
    EligibleStands(p, u, 0);
    AccountLeads(p, s, u, -1);
    LeadsOn(p, Init(p), s, u);
    s := u;
  }

  /** A tenancy that is never handed out: its slot is reserved, created and undetached, no call of accept is under way,
      and whatever happens from here on, no call hands out its addresses for as long as the tenancy stands. */
  lemma {:induction false} NeverHanded(p: Params, x: Id) returns (s: State)
    requires ValidParams(p) && x in p.want
    ensures Leads(p, Init(p), s) && Shaped(p, s) && s.accept.pc.Resting?
    ensures Eligible(s, 0) && 0 in s.owner && s.owner[0] == x
    ensures forall u :: Leads(p, s, u) && Standing(u, 0, s.term[0]) ==> u.accept.handed[(0, s.term[0])] == 0
  {
    hide AcceptInv, Inv, Leads, Standing, Init, Due;
    s := Spoilt(p, x);
    forall u | Leads(p, s, u) && Standing(u, 0, s.term[0])
      ensures u.accept.handed[(0, s.term[0])] == 0
    {
      AccountLeads(p, s, u, -1);
      SameTerm(u, 0, s.term[0]);
    }
  }

  /** The call that went astray returns, the pair is published, and its client connects. */
  lemma {:induction false} GoesOnFrom(p: Params, s0: State, x: Id) returns (s: State)
    requires Alone(p, s0, s0, x) && s0.accept.pc.AttachRequest? && s0.clients[x] == Granted(0)
    requires Waiting(s0, 0, x) && s0.manager.Publish? && s0.manager.i == 0 && !s0.rows[0].serverAttached && 0 < p.slots
    ensures Alone(p, s0, s, x) && s.accept.pc.Resting? && Eligible(s, 0) && !s.rows[0].serverAttached
    ensures 0 in s.owner && s.owner[0] == x && s.clients[x].Open? && s.term[0] == s0.term[0]
  {
    hide AcceptInv, Inv, Leads, Gone;
    s := Returns(p, s0, s0);
    s := Published(p, s0, s, 0, x);
    s := Connects(p, s0, s, x);
  }

  /** The next call of accept hands out the pair. */
  lemma {:induction false} AcceptsIt(p: Params, s0: State, s: State, x: Id) returns (u: State)
    requires Alone(p, s0, s, x) && s.accept.pc.Resting? && Eligible(s, 0) && !s.rows[0].serverAttached &&
      s.clients[x].Open?
    ensures Leads(p, s0, u) && AcceptInv(p, u) && u.accept.pc.Resting? && Eligible(u, 0) && u.rows[0].serverAttached
    ensures u.owner == s.owner && u.term == s.term
  {
    hide AcceptInv, Inv, Leads, Distance, AcceptNext;
    NotInside(p, s, x);
    u := Then(p, s0, s, AcceptCall);
    u := Goes(p, s0, u, x, 5);
    u := Stores(p, s0, u);
    u := Returns(p, s0, u);
  }

  lemma {:induction false} Stores(p: Params, s0: State, s: State) returns (u: State)
    requires Leads(p, s0, s) && AcceptInv(p, s) && s.accept.pc.StoreFlag? && s.accept.pc.i == 0 && Eligible(s, 0)
    ensures Leads(p, s0, u) && AcceptInv(p, u) && u.accept.pc.AttachRequest? && Eligible(u, 0) &&
      u.rows[0].serverAttached
    ensures u.owner == s.owner && u.term == s.term
  {
    hide Inv, Leads, AcceptOk, RowKnown;
    u := Then(p, s0, s, AcceptMove);
  }

  /** A tenancy that is handed out twice: once before its pair was published, by a call that found shm_created still
      false when it was to put up the flag, and once more. */
  lemma {:induction false} HandedTwice(p: Params, x: Id) returns (s: State)
    requires ValidParams(p) && x in p.want
    ensures Leads(p, Init(p), s) && Shaped(p, s) && s.accept.pc.Resting?
    ensures Eligible(s, 0) && 0 in s.owner && s.owner[0] == x && s.accept.handed[(0, s.term[0])] == 2
  {
    hide AcceptInv, Inv, Leads, Standing, Init, Due;
    var a := Astray(p, x, 12);
    var u := GoesOnFrom(p, a, x);
    s := AcceptsIt(p, a, u, x);
    EligibleStands(p, s, 0);
    AccountLeads(p, a, s, 1);
    LeadsOn(p, Init(p), a, s);
    NotDue(s.accept, s.live, 0, s.term[0]);
  }

  /** A call of accept whose slot has been given up under it, and which looks at it again and again. */
  lemma {:induction false} CanWait(p: Params, x: Id) returns (s: State)
    requires ValidParams(p) && x in p.want
    ensures Leads(p, Init(p), s) && AcceptInv(p, s) && s.accept.pc == CheckCreated(0, true, 0)
    ensures !s.reserved[0] && !s.rows[0].created
  {
    hide AcceptInv, Inv, Leads, Init, Claimed;
    s := Halts(p, x, 13);
    s := Closes(p, Init(p), s, x);
    s := Releases(p, Init(p), s, x);
    FreeFacts(p, s, 0);
    s := Then(p, Init(p), s, AcceptMove);
    s := Then(p, Init(p), s, AcceptMove);
  }

  /** So a call can wait for ever: in no continuation in which the slot is not published again does it return. */
  lemma {:induction false} WaitsForEver(p: Params, x: Id) returns (s: State)
    requires ValidParams(p) && x in p.want
    ensures Leads(p, Init(p), s) && !s.accept.pc.Resting?
    ensures forall acts, u :: Reaches(p, s, acts, u) && Unpublished(p, s, acts, 0) ==> u.accept == s.accept
  {
    hide AcceptInv, Inv, Leads, Init, Reaches, Unpublished;
    s := CanWait(p, x);
    forall acts, u | Reaches(p, s, acts, u) && Unpublished(p, s, acts, 0)
      ensures u.accept == s.accept
    {
      WaitsForPair(p, s, acts, u);
    }
  }
}
