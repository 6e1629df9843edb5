/** accept drops the mutex before it reads the slot it has picked. Exactly when a tenancy is handed out the wrong
    number of times because of that, and runs in which it happens. */
module AcceptRace {
  import opened Slots
  import opened SlotProtocol
  import opened SlotInvariant
  import opened SlotManager
  import opened SlotTheorems
  import opened SlotProgress
  import opened AcceptInvariant
  import opened AcceptRuns
  import CoordOps

  ghost predicate Leads(p: Params, s: State, u: State) {
    exists acts :: Reaches(p, s, acts, u)
  }

  /** One more step of a run from s0. */
  lemma {:induction false} Then(p: Params, s0: State, s: State, a: Action) returns (u: State)
    requires Leads(p, s0, s) && AcceptInv(p, s) && Enabled(p, s, a)
    ensures u == Step(p, s, a) && Leads(p, s0, u) && AcceptInv(p, u)
  {
    hide AcceptInv, Inv, Reaches, Step, Enabled;
    u := Step(p, s, a);
    var acts :| Reaches(p, s0, acts, s);
    ReachesThen(p, s0, acts, s, a);
    StepAccept(p, s, a);
  }

  // ---------------------------------------------------------------------------------------
  // When a tenancy is safe
  // ---------------------------------------------------------------------------------------

  /** The addresses of the present tenancy of slot i have been handed out, or are about to be, as often as the flag
      says: once if it is up, else not at all. */
  ghost predicate Once(s: State, i: nat) {
    i < |s.rows| == |s.term| && Balanced(s, i, 0)
  }

  /** For as long as the tenancy that slot i has at s stands. */
  ghost predicate AlwaysOnce(p: Params, s: State, i: nat)
    requires i < |s.term|
  {
    forall u :: Leads(p, s, u) && Standing(u, i, s.term[i]) ==> Once(u, i)
  }

  /** A slot that has just been reserved: no earlier call of accept has put its flag up since the row was filled in,
      and none is at a point from which it still could, or could take the pair without. */
  predicate Safe(s: State, i: nat)
    requires i < |s.rows|
  {
    !s.rows[i].serverAttached && !(Danger(s.accept.pc) && s.accept.pc.i == i)
  }

  /** The state after client x has made its reservation. */
  ghost predicate JustReserved(p: Params, r: State, x: Id, s: State) {
    && AcceptInv(p, r) && x in r.clients && r.clients[x].Writing? && r.clients[x].k >= 7
    && Enabled(p, r, ClientMove(x)) && s == ClientStep(p, r, x)
  }

  lemma {:induction false} FreshFacts(p: Params, r: State, x: Id, s: State)
    requires JustReserved(p, r, x, s)
    ensures
      var i := r.clients[x].i;
      && AcceptInv(p, s) && i < p.slots && i in s.owner && s.owner[i] == x && s.clients[x] == Granted(i)
      && s.rows == r.rows && s.accept == r.accept && s.live == r.live && s.term[i] == r.term[i] + 1
      && !s.rows[i].created && !s.rows[i].detach && Standing(s, i, s.term[i])
      && (forall id :: id in s.live ==> s.live[id].slot != i)
  {
    hide Inv, AcceptOk, RowKnown, Claimed, IsKeyOf, Wiped, TakenSlot, PairInv;
    StepAccept(p, r, ClientMove(x));
    ClientFacts(p, r, x);
    MutexFacts(p, r);
    var i := r.clients[x].i;
    FreeFacts(p, r, i);
    OpenStands(p, s, i);
    SlotFacts(p, r, i);
  }

  lemma {:induction false} FreshAccount(p: Params, r: State, x: Id, s: State)
    requires JustReserved(p, r, x, s)
    ensures
      var i := r.clients[x].i;
      i < |s.rows| == |s.term| &&
        Account(s.accept, s.rows[i], s.live, i, s.term[i]) == 0 - One(s.rows[i].serverAttached)
  {
    hide Inv, AcceptOk, RowKnown, ClientStep;
    FreshFacts(p, r, x, s);
    var i := r.clients[x].i;
    assert r.accept.handed[(i, s.term[i])] == 0;
    assert !Due(s.accept, s.live, i, s.term[i]);
  }

  lemma {:induction false} SafeIsOnce(p: Params, r: State, x: Id, s: State, u: State)
    requires JustReserved(p, r, x, s) && Safe(s, r.clients[x].i) && Leads(p, s, u)
    requires Standing(u, r.clients[x].i, s.term[r.clients[x].i])
    ensures Once(u, r.clients[x].i)
  {
    hide AcceptInv, Inv, Reaches, ClientStep, Account;
    FreshFacts(p, r, x, s);
    FreshAccount(p, r, x, s);
    var acts :| Reaches(p, s, acts, u);
    AccountRun(p, s, acts, u, r.clients[x].i, 0);
  }

  // ---------------------------------------------------------------------------------------
  // Calls that go astray
  // ---------------------------------------------------------------------------------------

  /** Segment id has been removed. */
  predicate Gone(live: map<int, Segment>, next: int, id: int) {
    id < next && id !in live
  }

  /** What the steps of the manager up to the publication leave alone. */
  ghost predicate Kept(s: State, u: State, i: nat)
    requires i < |s.rows| && i < |s.term|
  {
    && u.accept == s.accept && u.clients == s.clients && u.mutex == s.mutex
    && i < |u.rows| && i < |u.term| && u.term[i] == s.term[i] && u.rows[i].serverAttached == s.rows[i].serverAttached
    && (forall id :: Gone(s.live, s.nextShmid, id) ==> Gone(u.live, u.nextShmid, id))
    && (forall j :: j in u.owner ==> j in s.owner)
  }

  lemma {:induction false} ManagerKept(p: Params, s: State, i: nat, x: Id)
    requires AcceptInv(p, s) && i < p.slots && Waiting(s, i, x) && !(s.manager.Publish? && s.manager.i == i)
    ensures Kept(s, ManagerStep(p, s), i) && Waiting(ManagerStep(p, s), i, x)
  {
    hide Inv, ManagerStep, AcceptOk, RowKnown;
    OpenStands(p, s, i);
    ManagerFlag(p, s, i);
    ManagerFrames(p, s);
    if Past(s.manager) {
      FrameLate(p, s);
    } else {
      FrameEarly(p, s);
    }
    StepAccept(p, s, ManagerMove);
  }

  /** Left to itself, the manager comes to the point of publishing the pair of a slot that waits for it. */
  lemma {:induction false} ToPublish(p: Params, s0: State, s: State, i: nat, x: Id) returns (u: State)
    requires Leads(p, s0, s) && AcceptInv(p, s) && i < p.slots && Waiting(s, i, x)
    ensures Leads(p, s0, u) && AcceptInv(p, u) && Waiting(u, i, x) && u.manager.Publish? && u.manager.i == i &&
      Kept(s, u, i)
    decreases Rank(p, s.manager, i, true)
  {
    hide AcceptInv, Inv, ManagerStep, Leads, Rank, Gone;
    if s.manager.Publish? && s.manager.i == i {
      u := s;
    } else {
      ManagerKept(p, s, i, x);
      ManagerServes(p, s, i, x, true);
      u := Then(p, s0, s, ManagerMove);
      u := ToPublish(p, s0, u, i, x);
    }
  }

  /** And it publishes it. */
  lemma {:induction false} Published(p: Params, s0: State, s: State, i: nat, x: Id) returns (u: State)
    requires Leads(p, s0, s) && AcceptInv(p, s) && i < p.slots && Waiting(s, i, x) && s.manager.Publish? &&
      s.manager.i == i
    ensures Leads(p, s0, u) && AcceptInv(p, u) && Kept(s, u, i) && u.live == s.live
    ensures i in u.owner && u.owner[i] == x && Eligible(u, i)
    ensures u.manager == TestDetach(i)
  {
    hide Inv, Leads, AcceptOk, RowKnown, IsKeyOf, ClientOk, Claimed, PairInv, SegmentInv, ServiceInv, Wiped;
    SlotFacts(p, s, i);
    u := Then(p, s0, s, ManagerMove);
  }

  /** A call with a pair in hand whose first segment is gone, on its way to the store. */
  predicate Strayed(s: State, i: nat) {
    var pc := s.accept.pc;
    && Danger(pc) && !pc.LoadRequest? && pc.i == i
    && Gone(s.live, s.nextShmid, pc.request.shmid)
  }

  function ToStore(pc: Acceptor): (n: nat) {
    match pc
    case LoadResponse(_, _, _, _) => 6
    case CheckId(_, _, _) => 5
    case LoadId(_, _, _) => 4
    case CheckFlag(_, _, _, _) => 3
    case LoadFlag(_, _, _, _) => 2
    case CheckSet(_, _, _, _) => 1
    case _ => 0
  }

  lemma {:induction false} StrayStep(p: Params, s: State, i: nat)
    requires AcceptInv(p, s) && i < p.slots && Eligible(s, i) && !s.rows[i].serverAttached && Strayed(s, i)
    ensures
      var s' := AcceptStep(p, s);
      && s'.accept.handed == s.accept.handed
      && (if s.accept.pc.StoreFlag? then
            s'.accept.pc.AttachRequest? && s'.accept.pc.i == i && s'.accept.pc.request == s.accept.pc.request
          else s'.rows == s.rows && Strayed(s', i) && ToStore(s'.accept.pc) < ToStore(s.accept.pc))
  {
    hide Inv, AcceptOk, RowKnown, Wiping, CoordOps.NextSlot;
    EligibleStands(p, s, i);
    RowFacts(p, s, i);
  }

  /** It puts up the flag of a tenancy it does not hand out. */
  lemma {:induction false} Spoils(p: Params, s0: State, s: State, i: nat) returns (u: State)
    requires Leads(p, s0, s) && AcceptInv(p, s) && i < p.slots && Eligible(s, i) && !s.rows[i].serverAttached &&
      Strayed(s, i)
    ensures Leads(p, s0, u) && AcceptInv(p, u) && u.accept.handed == s.accept.handed
    ensures u.accept.pc.AttachRequest? && u.accept.pc.i == i && u.accept.pc.request.shmid !in u.live
    ensures u.rows == s.rows[i := s.rows[i].(serverAttached := true)]
    ensures u == s.(rows := u.rows, accept := u.accept)
    decreases ToStore(s.accept.pc)
  {
    hide AcceptInv, Inv, AcceptNext, Leads, Gone;
    StrayStep(p, s, i);
    u := Then(p, s0, s, AcceptMove);
    if s.accept.pc.StoreFlag? {
      assert Gone(s.live, s.nextShmid, s.accept.pc.request.shmid);
      GoneIsNotLive(s.live, s.nextShmid, s.accept.pc.request.shmid);
    } else {
      u := Spoils(p, s0, u, i);
    }
  }

  lemma {:induction false} GoneIsNotLive(live: map<int, Segment>, next: int, id: int)
    requires Gone(live, next, id)
    ensures id !in live
  {
  }

  /** A call that has the pair in hand before it is published. */
  predicate Early(s: State, i: nat) {
    var pc := s.accept.pc;
    && s.manager.Publish? && s.manager.i == i
    && (|| pc.LoadRequest? || (pc.LoadResponse? && pc.request == s.manager.request)
        || ((pc.CheckId? || pc.CheckFlag? || pc.CheckSet?) && pc.request == s.manager.request &&
          pc.response == s.manager.response))
    && pc.i == i
  }

  function ToAttach(pc: Acceptor): (n: nat) {
    match pc
    case LoadRequest(_, _, _) => 5
    case LoadResponse(_, _, _, _) => 4
    case CheckId(_, _, _) => 3
    case CheckFlag(_, _, _, _) => 2
    case _ => 1
  }

  lemma {:induction false} EarlyStep(p: Params, s: State, i: nat, x: Id)
    requires AcceptInv(p, s) && i < p.slots && Waiting(s, i, x) && Early(s, i)
    ensures
      var s' := AcceptStep(p, s);
      && s'.accept.handed == s.accept.handed && s'.rows == s.rows
      && (if s.accept.pc.CheckSet? then
            && s'.accept.pc.AttachRequest? && s'.accept.pc.i == i
            && LivePair(s.live, s'.accept.pc.request, s'.accept.pc.response, i, s.term[i])
          else Early(s', i) && ToAttach(s'.accept.pc) < ToAttach(s.accept.pc))
  {
    hide Inv, AcceptOk, RowKnown, Wiping, CoordOps.NextSlot, IsKeyOf, ClientOk, Claimed;
    SlotFacts(p, s, i);
  }

  /** It is about to hand out a tenancy whose flag stays down. */
  lemma {:induction false} Doubles(p: Params, s0: State, s: State, i: nat, x: Id) returns (u: State)
    requires Leads(p, s0, s) && AcceptInv(p, s) && i < p.slots && Waiting(s, i, x) && Early(s, i)
    ensures Leads(p, s0, u) && AcceptInv(p, u) && u.accept.handed == s.accept.handed
    ensures u.accept.pc.AttachRequest? && u.accept.pc.i == i && u == s.(accept := u.accept)
    ensures i < |u.term| && LivePair(u.live, u.accept.pc.request, u.accept.pc.response, i, u.term[i])
    decreases ToAttach(s.accept.pc)
  {
    hide AcceptInv, Inv, AcceptNext, Leads, LivePair;
    EarlyStep(p, s, i, x);
    u := Then(p, s0, s, AcceptMove);
    if !s.accept.pc.CheckSet? {
      u := Doubles(p, s0, u, i, x);
    }
  }

  lemma {:induction false} StraysFrom(p: Params, r: State, x: Id, s: State) returns (u: State)
    requires JustReserved(p, r, x, s) && Danger(s.accept.pc) && s.accept.pc.i == r.clients[x].i
    requires r.clients[x].i < |s.rows| && !s.rows[r.clients[x].i].serverAttached
    ensures
      var i := r.clients[x].i;
      && Leads(p, s, u) && AcceptInv(p, u) && i < |s.term| && Standing(u, i, s.term[i]) && i in u.owner &&
        u.owner[i] == x
      && u.accept.pc.AttachRequest? && u.accept.pc.i == i && u.accept.handed == s.accept.handed
      && u.clients == s.clients && u.mutex == s.mutex && (forall j :: j in u.owner ==> j in s.owner)
      && (if s.accept.pc.LoadRequest? then
            && !u.rows[i].serverAttached && Waiting(u, i, x) && u.manager.Publish? && u.manager.i == i
            && LivePair(u.live, u.accept.pc.request, u.accept.pc.response, i, s.term[i])
          else
            && u.rows[i].serverAttached && Eligible(u, i) && u.accept.pc.request.shmid !in u.live)
  {
    hide AcceptInv, Inv, Leads, Gone, LivePair, ClientStep, Reaches, Standing;
    var i := r.clients[x].i;
    FreshFacts(p, r, x, s);
    assert Leads(p, s, s) by { Here(p, s); }
    if !s.accept.pc.LoadRequest? {
      StaleGone(p, s, i);
    }
    u := ToPublish(p, s, s, i, x);
    if s.accept.pc.LoadRequest? {
      u := Doubles(p, s, u, i, x);
    } else {
      u := Published(p, s, u, i, x);
      u := Spoils(p, s, u, i);
    }
    OpenStands(p, u, i);
  }

  lemma {:induction false} Here(p: Params, s: State)
    ensures Leads(p, s, s)
  {
    assert Reaches(p, s, [], s);
  }

  lemma {:induction false} StaleGone(p: Params, s: State, i: nat)
    requires AcceptInv(p, s) && Danger(s.accept.pc) && !s.accept.pc.LoadRequest? && s.accept.pc.i == i
    requires forall id :: id in s.live ==> s.live[id].slot != i
    ensures Gone(s.live, s.nextShmid, s.accept.pc.request.shmid)
  {
    hide Inv, RowKnown, Wiping;
  }

  /** Addresses once. At the moment a slot is reserved: whatever happens from then on, for as long as the tenancy
      stands its addresses are handed out as often as its flag says, at most once that is, if and only if no call of
      accept that was picked for an earlier tenant has put the flag up already or is at a point from which it
      can still go astray. */
  lemma {:induction false} AddressesOnce(p: Params, before: seq<Action>, r: State, x: Id)
    requires ValidParams(p) && Reaches(p, Init(p), before, r) && Shaped(p, r)
    requires x in r.clients && r.clients[x].Writing? && r.clients[x].k >= 7 && Enabled(p, r, ClientMove(x))
    ensures
      var i, s := r.clients[x].i, ClientStep(p, r, x);
      i < |s.rows| == |s.term| && (AlwaysOnce(p, s, i) <==> Safe(s, i))
  {
    hide AcceptInv, Inv, Init, Reaches, ClientStep, Leads, LivePair, Of, Standing;
    ReachableAccept(p, before, r);
    var i, s := r.clients[x].i, ClientStep(p, r, x);
    FreshFacts(p, r, x, s);
    FreshAccount(p, r, x, s);
    if Safe(s, i) {
      forall u | Leads(p, s, u) && Standing(u, i, s.term[i])
        ensures Once(u, i)
      {
        SafeIsOnce(p, r, x, s, u);
      }
    } else if s.rows[i].serverAttached {
      Here(p, s);
      assert !Once(s, i);
    } else {
      var u := StraysFrom(p, r, x, s);
      AstrayAccount(p, r, x, s, u);
      assert !Once(u, i);
    }
  }

  lemma {:induction false} AstrayAccount(p: Params, r: State, x: Id, s: State, u: State)
    requires JustReserved(p, r, x, s) && AcceptInv(p, u)
    requires
      var i := r.clients[x].i;
      && i < |s.term| && Standing(u, i, s.term[i]) && u.accept.pc.AttachRequest? && u.accept.pc.i == i
      && u.accept.handed == s.accept.handed && i < |u.rows|
      && (if s.accept.pc.LoadRequest? then
            !u.rows[i].serverAttached && LivePair(u.live, u.accept.pc.request, u.accept.pc.response, i, s.term[i])
          else u.rows[i].serverAttached && u.accept.pc.request.shmid !in u.live)
    ensures
      var i := r.clients[x].i;
      && i < |u.term| && u.accept.handed[(i, u.term[i])] == 0
      && Account(u.accept, u.rows[i], u.live, i, u.term[i]) == if s.accept.pc.LoadRequest? then 1 else -1
  {
    hide Inv, AcceptOk, RowKnown, ClientStep;
    FreshFacts(p, r, x, s);
    assert r.accept.handed[(r.clients[x].i, s.term[r.clients[x].i])] == 0;
  }
}
