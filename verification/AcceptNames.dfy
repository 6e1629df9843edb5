/** accept returns a client id and a queue type along with the pair, and reads them before it knows that the pair is
    there. Exactly when they can be wrong. */
module AcceptNames {
  import opened Slots
  import opened SlotProtocol
  import opened SlotInvariant
  import opened SlotManager
  import opened SlotTheorems
  import opened AcceptInvariant
  import opened AcceptRuns
  import opened AcceptRace
  import opened AcceptAstray
  import CoordOps

  /** The call carries an id, which may still be replaced if it has not looked again. */
  predicate Carries(pc: Acceptor) {
    pc.CheckCreated? || pc.LoadRequest? || pc.LoadResponse? || HasId(pc)
  }

  /** The id and the queue type are those of client x. */
  predicate Named(c: Accept, x: Id, kind: QueueType) {
    Carries(c.pc) && c.pc.id == x && c.kind == kind
  }

  /** Whenever a call is about to return the pair of the tenancy that slot i has at s, it has the id and the queue type
      of the tenant. */
  ghost predicate AlwaysNamed(p: Params, s: State, i: nat, x: Id)
    requires i < |s.term| && x in p.want
  {
    forall u :: Leads(p, s, u) && Standing(u, i, s.term[i]) && Due(u.accept, u.live, i, s.term[i]) ==>
      Named(u.accept, x, p.want[x].kind)
  }

  predicate Incomplete(request: Info, response: Info) {
    request.key == 0 || response.key == 0
  }

  /** A call left over from an earlier tenancy of slot i that can still take the pair of the present one, and then
      returns it with an id or a queue type that is not the tenant's: it has yet to read the id before there is one,
      or it has read the wrong one. */
  predicate Misled(c: Accept, i: nat, x: Id, kind: QueueType) {
    && AtSlot(c.pc) && c.pc.i == i
    && match c.pc
       case LoadType(_) => true
       case CheckCreated(_, again, _) => !again || !Named(c, x, kind)
       case LoadRequest(_, again, _) => !again || !Named(c, x, kind)
       case LoadResponse(_, _, again, _) => !again || !Named(c, x, kind)
       case CheckId(_, request, response) => Incomplete(request, response)
       case LoadId(_, request, response) => Incomplete(request, response) && c.kind != kind
       case _ => false
  }

  // ---------------------------------------------------------------------------------------
  // Calls that are not misled
  // ---------------------------------------------------------------------------------------

  /** A call that picked slot i for the present tenancy t, or will return the right names, or no pair of t. */
  predicate Settled(c: Accept, live: map<int, Segment>, next: int, i: nat, t: nat, x: Id, kind: QueueType) {
    var pc := c.pc;
    HasPicked(pc) && pc.i == i && c.picked != t ==>
      && !pc.Advancing? && !pc.Unlocking? && !pc.LoadType?
      && (pc.CheckCreated? || pc.LoadRequest? || pc.LoadResponse? ==> pc.again && Named(c, x, kind))
      && (pc.CheckId? ==> !Incomplete(pc.request, pc.response) && Gone(live, next, pc.request.shmid))
      && (pc.LoadId? ==>
            if Incomplete(pc.request, pc.response) then c.kind == kind else Gone(live, next, pc.request.shmid))
      && (HasId(pc) && !pc.AttachResponse? ==> Named(c, x, kind) || Gone(live, next, pc.request.shmid))
      && (pc.AttachResponse? ==> Named(c, x, kind) || c.gained != t)
  }

  lemma {:induction false} SettledNext(slots: nat, rows: seq<Row>, reserved: seq<bool>, term: seq<nat>,
                                       live: map<int, Segment>, c: Accept, next: int, i: nat, x: Id, kind: QueueType)
    requires |rows| == |reserved| == |term| == slots && InRange(c, slots) && i < slots
    requires Settled(c, live, next, i, term[i], x, kind) && rows[i].id == x
    ensures Settled(AcceptNext(slots, rows, reserved, term, live, c), live, next, i, term[i], x, kind)
  {
    hide CoordOps.NextSlot;
  }

  lemma {:induction false} SettledStays(c: Accept, live: map<int, Segment>, live': map<int, Segment>, next: int,
                                        next': int, i: nat, t: nat, x: Id, kind: QueueType)
    requires Settled(c, live, next, i, t, x, kind) && Fades(live, live', next) && next <= next'
    ensures Settled(c, live', next', i, t, x, kind)
  {
  }

  /** Client x has slot i, in a tenancy that stands, and no call of accept is misled about it. */
  ghost predicate Clear(p: Params, s: State, i: nat, x: Id) {
    && AcceptInv(p, s) && i < p.slots && x in p.want
    && i in s.owner && s.owner[i] == x && Standing(s, i, s.term[i])
    && Settled(s.accept, s.live, s.nextShmid, i, s.term[i], x, p.want[x].kind)
  }

  lemma {:induction false} ClearStep(p: Params, s: State, a: Action, i: nat, x: Id)
    requires Clear(p, s, i, x) && Enabled(p, s, a) && Standing(Step(p, s, a), i, s.term[i])
    ensures Clear(p, Step(p, s, a), i, x)
  {
    hide AcceptInv, Inv, ClientStep, ManagerStep, AcceptNext, Settled, Fades;
    var s' := Step(p, s, a);
    StepAccept(p, s, a);
    OwnerStays(p, s, a, i);
    assert Fades(s.live, s.live, s.nextShmid) by { FadesRefl(s.live, s.nextShmid); }
    match a
    case AcceptMove =>
      StandingRow(p, s, i);
      SettledNext(p.slots, s.rows, s.reserved, s.term, s.live, s.accept, s.nextShmid, i, x, p.want[x].kind);
    case AcceptCall =>
      Idle(s.accept.(pc := Calling(s.accept.slot)), s.live, s.nextShmid, i, s.term[i], x, p.want[x].kind);
    case ClientMove(y) =>
      ClientFrames(p, s, y);
    case ManagerMove =>
      ManagerFrames(p, s);
      SettledStays(s.accept, s.live, s'.live, s.nextShmid, s'.nextShmid, i, s.term[i], x, p.want[x].kind);
    case _ =>
  }

  lemma {:induction false} Idle(c: Accept, live: map<int, Segment>, next: int, i: nat, t: nat, x: Id, kind: QueueType)
    requires !HasPicked(c.pc)
    ensures Settled(c, live, next, i, t, x, kind)
  {
  }

  lemma {:induction false} StandingRow(p: Params, s: State, i: nat)
    requires Inv(p, s) && i < p.slots && Standing(s, i, s.term[i])
    ensures s.rows[i].id == s.owner[i] && s.owner[i] in p.want && s.rows[i].kind == p.want[s.owner[i]].kind
  {
    hide Inv, IsKeyOf, ClientOk, Claimed, PairInv, SegmentInv, ServiceInv;
    SlotFacts(p, s, i);
  }

  /** A tenancy that stands has one tenant. */
  lemma {:induction false} OwnerStays(p: Params, s: State, a: Action, i: nat)
    requires Inv(p, s) && Enabled(p, s, a) && i in s.owner && Standing(Step(p, s, a), i, s.term[i])
    ensures i in Step(p, s, a).owner && Step(p, s, a).owner[i] == s.owner[i] && Step(p, s, a).term[i] == s.term[i]
  {
    hide Inv, AcceptNext, ManagerStep, ClientStep;
    if a.ClientMove? {
      OwnerInRange(p, s, i);
      ClientOwner(p, s, a.x, i);
    } else if a.ManagerMove? {
      ManagerOwner(p, s, i);
    }
  }

  lemma {:induction false} ClientOwner(p: Params, s: State, x: Id, i: nat)
    requires Inv(p, s) && Enabled(p, s, ClientMove(x)) && i in s.owner && i < p.slots
    ensures i in ClientStep(p, s, x).owner && ClientStep(p, s, x).owner[i] == s.owner[i]
  {
    hide Inv, PairInv, FreeSlot, Claimed, IsKeyOf, ServiceInv, TakenSlot;
    ClientFacts(p, s, x);
  }

  lemma {:induction false} ManagerOwner(p: Params, s: State, i: nat)
    requires Inv(p, s) && i in s.owner && i in ManagerStep(p, s).owner
    ensures ManagerStep(p, s).owner[i] == s.owner[i]
  {
    hide Inv, ShmCreate, Format, WipeField, RequestKey, ResponseKey, Fades;
    var m := s.manager;
    if m.MakeRequest? {
      CreateFades(s, RequestKey(m.kind, m.id), m.kind, m.i);
    } else if m.MakeResponse? {
      CreateFades(s, ResponseKey(m.kind, m.id), m.kind, m.i);
    }
  }

  lemma {:induction false} ClearRun(p: Params, s: State, acts: seq<Action>, u: State, i: nat, x: Id)
    requires Clear(p, s, i, x) && Reaches(p, s, acts, u) && Standing(u, i, s.term[i])
    ensures Clear(p, u, i, x)
    decreases |acts|
  {
    hide AcceptInv, Inv, Step, Enabled, Settled;
    if acts != [] {
      var s' := Step(p, s, acts[0]);
      StepAccept(p, s, acts[0]);
      TermGrows(p, s, acts[0], i);
      StandsRun(p, s', acts[1..], u, i, s.term[i]);
      ClearStep(p, s, acts[0], i, x);
      ClearRun(p, s', acts[1..], u, i, x);
    }
  }

  /** A call picked in the tenancy has the names of the tenant, and so has any other that returns the pair. */
  lemma {:induction false} ClearIsNamed(p: Params, s: State, i: nat, x: Id)
    requires Clear(p, s, i, x) && Due(s.accept, s.live, i, s.term[i])
    ensures Named(s.accept, x, p.want[x].kind)
  {
    hide Inv, RowKnown, Wiping;
    StandingRow(p, s, i);
  }

  // ---------------------------------------------------------------------------------------
  // The flag
  // ---------------------------------------------------------------------------------------

  /** The tenancy for which accept picked its slot is over, and the flag it had has been wiped. */
  predicate Over(c: Accept, i: nat, m: Manager, held: bool, term: nat) {
    !held || c.picked < term || (m.i == i && (m.Release? || (m.Wipe? && m.k >= 6)))
  }

  /** From then on the flag stays down until the call itself puts it up. */
  predicate Lowered(s: State) {
    var pc := s.accept.pc;
    HasPicked(pc) && !pc.AttachRequest? && !pc.AttachResponse? && pc.i < |s.rows| && pc.i < |s.term| &&
      Over(s.accept, pc.i, s.manager, pc.i in s.owner, s.term[pc.i]) ==>
      !s.rows[pc.i].serverAttached
  }

  lemma {:induction false} ClientLowered(p: Params, s: State, x: Id)
    requires AcceptInv(p, s) && Enabled(p, s, ClientMove(x)) && Lowered(s)
    ensures Lowered(ClientStep(p, s, x))
  {
    hide Inv, PairInv, FreeSlot, Claimed, IsKeyOf, ServiceInv, TakenSlot, AcceptOk, RowKnown, Same, Partial;
    ClientFacts(p, s, x);
  }

  lemma {:induction false} ManagerLowered(p: Params, s: State)
    requires AcceptInv(p, s) && Lowered(s)
    ensures Lowered(ManagerStep(p, s))
  {
    hide Inv, AcceptOk, RowKnown, ShmCreate, Format, RequestKey, ResponseKey, Fades;
    var m := s.manager;
    if m.MakeRequest? {
      CreateFades(s, RequestKey(m.kind, m.id), m.kind, m.i);
    } else if m.MakeResponse? {
      CreateFades(s, ResponseKey(m.kind, m.id), m.kind, m.i);
    }
  }

  lemma {:induction false} AcceptLowered(p: Params, s: State)
    requires AcceptInv(p, s) && Enabled(p, s, AcceptMove) && Lowered(s)
    ensures Lowered(AcceptStep(p, s))
  {
    hide Inv, AcceptOk, RowKnown, CoordOps.NextSlot, IsKeyOf, ClientOk, Claimed, PairInv, SegmentInv, ServiceInv;
    if AtSlot(s.accept.pc) {
      SlotFacts(p, s, s.accept.pc.i);
    }
  }

  lemma {:induction false} RunLowered(p: Params, s: State, acts: seq<Action>, u: State)
    requires AcceptInv(p, s) && Lowered(s) && Reaches(p, s, acts, u)
    ensures AcceptInv(p, u) && Lowered(u)
    decreases |acts|
  {
    hide AcceptInv, Inv, ClientStep, ManagerStep, AcceptStep;
    if acts != [] {
      var a := acts[0];
      StepAccept(p, s, a);
      match a {
        case ClientMove(x) => ClientLowered(p, s, x);
        case ManagerMove => ManagerLowered(p, s);
        case AcceptMove => AcceptLowered(p, s);
        case _ =>
      }
      RunLowered(p, Step(p, s, a), acts[1..], u);
    }
  }

  // ---------------------------------------------------------------------------------------
  // Calls that are misled
  // ---------------------------------------------------------------------------------------

  lemma {:induction false} FreshRow(p: Params, r: State, x: Id, s: State)
    requires JustReserved(p, r, x, s) && Lowered(r)
    ensures
      var i := r.clients[x].i;
      && i < |s.rows| && s.rows[i].id == x && x in p.want && s.rows[i].kind == p.want[x].kind && !s.rows[i].created
      && s.rows[i].request == Info(0, 0) && s.rows[i].response == Info(0, 0)
      && !(AcceptHolds(s.accept.pc))
      && (HasPicked(s.accept.pc) && s.accept.pc.i == i ==> s.accept.picked < s.term[i])
      && (HasPicked(s.accept.pc) && s.accept.pc.i == i && !HasId(s.accept.pc) ==> !s.rows[i].serverAttached)
  {
    hide Inv, PairInv, FreeSlot, Claimed, IsKeyOf, ServiceInv, TakenSlot, RowKnown;
    FreshFacts(p, r, x, s);
    ClientFacts(p, r, x);
  }

  /** At the reservation a call that is not misled is settled. */
  lemma {:induction false} FreshSettled(p: Params, r: State, x: Id, s: State)
    requires JustReserved(p, r, x, s) && Lowered(r) && x in p.want
    requires !Misled(s.accept, r.clients[x].i, x, p.want[x].kind)
    ensures Clear(p, s, r.clients[x].i, x)
  {
    hide Inv, RowKnown, Wiping, ClientStep, Lowered;
    FreshFacts(p, r, x, s);
    FreshRow(p, r, x, s);
  }

  function ToLoop(pc: Acceptor): (n: nat) {
    match pc
    case LoadType(_) => 6
    case CheckCreated(_, again, _) => if again then 0 else 5
    case LoadRequest(_, _, _) => 4
    case LoadResponse(_, _, _, _) => 3
    case CheckId(_, _, _) => 2
    case _ => 1
  }

  /** A row that has been filled in but not serviced. */
  predicate Unserved(row: Row, x: Id, kind: QueueType) {
    row.id == x && row.kind == kind && !row.created && row.request == Info(0, 0) && row.response == Info(0, 0)
  }

  lemma {:induction false} BlindStep(slots: nat, rows: seq<Row>, reserved: seq<bool>, term: seq<nat>,
                                     live: map<int, Segment>, c: Accept, i: nat, x: Id, kind: QueueType)
    requires |rows| == |reserved| == |term| == slots && InRange(c, slots) && i < slots
    requires Misled(c, i, x, kind) && ToLoop(c.pc) > 0 && Unserved(rows[i], x, kind) && x != 0
    ensures
      var c' := AcceptNext(slots, rows, reserved, term, live, c);
      Misled(c', i, x, kind) && ToLoop(c'.pc) < ToLoop(c.pc)
  {
    hide CoordOps.NextSlot;
  }

  /** Left to itself, the call comes to look at the slot again and again. */
  lemma {:induction false} Loops(p: Params, s0: State, s: State, i: nat, x: Id) returns (u: State)
    requires Leads(p, s0, s) && AcceptInv(p, s) && i < p.slots && x in p.want
    requires Misled(s.accept, i, x, p.want[x].kind) && Unserved(s.rows[i], x, p.want[x].kind)
    ensures Leads(p, s0, u) && AcceptInv(p, u) && u == s.(accept := u.accept)
    ensures u.accept.pc.CheckCreated? && u.accept.pc.again && u.accept.pc.i == i && !Named(u.accept, x, p.want[x].kind)
    decreases ToLoop(s.accept.pc)
  {
    hide AcceptInv, Inv, AcceptNext, Leads, IsKeyOf;
    u := s;
    if ToLoop(s.accept.pc) > 0 {
      BlindStep(p.slots, s.rows, s.reserved, s.term, s.live, s.accept, i, x, p.want[x].kind);
      u := Then(p, s0, s, AcceptMove);
      u := Loops(p, s0, u, i, x);
    }
  }

  /** The call has found the pair published, and goes on with the id it has. */
  predicate Fetching(c: Accept, row: Row, i: nat) {
    && Carries(c.pc) && c.pc.i == i && !c.pc.AttachRequest? && !c.pc.AttachResponse?
    && (c.pc.CheckCreated? || c.pc.LoadRequest? || c.pc.LoadResponse? ==> c.pc.again)
    && (c.pc.LoadResponse? || HasId(c.pc) ==> c.pc.request == row.request)
    && (HasId(c.pc) ==> c.pc.response == row.response)
  }

  function ToFetch(pc: Acceptor): (n: nat) {
    match pc
    case CheckCreated(_, _, _) => 6
    case LoadRequest(_, _, _) => 5
    case LoadResponse(_, _, _, _) => 4
    case CheckFlag(_, _, _, _) => 3
    case LoadFlag(_, _, _, _) => 2
    case CheckSet(_, _, _, _) => 1
    case _ => 0
  }

  lemma {:induction false} FetchStep(slots: nat, rows: seq<Row>, reserved: seq<bool>, term: seq<nat>,
                                     live: map<int, Segment>, c: Accept, i: nat)
    requires |rows| == |reserved| == |term| == slots && InRange(c, slots) && i < slots && Fetching(c, rows[i], i)
    requires rows[i].created && !rows[i].serverAttached && !Incomplete(rows[i].request, rows[i].response)
    ensures
      var c' := AcceptNext(slots, rows, reserved, term, live, c);
      && Carries(c'.pc) && c'.pc.id == c.pc.id && c'.kind == c.kind && c'.pc.i == i
      && (if c.pc.StoreFlag? then
            c'.pc.AttachRequest? && c'.pc.request == rows[i].request && c'.pc.response == rows[i].response
          else Fetching(c', rows[i], i) && ToFetch(c'.pc) < ToFetch(c.pc))
  {
    hide CoordOps.NextSlot;
  }

  /** It is about to return the pair with that id. */
  lemma {:induction false} Fetches(p: Params, s0: State, s: State, i: nat, x: Id) returns (u: State)
    requires Leads(p, s0, s) && AcceptInv(p, s) && i < p.slots && x in p.want
    requires Eligible(s, i) && !s.rows[i].serverAttached && Fetching(s.accept, s.rows[i], i)
    requires !Named(s.accept, x, p.want[x].kind)
    ensures Leads(p, s0, u) && AcceptInv(p, u) && u.accept.pc.AttachRequest? && !Named(u.accept, x, p.want[x].kind)
    ensures Standing(u, i, s.term[i]) && Due(u.accept, u.live, i, s.term[i])
    ensures i in u.owner && u.owner == s.owner
    decreases ToFetch(s.accept.pc)
  {
    hide AcceptInv, Inv, AcceptNext, Leads, LivePair, Standing, MadeFor, Of;
    EligibleStands(p, s, i);
    StandingFacts(p, s, i);
    assert !Incomplete(s.rows[i].request, s.rows[i].response) by { EligibleKeys(p, s, i); }
    FetchStep(p.slots, s.rows, s.reserved, s.term, s.live, s.accept, i);
    u := Then(p, s0, s, AcceptMove);
    if s.accept.pc.StoreFlag? {
      EligibleStands(p, u, i);
    } else {
      u := Fetches(p, s0, u, i, x);
    }
  }

  lemma {:induction false} EligibleKeys(p: Params, s: State, i: nat)
    requires Inv(p, s) && i < p.slots && Eligible(s, i)
    ensures !Incomplete(s.rows[i].request, s.rows[i].response)
  {
    hide Inv, IsKeyOf, ClientOk, Claimed, PairInv, SegmentInv, ServiceInv;
    EligibleStands(p, s, i);
    RowFacts(p, s, i);
  }

  lemma {:induction false} IdNotZero(p: Params, x: Id)
    requires ValidParams(p) && x in p.want
    ensures x != 0
  {
  }

  /** A misled call returns the pair of the tenant with the wrong names. */
  lemma {:induction false} MisledFrom(p: Params, r: State, x: Id, s: State) returns (u: State)
    requires JustReserved(p, r, x, s) && Lowered(r) && x in p.want
    requires Misled(s.accept, r.clients[x].i, x, p.want[x].kind)
    ensures
      var i := r.clients[x].i;
      && Leads(p, s, u) && AcceptInv(p, u) && i < |s.term| && Standing(u, i, s.term[i])
      && Due(u.accept, u.live, i, s.term[i]) && u.accept.pc.AttachRequest? && !Named(u.accept, x, p.want[x].kind)
      && i in u.owner && u.owner[i] == x
  {
    hide AcceptInv, Inv, Leads, Gone, LivePair, ClientStep, Standing, Due, Lowered;
    var i := r.clients[x].i;
    FreshFacts(p, r, x, s);
    FreshRow(p, r, x, s);
    Here(p, s);
    u := Loops(p, s, s, i, x);
    u := ToPublish(p, s, u, i, x);
    u := Published(p, s, u, i, x);
    u := Fetches(p, s, u, i, x);
  }

  /** The names on the pair. At the moment client x has reserved a slot: whatever happens from then on, for as long as
      the tenancy stands no call of accept returns its pair with an id or a queue type that is not x's, if and only if
      no call left over from an earlier tenancy is at a point where it has read the wrong ones, or has yet to
      read the id while there is none to read. */
  lemma {:induction false} NamedExactly(p: Params, before: seq<Action>, r: State, x: Id)
    requires ValidParams(p) && Reaches(p, Init(p), before, r) && Shaped(p, r)
    requires x in r.clients && r.clients[x].Writing? && r.clients[x].k >= 7 && Enabled(p, r, ClientMove(x))
    ensures
      var i, s := r.clients[x].i, ClientStep(p, r, x);
      i < |s.term| && x in p.want && (AlwaysNamed(p, s, i, x) <==> !Misled(s.accept, i, x, p.want[x].kind))
  {
    hide AcceptInv, Inv, Init, Reaches, ClientStep, Leads, Standing, Due, Misled, Lowered;
    InitAccept(p);
    StartLowered(p);
    RunLowered(p, Init(p), before, r);
    var i, s := r.clients[x].i, ClientStep(p, r, x);
    FreshFacts(p, r, x, s);
    FreshRow(p, r, x, s);
    if Misled(s.accept, i, x, p.want[x].kind) {
      var u := MisledFrom(p, r, x, s);
    } else {
      FreshSettled(p, r, x, s);
      forall u | Leads(p, s, u) && Standing(u, i, s.term[i]) && Due(u.accept, u.live, i, s.term[i])
        ensures Named(u.accept, x, p.want[x].kind)
      {
        ClearLeads(p, s, u, i, x);
        SameTerm(u, i, s.term[i]);
        ClearIsNamed(p, u, i, x);
      }
    }
  }

  lemma {:induction false} StartLowered(p: Params)
    requires ValidParams(p)
    ensures Lowered(Init(p))
  {
  }

  lemma {:induction false} ClearLeads(p: Params, s: State, u: State, i: nat, x: Id)
    requires Clear(p, s, i, x) && Leads(p, s, u) && Standing(u, i, s.term[i])
    ensures Clear(p, u, i, x)
  {
    hide AcceptInv, Inv, Reaches, Standing, Settled;
    var acts :| Reaches(p, s, acts, u);
    ClearRun(p, s, acts, u, i, x);
  }

  lemma {:induction false} LeadsLowered(p: Params, s: State)
    requires ValidParams(p) && Leads(p, Init(p), s)
    ensures Lowered(s)
  {
    hide AcceptInv, Inv, Reaches, Lowered, Init;
    var acts :| Reaches(p, Init(p), acts, s);
    InitAccept(p);
    StartLowered(p);
    RunLowered(p, Init(p), acts, s);
  }

  /** With any slots and clients, a run in which accept is about to return a client's live pair with an id or a queue
      type that is not the client's. */
  lemma {:induction false} Misnamed(p: Params, x: Id) returns (s: State)
    requires ValidParams(p) && x in p.want
    ensures Leads(p, Init(p), s) && Shaped(p, s) && 0 in s.owner && s.owner[0] == x && s.accept.pc.AttachRequest?
    ensures LivePair(s.live, s.accept.pc.request, s.accept.pc.response, 0, s.term[0]) &&
      !Named(s.accept, x, p.want[x].kind)
  {
    hide AcceptInv, Inv, Leads, ClientStep, Reaches, Init, Standing, LivePair, Lowered;
    var a := Halts(p, x, 13);
    var r, b := ComesBack(p, a, x);
    FreshFacts(p, r, x, b);
    LeadsLowered(p, r);
    s := MisledFrom(p, r, x, b);
    LeadsOn(p, Init(p), b, s);
    SameTerm(s, 0, b.term[0]);
  }
}
