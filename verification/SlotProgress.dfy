/** The manager gets round to every slot: a reservation is serviced, and a detached slot given up, within a
    bounded number of the manager's steps, whatever the clients do. */
module SlotProgress {
  import opened Slots
  import opened SlotProtocol
  import opened SlotInvariant
  import opened SlotManager
  import opened SlotTheorems
  import AcceptOrder

  /** Most steps the manager takes before it leaves the slot it is at. */
  function Left(m: Manager): (n: nat)
    ensures 1 <= n <= 31
  {
    match m
    case ReadType(_) => 31
    case TestReserved(_, _) => 30
    case TestCreated(_, _) => 29
    case ReadSize(_, _) => 28
    case ReadId(_, _, _) => 27
    case MakeRequest(_, _, _, _) => 26
    case MakeResponse(_, _, _, _, _) => 25
    case FormatRequest(_, _, _, _) => 24
    case FormatResponse(_, _, _, _) => 23
    case WriteRequest(_, _, _) => 22
    case WriteResponse(_, _, _) => 21
    case Publish(_, _, _) => 20
    case TestDetach(_) => 19
    case TestSegments(_) => 18
    case RemoveRequest(_) => 17
    case RemoveResponse(_) => 16
    case Wipe(_, k) => if k < 8 then 15 - k else 2
    case Release(_) => 1
  }

  /** The manager is past the point where it would service the slot. */
  predicate Past(m: Manager) {
    m.TestDetach? || m.TestSegments? || m.RemoveRequest? || m.RemoveResponse? || m.Wipe? || m.Release?
  }

  /** How many rounds of 32 steps slot i is ahead of the manager. */
  function Ahead(p: Params, m: Manager, i: nat, serviced: bool): (n: nat)
    requires m.i < p.slots && i < p.slots
    ensures n <= p.slots
  {
    if serviced && m.i == i && Past(m) then p.slots else AcceptOrder.Distance(m.i, i, p.slots)
  }

  /** Bounds the manager's steps until it has serviced slot i (or, for a detached slot, given it up). */
  function Rank(p: Params, m: Manager, i: nat, serviced: bool): (n: nat)
    requires m.i < p.slots && i < p.slots
    ensures n <= 32 * p.slots + 31
  {
    32 * Ahead(p, m, i, serviced) + Left(m)
  }

  /** The manager gets on with the slot at hand or goes to the next. */
  predicate Advanced(p: Params, m: Manager, m': Manager, row: Row, reserved: bool) {
    if m.Release? || (m.TestDetach? && !row.detach) then m' == NextSlot(p, m.i)
    else
      && m'.i == m.i && Left(m') < Left(m)
      && (Past(m') ==> Past(m) || m.Publish? || (m.TestReserved? && !reserved) || (m.TestCreated? && row.created))
  }

  lemma {:induction false} AdvancesEarly(p: Params, s: State)
    requires Shaped(p, s) && !Past(s.manager)
    ensures Advanced(p, s.manager, ManagerStep(p, s).manager, s.rows[s.manager.i], s.reserved[s.manager.i])
  {
    hide ShmCreate, Format;
  }

  lemma {:induction false} AdvancesLate(p: Params, s: State)
    requires Shaped(p, s) && Past(s.manager)
    ensures Advanced(p, s.manager, ManagerStep(p, s).manager, s.rows[s.manager.i], s.reserved[s.manager.i])
  {
    hide ShmCreate, Format, WipeField;
  }

  lemma {:induction false} NextIsNearer(p: Params, j: nat, i: nat)
    requires j < p.slots && i < p.slots
    ensures NextSlot(p, j).i < p.slots
    ensures AcceptOrder.Distance(NextSlot(p, j).i, i, p.slots)
         == if j == i then p.slots - 1 else AcceptOrder.Distance(j, i, p.slots) - 1
  {
  }

  /** Client x has slot i, and its pair has not been published. */
  predicate Waiting(s: State, i: nat, x: Id) {
    i in s.owner && s.owner[i] == x && i < |s.rows| && !s.rows[i].created && x in s.clients && !s.clients[x].Closed?
  }

  /** Client x has closed, and slot i has not been given up yet. */
  predicate Leaving(s: State, i: nat, x: Id) {
    i in s.owner && s.owner[i] == x && x in s.clients && s.clients[x].Closed?
  }

  predicate Pending(s: State, i: nat, x: Id, serviced: bool) {
    if serviced then Waiting(s, i, x) else Leaving(s, i, x)
  }

  /** The pair has been published to x, or x's slot has been given up. */
  predicate Served(s: State, i: nat, x: Id, serviced: bool) {
    if serviced then i in s.owner && s.owner[i] == x && i < |s.rows| && s.rows[i].created
    else i !in s.owner
  }

  lemma {:induction false} ManagerServes(p: Params, s: State, i: nat, x: Id, serviced: bool)
    requires Inv(p, s) && i < p.slots && Pending(s, i, x, serviced)
    ensures
      var s' := ManagerStep(p, s);
      || Served(s', i, x, serviced)
      || (Pending(s', i, x, serviced) && s'.manager.i < p.slots &&
        Rank(p, s'.manager, i, serviced) < Rank(p, s.manager, i, serviced))
  {
    hide Inv, PairInv, IsKeyOf, Claimed, ClientOk, SegmentInv, ManagerStep, ServiceInv, Left;
    SlotFacts(p, s, i);
    if Past(s.manager) {
      AdvancesLate(p, s);
      FrameLate(p, s);
    } else {
      AdvancesEarly(p, s);
      FrameEarly(p, s);
    }
    NextIsNearer(p, s.manager.i, i);
  }

  /** The manager leaves the clients alone, and the slots it is not at. */
  ghost predicate Framed(p: Params, s: State, s': State)
    requires Shaped(p, s)
  {
    var m := s.manager;
    && s'.clients == s.clients && |s'.rows| == |s.rows|
    && (forall i: nat :: i < p.slots && i != m.i ==> s'.rows[i] == s.rows[i])
    && s'.owner == (if m.Release? then s.owner - {m.i} else s.owner)
    && s'.rows[m.i].created == (if m.Publish? then true else if m.Wipe? && m.k == 3 then false else s.rows[m.i].created)
  }

  lemma {:induction false} FrameEarly(p: Params, s: State)
    requires Shaped(p, s) && !Past(s.manager)
    ensures Framed(p, s, ManagerStep(p, s))
  {
    hide Format;
  }

  lemma {:induction false} FrameLate(p: Params, s: State)
    requires Shaped(p, s) && Past(s.manager)
    ensures Framed(p, s, ManagerStep(p, s))
  {
    hide ShmCreate, Format;
  }

  /** A client keeps its hands off the slots of others; its own it can only attach to or detach from. */
  lemma {:induction false} ClientWaits(p: Params, s: State, y: Id, i: nat, x: Id, serviced: bool)
    requires Inv(p, s) && Enabled(p, s, ClientMove(y)) && i < p.slots && Pending(s, i, x, serviced)
    ensures
      var s' := ClientStep(p, s, y);
      s'.manager == s.manager && Pending(s', i, x, serviced)
  {
    hide Inv, PairInv, IsKeyOf, Claimed, SegmentInv, ServiceInv, FreeSlot, Wiped;
    ClientFacts(p, s, y);
    if y == x {
      OwnerFacts(p, s, i);
    }
  }

  lemma {:induction false} OwnerFacts(p: Params, s: State, i: nat)
    requires Inv(p, s) && i in s.owner
    ensures s.owner[i] in s.clients && Tenant(s.clients[s.owner[i]]) && s.clients[s.owner[i]].i == i
    ensures i < p.slots && (SawCreated(s.clients[s.owner[i]]) && !s.clients[s.owner[i]].Closed? ==> s.rows[i].created)
  {
    hide PairInv, SegmentInv, FreeSlot, Claimed, Segments, MutexInv, ClientOk, ValidParams, IsKeyOf, ServiceInv, Wiped;
  }

  lemma {:induction false} OthersWait(p: Params, s: State, a: Action, i: nat, x: Id, serviced: bool)
    requires Inv(p, s) && Enabled(p, s, a) && !a.ManagerMove? && i < p.slots && Pending(s, i, x, serviced)
    ensures
      var s' := Step(p, s, a);
      s'.manager == s.manager && Pending(s', i, x, serviced)
  {
    hide Inv, ClientStep;
    assert x in s.owner.Values;
    if a.ClientMove? {
      ClientWaits(p, s, a.x, i, x, serviced);
    }
  }

  function ManagerMoves(acts: seq<Action>): (n: nat)
    decreases |acts|
  {
    if acts == [] then 0 else (if acts[0].ManagerMove? then 1 else 0) + ManagerMoves(acts[1..])
  }

  /** A run in which the manager takes more steps than the rank passes through a state where x is served. */
  lemma {:induction false} ServedWithin(p: Params, s: State, acts: seq<Action>, t: State, i: nat, x: Id, serviced: bool)
    returns (n: nat, u: State)
    requires Inv(p, s) && Reaches(p, s, acts, t) && i < p.slots && Pending(s, i, x, serviced)
    requires ManagerMoves(acts) >= Rank(p, s.manager, i, serviced)
    ensures n <= |acts| && Reaches(p, s, acts[..n], u) && Served(u, i, x, serviced)
    decreases |acts|
  {
    hide Inv, Step, Pending, Served, Enabled, Rank;
    assert Rank(p, s.manager, i, serviced) > 0 by { RankPositive(p, s.manager, i, serviced); }
    var a, s' := acts[0], Step(p, s, acts[0]);
    StepInv(p, s, a);
    OneStep(p, s, a, i, x, serviced);
    if Served(s', i, x, serviced) {
      n, u := 1, s';
      assert acts[..1][1..] == [];
    } else {
      n, u := ServedWithin(p, s', acts[1..], t, i, x, serviced);
      assert acts[..n + 1][1..] == acts[1..][..n];
      n := n + 1;
    }
  }

  lemma {:induction false} RankPositive(p: Params, m: Manager, i: nat, serviced: bool)
    requires m.i < p.slots && i < p.slots
    ensures Rank(p, m, i, serviced) > 0
  {
  }

  lemma {:induction false} OneStep(p: Params, s: State, a: Action, i: nat, x: Id, serviced: bool)
    requires Inv(p, s) && Enabled(p, s, a) && i < p.slots && Pending(s, i, x, serviced)
    ensures
      var s' := Step(p, s, a);
      || Served(s', i, x, serviced)
      || (&& Pending(s', i, x, serviced) && s'.manager.i < p.slots
          && Rank(p, s'.manager, i, serviced) + (if a.ManagerMove? then 1 else 0) <= Rank(p, s.manager, i, serviced))
  {
    hide Inv, Pending, Served, Rank, ManagerStep;
    if a.ManagerMove? {
      ManagerServes(p, s, i, x, serviced);
    } else {
      OthersWait(p, s, a, i, x, serviced);
    }
  }

  /** A client that has been granted a slot: once the manager has taken 32 * (slots + 1) steps, in whatever
      interleaving, there has been a moment when the pair was published and the slot was still the client's. */
  lemma {:induction false} ReservationServiced(p: Params, before: seq<Action>, s: State, acts: seq<Action>, t: State,
                                               x: Id)
    returns (n: nat, u: State)
    requires ValidParams(p) && Reaches(p, Init(p), before, s) && Shaped(p, s) && Reaches(p, s, acts, t)
    requires x in s.clients && Tenant(s.clients[x]) && !s.clients[x].Closed?
    requires ManagerMoves(acts) >= 32 * (p.slots + 1)
    ensures n <= |acts| && Reaches(p, s, acts[..n], u)
    ensures s.clients[x].i in u.owner && u.owner[s.clients[x].i] == x
    ensures s.clients[x].i < |u.rows| && u.rows[s.clients[x].i].created
  {
    hide Inv, Init, Reaches, Rank, TakenSlot, PairInv, ClientOk;
    ReachableInv(p, before, s);
    ClientFacts(p, s, x);
    var i := s.clients[x].i;
    if s.rows[i].created {
      n, u := 0, s;
      assert Reaches(p, s, acts[..0], s) by { Nowhere(p, s, acts); }
    } else {
      n, u := ServedWithin(p, s, acts, t, i, x, true);
    }
  }

  lemma {:induction false} Nowhere(p: Params, s: State, acts: seq<Action>)
    ensures Reaches(p, s, acts[..0], s)
  {
  }

  /** A slot whose client has closed: once the manager has taken 32 * (slots + 1) steps it has been given up. */
  lemma {:induction false} DetachedSlotReleased(p: Params, before: seq<Action>, s: State, acts: seq<Action>, t: State,
                                                x: Id)
    returns (n: nat, u: State)
    requires ValidParams(p) && Reaches(p, Init(p), before, s) && Shaped(p, s) && Reaches(p, s, acts, t)
    requires x in s.clients && s.clients[x].Closed?
    requires ManagerMoves(acts) >= 32 * (p.slots + 1)
    ensures n <= |acts| && Reaches(p, s, acts[..n], u)
    ensures s.clients[x].i in u.owner ==> u.owner[s.clients[x].i] != x
  {
    hide Inv, Init, Reaches, Rank, TakenSlot, PairInv, ClientOk;
    ReachableInv(p, before, s);
    var i := s.clients[x].i;
    if i in s.owner && s.owner[i] == x {
      n, u := ServedWithin(p, s, acts, t, i, x, false);
    } else {
      n, u := 0, s;
      assert Reaches(p, s, acts[..0], s) by { Nowhere(p, s, acts); }
    }
  }
}
