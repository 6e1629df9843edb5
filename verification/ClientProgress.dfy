/** Clients get on: a request finds the first free slot, a client whose pair has been published connects, and a close
    ends, each within a bounded number of the client's own steps, whatever manager, acceptor and other clients do. */
module ClientProgress {
  import opened Slots
  import opened SlotProtocol
  import opened SlotInvariant
  import opened SlotTheorems
  import SlotProgress

  // ---------------------------------------------------------------------------------------
  // What a scan finds
  // ---------------------------------------------------------------------------------------

  /** What client x finds in the run, look by look: whether the slot is reserved. */
  ghost function Looks(p: Params, s: State, acts: seq<Action>, x: Id): (found: seq<bool>)
    decreases |acts|
  {
    if acts == [] || !Shaped(p, s) || !Enabled(p, s, acts[0]) then []
    else
      (if acts[0] == ClientMove(x) && s.clients[x].Scanning? then [s.reserved[s.clients[x].i]] else [])
      + Looks(p, Step(p, s, acts[0]), acts[1..], x)
  }

  /** x is inside request_slot, under the mutex, in every state of the run. */
  ghost predicate StaysInside(p: Params, s: State, acts: seq<Action>, x: Id)
    decreases |acts|
  {
    && x in s.clients && InsideRequest(s.clients[x])
    && (acts != [] && Shaped(p, s) && Enabled(p, s, acts[0]) ==> StaysInside(p, Step(p, s, acts[0]), acts[1..], x))
  }

  predicate AllReserved(found: seq<bool>) {
    forall k :: 0 <= k < |found| ==> found[k]
  }

  /** What the position of a client says about its looks, at slots 0, 1, .. one after the other. */
  predicate Scanned(q: Client, found: seq<bool>, slots: nat) {
    && (q.Scanning? ==> |found| == q.i && AllReserved(found))
    && (q.Writing? || q.Granted? ==> |found| == q.i + 1 && AllReserved(found[..q.i]) && !found[q.i])
    && (q.Refused? ==> |found| == slots && AllReserved(found))
  }

  lemma {:induction false} ScanStep(p: Params, s: State, x: Id, found: seq<bool>)
    requires Shaped(p, s) && x in s.clients && x in p.want && InsideRequest(s.clients[x])
    requires Scanned(s.clients[x], found, p.slots)
    ensures
      var q, q' := s.clients[x], ClientStep(p, s, x).clients[x];
      InsideRequest(q') ==> Scanned(q', found + (if q.Scanning? then [s.reserved[q.i]] else []), p.slots)
  {
    hide WriteField;
    var q := s.clients[x];
    if q.Scanning? {
      assert (found + [s.reserved[q.i]])[..q.i] == found;
    } else {
      assert found + [] == found;
    }
  }

  /** Nobody else moves a client. */
  lemma {:induction false} OthersLeave(p: Params, s: State, a: Action, x: Id)
    requires Inv(p, s) && Enabled(p, s, a) && a != ClientMove(x) && x in s.clients
    requires !s.clients[x].Out? && !s.clients[x].Open? && !s.clients[x].Closed?
    ensures x in Step(p, s, a).clients && Step(p, s, a).clients[x] == s.clients[x]
  {
    hide Inv, ManagerStep, AcceptNext, WriteField;
    if a.ManagerMove? {
      ManagerFramed(p, s);
    }
  }

  lemma {:induction false} ManagerFramed(p: Params, s: State)
    requires Inv(p, s)
    ensures SlotProgress.Framed(p, s, ManagerStep(p, s))
  {
    hide Inv, ManagerStep;
    if SlotProgress.Past(s.manager) {
      SlotProgress.FrameLate(p, s);
    } else {
      SlotProgress.FrameEarly(p, s);
    }
  }

  lemma {:induction false} ScanRun(p: Params, s: State, acts: seq<Action>, t: State, x: Id, found: seq<bool>)
    requires Inv(p, s) && Reaches(p, s, acts, t) && StaysInside(p, s, acts, x)
    requires Scanned(s.clients[x], found, p.slots)
    ensures x in t.clients && Scanned(t.clients[x], found + Looks(p, s, acts, x), p.slots)
    decreases |acts|
  {
    hide Inv, ClientStep, ManagerStep, AcceptStep, Scanned;
    if acts == [] {
      assert found + Looks(p, s, acts, x) == found;
    } else {
      var a, s', q := acts[0], Step(p, s, acts[0]), s.clients[x];
      var more := if a == ClientMove(x) && q.Scanning? then [s.reserved[q.i]] else [];
      StepInv(p, s, a);
      if a == ClientMove(x) {
        ScanStep(p, s, x, found);
      } else {
        OthersLeave(p, s, a, x);
        assert found + more == found;
      }
      ScanRun(p, s', acts[1..], t, x, found + more);
      assert (found + more) + Looks(p, s', acts[1..], x) == found + Looks(p, s, acts, x);
    }
  }

  /** From the moment it has the mutex a client looks at the slots one after the other. It settles on slot i, and no
      other, if and only if slot i is the first it found free when it came to look at it, and it is refused if and
      only if it has found every slot reserved. */
  lemma {:induction false} ScanExactly(p: Params, before: seq<Action>, s: State, acts: seq<Action>, t: State, x: Id)
    requires ValidParams(p) && Reaches(p, Init(p), before, s) && Reaches(p, s, acts, t)
    requires x in s.clients && s.clients[x] == Scanning(0) && StaysInside(p, s, acts, x)
    ensures x in t.clients
    ensures
      var q, found := t.clients[x], Looks(p, s, acts, x);
      && (q.Refused? <==> |found| == p.slots && AllReserved(found))
      && (forall i: nat :: (q.Writing? || q.Granted?) && q.i == i <==>
            |found| == i + 1 && AllReserved(found[..i]) && !found[i])
  {
    hide Inv, Init, Reaches, Looks, StaysInside;
    ReachableInv(p, before, s);
    ScanRun(p, s, acts, t, x, []);
    var q, found := t.clients[x], Looks(p, s, acts, x);
    assert [] + found == found;
    StillInside(p, s, acts, t, x);
    ScanInRange(p, s, acts, t, x);
  }

  lemma {:induction false} StillInside(p: Params, s: State, acts: seq<Action>, t: State, x: Id)
    requires Reaches(p, s, acts, t) && StaysInside(p, s, acts, x)
    ensures x in t.clients && InsideRequest(t.clients[x])
    decreases |acts|
  {
    hide Step, Enabled, Shaped;
    if acts != [] {
      StillInside(p, Step(p, s, acts[0]), acts[1..], t, x);
    }
  }

  lemma {:induction false} ScanInRange(p: Params, s: State, acts: seq<Action>, t: State, x: Id)
    requires Inv(p, s) && Reaches(p, s, acts, t) && x in t.clients
    ensures t.clients[x].Scanning? ==> t.clients[x].i < p.slots
  {
    hide Inv, Reaches;
    RunInv(p, s, acts, t);
  }

  // ---------------------------------------------------------------------------------------
  // Progress
  // ---------------------------------------------------------------------------------------

  /** What a client is after: a slot no later than j, the end of its request, the connection, the end of its close. */
  datatype Goal = Grant(j: nat) | Leave | Connect | Close

  /** The client is on its way: slot j is free, or it has settled on a slot; its pair has been published. */
  ghost predicate Pending(p: Params, s: State, x: Id, goal: Goal)
    requires Shaped(p, s)
  {
    && x in s.clients
    && var q := s.clients[x];
    match goal
    case Grant(j) =>
      && j < p.slots && (q.Scanning? || q.Writing?) && q.i <= j
      && (q.Scanning? ==> !s.reserved[j]) && (q.Writing? ==> q.k <= 7)
    case Leave => InsideRequest(q) && (q.Writing? ==> q.k <= 7)
    case Connect => Tenant(q) && !Attached(q) && s.rows[q.i].created
    case Close => q.Searching? || q.Detaching?
  }

  predicate Reached(s: State, x: Id, goal: Goal) {
    && x in s.clients
    && var q := s.clients[x];
    match goal
    case Grant(j) => q.Granted? && q.i <= j && q.i in s.owner && s.owner[q.i] == x
    case Leave => (q.Locking? || q.Polling?) && x !in s.mutex
    case Connect => q.Open?
    case Close => q.Closed? && q.i in s.owner && s.owner[q.i] == x && q.i < |s.rows| && s.rows[q.i].detach
  }

  /** Most steps the client takes until it is there. */
  function Rank(slots: nat, q: Client): (n: int) {
    match q
    case Scanning(i) => slots - i + 9
    case Writing(_, k) => 9 - k
    case Refused => 1
    case Granted(_) => 8
    case Polling(_) => 7
    case Checking(_, _, _) => 6
    case CopyingRequest(_, _, _) => 5
    case CopyingResponse(_, _, _, _) => 4
    case Identifying(_, _, _, _, _) => 3
    case TestingAttach(_, _, _, _) => 2
    case SettingAttach(_, _, _, _) => 1
    case Searching(i, j) => i - j + 2
    case Detaching(_, _) => 1
    case _ => 0
  }

  /** In a request the reservation is the last step but one. */
  function Distance(slots: nat, q: Client, goal: Goal): (n: int) {
    if goal.Leave? && q.Granted? then 1 else Rank(slots, q)
  }

  lemma {:induction false} DistanceBound(p: Params, s: State, x: Id, goal: Goal)
    requires Inv(p, s) && Pending(p, s, x, goal)
    ensures 1 <= Distance(p.slots, s.clients[x], goal) <= if goal.Connect? then 8 else p.slots + 9
    ensures Enabled(p, s, ClientMove(x))
  {
    hide Inv, PairInv, IsKeyOf, TakenSlot, FreeSlot;
    ClientFacts(p, s, x);
  }

  /** A step of the client takes it nearer. */
  lemma {:induction false} ScansOn(p: Params, s: State, x: Id, goal: Goal)
    requires Inv(p, s) && Pending(p, s, x, goal) && (goal.Grant? || goal.Leave?)
    ensures Shaped(p, ClientStep(p, s, x))
    ensures Nearer(p, s, ClientStep(p, s, x), x, goal)
  {
    hide Inv, PairInv, IsKeyOf, TakenSlot, FreeSlot, WriteField, Same, Partial;
    StepInv(p, s, ClientMove(x));
    ClientFacts(p, s, x);
    MutexFacts(p, s);
  }

  ghost predicate Nearer(p: Params, s: State, s': State, x: Id, goal: Goal)
    requires Shaped(p, s')
  {
    Reached(s', x, goal) ||
    (&& Pending(p, s', x, goal) && x in s.clients
     && Distance(p.slots, s'.clients[x], goal) < Distance(p.slots, s.clients[x], goal))
  }

  lemma {:induction false} ConnectsOn(p: Params, s: State, x: Id)
    requires Inv(p, s) && Pending(p, s, x, Connect)
    ensures Shaped(p, ClientStep(p, s, x))
    ensures Nearer(p, s, ClientStep(p, s, x), x, Connect)
  {
    hide Inv, PairInv, IsKeyOf, FreeSlot, WriteField, Same, Partial;
    StepInv(p, s, ClientMove(x));
    ClientFacts(p, s, x);
  }

  lemma {:induction false} ClosesOn(p: Params, s: State, x: Id)
    requires Inv(p, s) && Pending(p, s, x, Close)
    ensures Shaped(p, ClientStep(p, s, x))
    ensures Nearer(p, s, ClientStep(p, s, x), x, Close)
  {
    hide Inv, PairInv, IsKeyOf, FreeSlot, WriteField, Same, Partial;
    StepInv(p, s, ClientMove(x));
    ClientFacts(p, s, x);
  }

  /** While a client has the mutex nobody else reserves a slot. */
  lemma {:induction false} OthersSpare(p: Params, s: State, a: Action, x: Id, goal: Goal)
    requires Inv(p, s) && Enabled(p, s, a) && a != ClientMove(x) && Pending(p, s, x, goal)
    ensures Shaped(p, Step(p, s, a))
    ensures Pending(p, Step(p, s, a), x, goal) && Step(p, s, a).clients[x] == s.clients[x]
  {
    hide Inv, ClientStep, ManagerStep, AcceptNext;
    StepInv(p, s, a);
    OthersLeave(p, s, a, x);
    if a.ClientMove? {
      ClientSpares(p, s, a.x, x, goal);
    } else if a.ManagerMove? {
      ManagerSpares(p, s, x, goal);
    }
  }

  lemma {:induction false} ClientSpares(p: Params, s: State, y: Id, x: Id, goal: Goal)
    requires Inv(p, s) && Enabled(p, s, ClientMove(y)) && y != x && Pending(p, s, x, goal)
    requires Shaped(p, ClientStep(p, s, y))
    ensures Pending(p, ClientStep(p, s, y), x, goal)
  {
    hide Inv, PairInv, IsKeyOf, FreeSlot, Same, Partial;
    ClientFacts(p, s, x);
    ClientFacts(p, s, y);
    MutexFacts(p, s);
  }

  lemma {:induction false} ManagerSpares(p: Params, s: State, x: Id, goal: Goal)
    requires Inv(p, s) && Pending(p, s, x, goal) && Inv(p, ManagerStep(p, s))
    ensures Pending(p, ManagerStep(p, s), x, goal)
  {
    hide Inv, ManagerStep, PairInv, IsKeyOf, FreeSlot, Same, Partial, ServiceInv, Wiped;
    ManagerFramed(p, s);
    ClientFacts(p, s, x);
    MutexFacts(p, s);
    MutexFacts(p, ManagerStep(p, s));
  }

  function ClientMoves(acts: seq<Action>, x: Id): (n: nat)
    decreases |acts|
  {
    if acts == [] then 0 else (if acts[0] == ClientMove(x) then 1 else 0) + ClientMoves(acts[1..], x)
  }

  /** A run in which the client takes as many steps passes through a state where it is there. */
  lemma {:induction false} Within(p: Params, s: State, acts: seq<Action>, t: State, x: Id, goal: Goal)
    returns (n: nat, u: State)
    requires Inv(p, s) && Reaches(p, s, acts, t) && Pending(p, s, x, goal)
    requires ClientMoves(acts, x) >= Distance(p.slots, s.clients[x], goal)
    ensures n <= |acts| && Reaches(p, s, acts[..n], u) && Reached(u, x, goal)
    decreases |acts|
  {
    hide Inv, Step, Pending, Reached, Enabled, Distance;
    DistanceBound(p, s, x, goal);
    var a, s' := acts[0], Step(p, s, acts[0]);
    StepInv(p, s, a);
    if a != ClientMove(x) {
      OthersSpare(p, s, a, x, goal);
    } else {
      OwnStep(p, s, x, goal);
    }
    if Reached(s', x, goal) {
      n, u := 1, s';
      assert acts[..1][1..] == [];
    } else {
      n, u := Within(p, s', acts[1..], t, x, goal);
      assert acts[..n + 1][1..] == acts[1..][..n];
      n := n + 1;
    }
  }

  lemma {:induction false} OwnStep(p: Params, s: State, x: Id, goal: Goal)
    requires Inv(p, s) && Pending(p, s, x, goal) && Enabled(p, s, ClientMove(x))
    ensures Shaped(p, Step(p, s, ClientMove(x))) && Nearer(p, s, Step(p, s, ClientMove(x)), x, goal)
  {
    hide Inv, Pending, Nearer, ClientStep;
    match goal
    case Connect => ConnectsOn(p, s, x);
    case Close => ClosesOn(p, s, x);
    case _ => ScansOn(p, s, x, goal);
  }

  /** A client that has the mutex while some slot is free: once it has taken slots + 9 steps of its own, in whatever
      interleaving, there has been a moment when it had been granted a slot, one no later than the free one. */
  lemma {:induction false} RequestGranted(p: Params, before: seq<Action>, s: State, acts: seq<Action>, t: State, x: Id,
                                          j: nat)
    returns (n: nat, u: State)
    requires ValidParams(p) && Reaches(p, Init(p), before, s) && Shaped(p, s) && Reaches(p, s, acts, t)
    requires x in s.clients && s.clients[x] == Scanning(0) && j < p.slots && !s.reserved[j]
    requires ClientMoves(acts, x) >= p.slots + 9
    ensures n <= |acts| && Reaches(p, s, acts[..n], u)
    ensures x in u.clients && u.clients[x].Granted? && u.clients[x].i <= j
    ensures u.clients[x].i in u.owner && u.owner[u.clients[x].i] == x
  {
    hide Inv, Init, Reaches;
    ReachableInv(p, before, s);
    n, u := Within(p, s, acts, t, x, Grant(j));
  }

  /** Granted or refused, a client gives the mutex back within slots + 9 steps of its own. A client that was refused is
      then where it was when it asked, and asks again. */
  lemma {:induction false} MutexGivenBack(p: Params, before: seq<Action>, s: State, acts: seq<Action>, t: State, x: Id)
    returns (n: nat, u: State)
    requires ValidParams(p) && Reaches(p, Init(p), before, s) && Shaped(p, s) && Reaches(p, s, acts, t)
    requires x in s.clients && x in s.mutex && ClientMoves(acts, x) >= p.slots + 9
    ensures n <= |acts| && Reaches(p, s, acts[..n], u) && x in u.clients && x !in u.mutex
    ensures u.clients[x].Locking? || u.clients[x].Polling?
  {
    hide Inv, Init, Reaches, TakenSlot, PairInv, Same, Partial;
    ReachableInv(p, before, s);
    ClientFacts(p, s, x);
    DistanceBound(p, s, x, Leave);
    n, u := Within(p, s, acts, t, x, Leave);
  }

  /** A client whose pair has been published is connected within 8 steps of its own. */
  lemma {:induction false} ClientConnects(p: Params, before: seq<Action>, s: State, acts: seq<Action>, t: State, x: Id)
    returns (n: nat, u: State)
    requires ValidParams(p) && Reaches(p, Init(p), before, s) && Shaped(p, s) && Reaches(p, s, acts, t)
    requires x in s.clients && Tenant(s.clients[x]) && !Attached(s.clients[x]) && s.rows[s.clients[x].i].created
    requires ClientMoves(acts, x) >= 8
    ensures n <= |acts| && Reaches(p, s, acts[..n], u) && x in u.clients && u.clients[x].Open?
  {
    hide Inv, Init, Reaches;
    ReachableInv(p, before, s);
    DistanceBound(p, s, x, Connect);
    n, u := Within(p, s, acts, t, x, Connect);
  }

  /** A close ends within slots + 9 steps of the client, and at that moment the flag in the client's own row is up. */
  lemma {:induction false} CloseEnds(p: Params, before: seq<Action>, s: State, acts: seq<Action>, t: State, x: Id)
    returns (n: nat, u: State)
    requires ValidParams(p) && Reaches(p, Init(p), before, s) && Shaped(p, s) && Reaches(p, s, acts, t)
    requires x in s.clients && (s.clients[x].Searching? || s.clients[x].Detaching?)
    requires ClientMoves(acts, x) >= p.slots + 9
    ensures n <= |acts| && Reaches(p, s, acts[..n], u) && x in u.clients && u.clients[x].Closed?
    ensures
      var i := u.clients[x].i;
      i in u.owner && u.owner[i] == x && i < |u.rows| && u.rows[i].detach
  {
    hide Inv, Init, Reaches;
    ReachableInv(p, before, s);
    DistanceBound(p, s, x, Close);
    n, u := Within(p, s, acts, t, x, Close);
  }
}
