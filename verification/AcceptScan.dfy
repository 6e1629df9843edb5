/** What accept finds while it looks for a slot under the mutex, and which slot it picks. */
module AcceptScan {
  import opened Slots
  import opened SlotProtocol
  import opened SlotInvariant
  import opened SlotTheorems
  import opened AcceptInvariant
  import CoordOps

  /** accept is looking for a slot, or has just picked one, or none. */
  predicate Looking(pc: Acceptor) {
    pc.LookDetach? || pc.LookReserved? || pc.LookCreated? || pc.GivingUp? || pc.Advancing?
  }

  predicate AtTest(pc: Acceptor) {
    pc.LookDetach? || pc.LookReserved? || pc.LookCreated?
  }

  /** The slot accept looks at passes the test it is at: it is not detached, it is reserved, it has a pair. */
  predicate Passes(s: State)
    requires AtTest(s.accept.pc) && s.accept.pc.i < |s.rows| == |s.reserved|
  {
    var pc := s.accept.pc;
    if pc.LookDetach? then !s.rows[pc.i].detach
    else if pc.LookReserved? then s.reserved[pc.i]
    else s.rows[pc.i].created
  }

  /** The tests made in a run, one after the other, and whether they were passed. */
  ghost function Tests(p: Params, s: State, acts: seq<Action>): (passed: seq<bool>)
    decreases |acts|
  {
    if acts == [] || !Shaped(p, s) || !Enabled(p, s, acts[0]) then []
    else
      (if acts[0].AcceptMove? && AtTest(s.accept.pc) then [Passes(s)] else [])
      + Tests(p, Step(p, s, acts[0]), acts[1..])
  }

  /** accept is looking in every state of the run. */
  ghost predicate KeepsLooking(p: Params, s: State, acts: seq<Action>)
    decreases |acts|
  {
    && Looking(s.accept.pc)
    && (acts != [] && Shaped(p, s) && Enabled(p, s, acts[0]) ==> KeepsLooking(p, Step(p, s, acts[0]), acts[1..]))
  }

  /** The slots turned down so far, each by the one test it failed. */
  function Rejected(passed: seq<bool>): (n: nat) {
    if passed == [] then 0
    else Rejected(passed[..|passed| - 1]) + if passed[|passed| - 1] then 0 else 1
  }

  /** The tests passed since the last slot was turned down. */
  function InARow(passed: seq<bool>): (n: nat) {
    if passed == [] || !passed[|passed| - 1] then 0 else InARow(passed[..|passed| - 1]) + 1
  }

  lemma {:induction false} OneMore(passed: seq<bool>, b: bool)
    ensures Rejected(passed + [b]) == Rejected(passed) + if b then 0 else 1
    ensures InARow(passed + [b]) == if b then InARow(passed) + 1 else 0
  {
    assert (passed + [b])[..|passed|] == passed;
  }

  /** The slot n places on from `at`, going round. */
  function On(at: nat, n: nat, slots: nat): (i: nat)
    requires at < slots
    ensures i < slots
    decreases n
  {
    if n == 0 then at else CoordOps.NextSlot(On(at, n - 1, slots), slots)
  }

  /** What the position of accept says about its tests. */
  predicate Searched(pc: Acceptor, passed: seq<bool>, at: nat, slots: nat)
    requires at < slots
  {
    var r, k := Rejected(passed), InARow(passed);
    && (AtTest(pc) ==> r < slots && pc.left == slots - r && pc.i == On(at, r, slots))
    && (pc.LookDetach? ==> k == 0) && (pc.LookReserved? ==> k == 1) && (pc.LookCreated? ==> k == 2)
    && (pc.Advancing? ==> r < slots && k == 3 && pc.i == On(at, r, slots))
    && (pc.GivingUp? ==> r == slots && k == 0)
  }

  lemma {:induction false} SearchStep(p: Params, s: State, passed: seq<bool>, at: nat)
    requires Shaped(p, s) && at < p.slots && Looking(s.accept.pc) && Searched(s.accept.pc, passed, at, p.slots)
    ensures
      var pc' := AcceptStep(p, s).accept.pc;
      Looking(pc') ==>
        Searched(pc', passed + (if AtTest(s.accept.pc) then [Passes(s)] else []), at, p.slots)
  {
    hide CoordOps.NextSlot;
    if AtTest(s.accept.pc) {
      OneMore(passed, Passes(s));
    }
  }

  lemma {:induction false} SearchRun(p: Params, s: State, acts: seq<Action>, t: State, passed: seq<bool>, at: nat)
    requires AcceptInv(p, s) && Reaches(p, s, acts, t) && KeepsLooking(p, s, acts) && at < p.slots
    requires Searched(s.accept.pc, passed, at, p.slots)
    ensures Looking(t.accept.pc) && Searched(t.accept.pc, passed + Tests(p, s, acts), at, p.slots)
    decreases |acts|
  {
    hide AcceptInv, Inv, ClientStep, ManagerStep, AcceptStep, Searched;
    if acts == [] {
      assert passed + Tests(p, s, acts) == passed;
    } else {
      var a, s' := acts[0], Step(p, s, acts[0]);
      var more := if a.AcceptMove? && AtTest(s.accept.pc) then [Passes(s)] else [];
      StepAccept(p, s, a);
      if a.AcceptMove? {
        SearchStep(p, s, passed, at);
      } else {
        if a.ClientMove? {
          ClientFrames(p, s, a.x);
        } else if a.ManagerMove? {
          ManagerFrames(p, s);
        }
        assert passed + more == passed;
      }
      SearchRun(p, s', acts[1..], t, passed + more, at);
      assert (passed + more) + Tests(p, s', acts[1..]) == passed + Tests(p, s, acts);
    }
  }

  /** From the moment it has the mutex accept looks at the slots in turn, from accept_slot on. It picks a slot if and
      only if that slot has passed all three tests, one after the other, and every slot before it has failed one; it
      comes back with nothing if and only if every slot has failed one. */
  lemma {:induction false} PicksExactly(p: Params, before: seq<Action>, s: State, acts: seq<Action>, t: State)
    requires ValidParams(p) && Reaches(p, Init(p), before, s) && Reaches(p, s, acts, t)
    requires s.accept.pc.LookDetach? && s.accept.pc.left == p.slots && KeepsLooking(p, s, acts)
    ensures s.accept.pc.i < p.slots
    ensures
      var pc, passed := t.accept.pc, Tests(p, s, acts);
      && (pc.Advancing? <==> InARow(passed) == 3)
      && (pc.Advancing? ==> Rejected(passed) < p.slots && pc.i == On(s.accept.pc.i, Rejected(passed), p.slots))
      && (pc.GivingUp? <==> Rejected(passed) == p.slots)
  {
    hide Init, Reaches, KeepsLooking, Tests, AcceptOk, RowKnown;
    ReachableAccept(p, before, s);
    hide AcceptInv, Inv;
    SearchRun(p, s, acts, t, [], s.accept.pc.i);
    assert [] + Tests(p, s, acts) == Tests(p, s, acts);
  }
}
