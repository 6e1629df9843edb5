/** Segments and semaphores over whole runs. manage_pool tests the detach flag of a slot twice in one iteration: when it
    cleans up the semaphores, and again when it clears the slot. Here the two parts are two steps, and whatever
    clients and accept do may come between them. */
module ResourceRuns {
  import opened Slots
  import opened CoordOps
  import opened KernelObjects
  import opened Resources

  /** The manager is between two iterations, or half through one: it has serviced slot i and tested its detach flag a
      first time; `swept` if the flag was up. */
  datatype Phase = Between | Half(i: nat, swept: bool)

  datatype State = State(pool: Pool, phase: Phase)

  /** What clients, manager and accepting thread do to the pool. A call of accept that is under way is its two stores,
      of accept_slot and of its flag: they may come at any moment, and the flag may go up in any row. */
  datatype Action =
    | Request(x: Id) | Attach(i: nat) | CloseCall(x: Id)
    | Serve(i: nat)             // service_slot and clean_up_queue_resources
    | Clear                     // clear_slot
    | AcceptSlot(n: nat) | AcceptFlag(i: nat)

  predicate Shaped(p: Params, s: State) {
    Sized(s.pool, p.slots) && (s.phase.Half? ==> s.phase.i < p.slots)
  }

  /** A client asks for a slot only while no slot is reserved in its name. */
  predicate Enabled(p: Params, s: State, a: Action)
    requires Shaped(p, s)
  {
    match a
    case Request(x) => x in p.want && forall i :: 0 <= i < p.slots && s.pool.reserved[i] ==> s.pool.rows[i].id != x
    case CloseCall(x) => x in p.want
    case Attach(i) => i < p.slots && s.pool.rows[i].created
    case Serve(i) => i < p.slots && s.phase.Between?
    case Clear => s.phase.Half?
    case AcceptSlot(n) => n < p.slots
    case AcceptFlag(i) => i < p.slots
  }

  function Step(p: Params, s: State, a: Action): (s': State)
    requires Shaped(p, s) && Enabled(p, s, a)
  {
    var g := s.pool;
    match a
    case Request(x) => s.(pool := RequestSlot(g, x, p.want[x]).0)
    case CloseCall(x) => s.(pool := Close(g, x).0)
    case Attach(i) => s.(pool := g.(rows := g.rows[i := g.rows[i].(clientAttached := true)]))
    case Serve(i) =>
      var g' := ServiceSlot(g, i, g.rows[i].kind).0;
      State(CleanUp(g', i), Half(i, g'.reserved[i] && g'.rows[i].detach))
    case Clear => State(ClearSlot(g, s.phase.i), Between)
    case AcceptSlot(n) => s.(pool := g.(accept := n))
    case AcceptFlag(i) => s.(pool := g.(rows := g.rows[i := g.rows[i].(serverAttached := true)]))
  }

  function Init(p: Params): (s: State)
    requires p.slots > 0
  {
    State(Cold(p), Between)
  }

  ghost predicate Reaches(p: Params, s: State, acts: seq<Action>, s': State)
    decreases |acts|
  {
    if acts == [] then s == s'
    else
      && Shaped(p, s) && Enabled(p, s, acts[0])
      && Reaches(p, Step(p, s, acts[0]), acts[1..], s')
  }

  // ---------------------------------------------------------------------------------------
  // Invariant
  // ---------------------------------------------------------------------------------------

  /** The segments whose semaphores have been cleaned up already. */
  function Laid(s: State): (r: set<int>) {
    if s.phase.Half? && s.phase.swept && s.phase.i < |s.pool.rows| then Bare(s.pool.rows[s.phase.i]) else {}
  }

  ghost predicate Inv(p: Params, s: State)
    ensures Inv(p, s) ==> ValidParams(p) && Shaped(p, s)
  {
    && TableOk(p, s.pool) && KernelOk(s.pool.kernel, Laid(s))
    && (s.phase.Half? ==>
          var i := s.phase.i;
          i < p.slots && (s.phase.swept ==> s.pool.reserved[i] && s.pool.rows[i].created && s.pool.rows[i].detach))
  }

  /** The slot at which the manager is has been detached since it tested the flag: it will remove the segments and
      leave their semaphores. */
  predicate Struck(s: State) {
    s.phase.Half? && !s.phase.swept && s.phase.i < |s.pool.rows| &&
      var row := s.pool.rows[s.phase.i];
      row.created && row.detach && row.kind == SEM
  }

  /** A close of a connected SEM client that comes between the two tests of its slot. */
  predicate Late(s: State, a: Action) {
    a.CloseCall? && s.phase.Half? && !s.phase.swept && s.phase.i < |s.pool.rows| &&
      var row := s.pool.rows[s.phase.i];
      row.created && !row.detach && row.kind == SEM && row.id == a.x
  }

  /** Orphans there are, and will be because of a late close. */
  ghost function Forfeit(s: State): (n: nat) {
    |Orphans(s.pool.kernel)| + 6 * One(Struck(s))
  }

  lemma {:induction false} InitInv(p: Params)
    requires ValidParams(p)
    ensures Inv(p, Init(p)) && Orphans(Init(p).pool.kernel) == {}
  {
    hide TableOk;
    ColdOk(p);
  }

  lemma {:induction false} ServeInv(p: Params, s: State, i: nat)
    requires Inv(p, s) && s.phase.Between? && i < p.slots
    ensures Inv(p, Step(p, s, Serve(i))) && Forfeit(Step(p, s, Serve(i))) == Forfeit(s)
    ensures Orphans(Step(p, s, Serve(i)).pool.kernel) == Orphans(s.pool.kernel)
  {
    hide TableOk, KernelOk, Orphans, ServiceSlot, DestroyRing;
    ServiceKeeps(p, s.pool, i);
    var g := ServiceSlot(s.pool, i, s.pool.rows[i].kind).0;
    if g.reserved[i] && g.rows[i].detach {
      SweepKeeps(p, g, i);
    } else {
      RowReserved(p, g, i);
    }
  }

  lemma {:induction false} RowReserved(p: Params, g: Pool, i: nat)
    requires TableOk(p, g) && i < p.slots
    ensures g.rows[i].created ==> g.reserved[i]
  {
    hide TableOk;
    if g.rows[i].created {
      CreatedIsReserved(p, g, i);
    }
  }

  lemma {:induction false} ClearInv(p: Params, s: State)
    requires Inv(p, s) && s.phase.Half?
    ensures Inv(p, Step(p, s, Clear)) && Forfeit(Step(p, s, Clear)) == Forfeit(s)
    ensures Orphans(s.pool.kernel) <= Orphans(Step(p, s, Clear).pool.kernel)
  {
    hide TableOk, KernelOk, Orphans, ClearSlot;
    if s.phase.swept {
      SweptKeeps(p, s.pool, s.phase.i);
    } else {
      UnsweptKeeps(p, s.pool, s.phase.i);
    }
  }

  lemma {:induction false} CloseInv(p: Params, s: State, x: Id)
    requires Inv(p, s) && x in p.want
    ensures Inv(p, Step(p, s, CloseCall(x)))
    ensures Forfeit(Step(p, s, CloseCall(x))) == Forfeit(s) + 6 * One(Late(s, CloseCall(x)))
  {
    hide TableOk, KernelOk, Orphans;
    CloseKeeps(p, s.pool, x);
    if s.phase.Half? {
      RowReserved(p, s.pool, s.phase.i);
    }
  }

  lemma {:induction false} RequestInv(p: Params, s: State, x: Id)
    requires Inv(p, s) && Enabled(p, s, Request(x))
    ensures Inv(p, Step(p, s, Request(x))) && Forfeit(Step(p, s, Request(x))) == Forfeit(s)
  {
    hide TableOk, KernelOk, Orphans;
    RequestKeeps(p, s.pool, x);
    if s.phase.Half? {
      RowReserved(p, s.pool, s.phase.i);
    }
  }

  lemma {:induction false} MarkInv(p: Params, s: State, a: Action)
    requires Inv(p, s) && Enabled(p, s, a) && (a.Attach? || a.AcceptSlot? || a.AcceptFlag?)
    ensures Inv(p, Step(p, s, a)) && Forfeit(Step(p, s, a)) == Forfeit(s)
  {
    hide TableOk, KernelOk, Orphans;
    var g := s.pool;
    match a
    case Attach(i) =>
      CreatedIsReserved(p, g, i);
      FlagKeeps(p, g, i, g.rows[i].(clientAttached := true));
    case AcceptFlag(i) => FlagKeeps(p, g, i, g.rows[i].(serverAttached := true));
    case AcceptSlot(n) => AcceptMoves(p, g, n);
  }

  lemma {:induction false} AcceptMoves(p: Params, g: Pool, accept: nat)
    requires TableOk(p, g) && accept < p.slots
    ensures TableOk(p, g.(accept := accept))
  {
  }

  /** Every step of clients, manager and accept keeps the tables and the kernel objects in order. A late close forfeits
      six semaphores, and nothing else does. */
  lemma {:induction false} StepInv(p: Params, s: State, a: Action)
    requires Inv(p, s) && Enabled(p, s, a)
    ensures Inv(p, Step(p, s, a)) && Forfeit(Step(p, s, a)) == Forfeit(s) + 6 * One(Late(s, a))
    ensures Orphans(s.pool.kernel) <= Orphans(Step(p, s, a).pool.kernel)
  {
    hide Inv, Orphans, Forfeit, ServiceSlot, CleanUp, ClearSlot, Struck;
    match a
    case Request(x) => RequestInv(p, s, x);
    case CloseCall(x) => CloseInv(p, s, x);
    case Serve(i) => ServeInv(p, s, i);
    case Clear => ClearInv(p, s);
    case _ => MarkInv(p, s, a);
  }

  // ---------------------------------------------------------------------------------------
  // Runs
  // ---------------------------------------------------------------------------------------

  /** The closes in a run that come between the two tests of their slot. */
  ghost function LateCloses(p: Params, s: State, acts: seq<Action>): (n: nat)
    decreases |acts|
  {
    if acts == [] || !Shaped(p, s) || !Enabled(p, s, acts[0]) then 0
    else One(Late(s, acts[0])) + LateCloses(p, Step(p, s, acts[0]), acts[1..])
  }

  /** Six semaphores are forfeited by each late close of the run, and none otherwise; orphans stay orphans. */
  lemma {:induction false} RunForfeits(p: Params, s: State, acts: seq<Action>, u: State)
    requires Inv(p, s) && Reaches(p, s, acts, u)
    ensures Inv(p, u) && Forfeit(u) == Forfeit(s) + 6 * LateCloses(p, s, acts)
    ensures Orphans(s.pool.kernel) <= Orphans(u.pool.kernel)
    decreases |acts|
  {
    hide Inv, Orphans, Forfeit, Step, Late;
    if acts != [] {
      StepInv(p, s, acts[0]);
      RunForfeits(p, Step(p, s, acts[0]), acts[1..], u);
    }
  }

  /** Over every run the live segments are exactly those named by created rows, each ring is of the type and message
      size its client asked for, every object made is either live or has been removed exactly once, and no removal
      ever failed. The live semaphores are those of created SEM rows, as far as they have not been cleaned up, and
      the orphans. Of these there are six for each close that came between the two tests of its slot, less those of a
      slot that is only about to be cleared. */
  lemma {:induction false} ResourcesConserved(p: Params, acts: seq<Action>, s: State)
    requires ValidParams(p) && Reaches(p, Init(p), acts, s)
    ensures Shaped(p, s)
    ensures
      var g, k := s.pool, s.pool.kernel;
      && (forall id :: id in k.live <==> Named(g, id))
      && (forall sem :: sem in k.sems <==> sem in Orphans(k) || SemNamed(g, sem, Laid(s)))
      && (forall sem :: sem in Orphans(k) ==> !SemNamed(g, sem, Laid(s)))
      && |Orphans(k)| == 6 * (LateCloses(p, Init(p), acts) - One(Struck(s)))
      && (forall i :: 0 <= i < p.slots && g.rows[i].created ==>
            && g.reserved[i] && PairOk(k.live, g.rows[i], i)
            && g.rows[i].id in p.want && p.want[g.rows[i].id] == Want(g.rows[i].size, g.rows[i].kind))
      && Conserved(k.live.Keys, k.removed, k.next) && Conserved(k.sems.Keys, k.destroyed, k.nextSem)
      && k.faults == 0
  {
    hide Reaches, Conserved, Orphans, TableOk, Laid;
    InitInv(p);
    RunForfeits(p, Init(p), acts, s);
    Accounted(p, s.pool, Laid(s));
  }

  /** The attach flags of slot i after one more step, by what the step is. */
  function FlagsThen(p: Params, s: State, a: Action, i: nat, flags: (bool, bool)): (r: (bool, bool))
    requires Shaped(p, s) && Enabled(p, s, a)
  {
    match a
    case Request(_) => if FirstFree(s.pool.reserved, 0) == i then (false, false) else flags
    case Clear => if s.phase.i == i && s.pool.rows[i].detach then (false, false) else flags
    case Attach(j) => if j == i then (true, flags.1) else flags
    case AcceptFlag(j) => if j == i then (flags.0, true) else flags
    case _ => flags
  }

  /** Over a whole run: put up by the attachments and by accept, taken down when the slot is requested or cleared. */
  ghost function FlagsAfter(p: Params, s: State, acts: seq<Action>, i: nat, flags: (bool, bool)): (r: (bool, bool))
    decreases |acts|
  {
    if acts == [] || !Shaped(p, s) || !Enabled(p, s, acts[0]) then flags
    else FlagsAfter(p, Step(p, s, acts[0]), acts[1..], i, FlagsThen(p, s, acts[0], i, flags))
  }

  lemma {:induction false} FlagsStep(p: Params, s: State, a: Action, i: nat)
    requires Shaped(p, s) && Enabled(p, s, a) && i < p.slots
    ensures
      var s' := Step(p, s, a);
      && Shaped(p, s') && s'.pool.accept == (if a.AcceptSlot? then a.n else s.pool.accept)
      && (s'.pool.rows[i].clientAttached, s'.pool.rows[i].serverAttached) ==
           FlagsThen(p, s, a, i, (s.pool.rows[i].clientAttached, s.pool.rows[i].serverAttached))
  {
    hide Allocate, DestroyRing, ShmRemove;
  }

  /** The value accept last stored into accept_slot. */
  function LastStored(acts: seq<Action>, n: nat): (r: nat)
    decreases |acts|
  {
    if acts == [] then n else LastStored(acts[1..], if acts[0].AcceptSlot? then acts[0].n else n)
  }

  /** In every run both attach flags of a slot are up if and only if they have been put up since the slot was last
      requested or cleared, and accept_slot is what accept last stored there. */
  lemma {:induction false} FlagsExactly(p: Params, s: State, acts: seq<Action>, u: State, i: nat)
    requires Shaped(p, s) && Reaches(p, s, acts, u) && i < p.slots
    ensures Shaped(p, u)
    ensures (u.pool.rows[i].clientAttached, u.pool.rows[i].serverAttached) ==
      FlagsAfter(p, s, acts, i, (s.pool.rows[i].clientAttached, s.pool.rows[i].serverAttached))
    ensures u.pool.accept == LastStored(acts, s.pool.accept)
    decreases |acts|
  {
    hide Step, Enabled, FlagsThen;
    if acts != [] {
      FlagsStep(p, s, acts[0], i);
      FlagsExactly(p, Step(p, s, acts[0]), acts[1..], u, i);
    }
  }

  /** Between iterations every live semaphore is named by the header of a segment that a created SEM row names if and
      only if no close has come between the two tests of its slot. */
  lemma {:induction false} SemaphoresNamedExactly(p: Params, acts: seq<Action>, s: State)
    requires ValidParams(p) && Reaches(p, Init(p), acts, s) && s.phase.Between?
    ensures Shaped(p, s)
    ensures (forall sem :: sem in s.pool.kernel.sems <==> SemNamed(s.pool, sem, {})) <==>
      LateCloses(p, Init(p), acts) == 0
  {
    hide Reaches, Conserved, Orphans, PairOk, LateCloses, Named;
    ResourcesConserved(p, acts, s);
    if forall sem :: sem in s.pool.kernel.sems <==> SemNamed(s.pool, sem, {}) {
      forall sem
        ensures sem !in Orphans(s.pool.kernel)
      {
        assert SemNamed(s.pool, sem, Laid(s)) <==> SemNamed(s.pool, sem, {});
      }
      assert Orphans(s.pool.kernel) == {};
    }
  }

  /** After the last pass of shutdown, which starts when the runner is gone, every slot is free and blank, no segment is
      live, and the semaphores left are the orphans: six for each late close of the run. Everything else that was
      ever made has been removed exactly once. */
  lemma {:induction false} ShutdownLeavesOrphans(p: Params, acts: seq<Action>, s: State)
    requires ValidParams(p) && Reaches(p, Init(p), acts, s) && s.phase.Between?
    ensures Shaped(p, s)
    ensures Sized(Passed(DetachAll(s.pool), 0), p.slots)
    ensures Cleared(Passed(DetachAll(s.pool), 0), Orphans(s.pool.kernel))
    ensures |Orphans(s.pool.kernel)| == 6 * LateCloses(p, Init(p), acts)
  {
    hide Reaches, TableOk, KernelOk, Passed, Cleared, Orphans;
    InitInv(p);
    RunForfeits(p, Init(p), acts, s);
    LastPassClears(p, s.pool);
  }

  // ---------------------------------------------------------------------------------------
  // Runs with a late close
  // ---------------------------------------------------------------------------------------

  lemma {:induction false} ReachesThen(p: Params, s: State, acts: seq<Action>, u: State, a: Action)
    requires Reaches(p, s, acts, u) && Shaped(p, u) && Enabled(p, u, a)
    ensures Reaches(p, s, acts + [a], Step(p, u, a))
    decreases |acts|
  {
    hide Step, Enabled;
    if acts != [] {
      ReachesThen(p, Step(p, s, acts[0]), acts[1..], u, a);
      assert (acts + [a])[1..] == acts[1..] + [a];
    } else {
      assert [a][1..] == [];
    }
  }

  ghost predicate Reachable(p: Params, s: State) {
    p.slots > 0 && exists acts :: Reaches(p, Init(p), acts, s)
  }

  /** One more step of a run. */
  lemma {:induction false} Then(p: Params, s: State, a: Action) returns (u: State)
    requires Reachable(p, s) && Inv(p, s) && Enabled(p, s, a)
    ensures u == Step(p, s, a) && Reachable(p, u) && Inv(p, u)
    ensures Forfeit(u) == Forfeit(s) + 6 * One(Late(s, a))
  {
    hide Inv, Reaches, Step, Enabled, Forfeit, Late, Init;
    u := Step(p, s, a);
    var acts :| Reaches(p, Init(p), acts, s);
    ReachesThen(p, Init(p), acts, s, a);
    StepInv(p, s, a);
  }

  /** A client is connected in the first slot, and the manager has not yet tested the flag for the second time. */
  lemma {:induction false} Connected(p: Params, x: Id) returns (s: State)
    requires ValidParams(p) && x in p.want
    ensures Reachable(p, s) && Inv(p, s) && s.phase == Half(0, false) && s.pool.rows[0].created
    ensures s.pool.rows[0].id == x && s.pool.rows[0].kind == p.want[x].kind && !s.pool.rows[0].detach
  {
    hide Inv, ServiceSlot, Reachable, Forfeit, ValidParams, DestroyRing;
    InitInv(p);
    assert Reachable(p, Init(p)) by { Start(p); }
    assert FirstFree(Init(p).pool.reserved, 0) == 0;
    s := Then(p, Init(p), Request(x));
    AtRest(p, s);
    ServiceKeeps(p, s.pool, 0);
    s := Then(p, s, Serve(0));
    s := Then(p, s, Attach(0));
  }

  lemma {:induction false} Start(p: Params)
    requires ValidParams(p)
    ensures Reachable(p, Init(p))
  {
    assert Reaches(p, Init(p), [], Init(p));
  }

  lemma {:induction false} AtRest(p: Params, s: State)
    requires Inv(p, s) && s.phase.Between?
    ensures PoolOk(p, s.pool)
  {
    hide TableOk, KernelOk;
  }

  /** The client closes: with the second test its semaphores are orphaned. */
  lemma {:induction false} Orphaned(p: Params, x: Id) returns (s: State)
    requires ValidParams(p) && x in p.want && p.want[x].kind == SEM
    ensures Reachable(p, s) && s.phase.Between? && |Orphans(s.pool.kernel)| >= 6
  {
    hide Inv, Reachable, Orphans, ValidParams;
    s := Connected(p, x);
    assert Late(s, CloseCall(x));
    s := Then(p, s, CloseCall(x));
    hide ClearSlot;
    s := Then(p, s, Clear);
  }

  lemma {:induction false} LateIsSem(p: Params, s: State, acts: seq<Action>)
    requires Inv(p, s) && LateCloses(p, s, acts) > 0
    ensures exists x :: x in p.want && p.want[x].kind == SEM
    decreases |acts|
  {
    hide Inv, Step, Enabled;
    StepInv(p, s, acts[0]);
    if Late(s, acts[0]) {
      LateFacts(p, s, acts[0]);
    } else {
      LateIsSem(p, Step(p, s, acts[0]), acts[1..]);
    }
  }

  lemma {:induction false} LateFacts(p: Params, s: State, a: Action)
    requires Inv(p, s) && Late(s, a)
    ensures a.x in p.want && p.want[a.x].kind == SEM
  {
    hide TableOk, KernelOk, PairOk, KeysApart;
    RowReserved(p, s.pool, s.phase.i);
    TableFacts(p, s.pool, s.phase.i);
  }

  ghost predicate CanOrphan(p: Params) {
    exists s :: Reachable(p, s) && Orphans(s.pool.kernel) != {}
  }

  /** Semaphores can be orphaned if and only if some client asks for SEM. */
  lemma {:induction false} CanOrphanExactly(p: Params)
    requires ValidParams(p)
    ensures CanOrphan(p) <==> exists x :: x in p.want && p.want[x].kind == SEM
  {
    hide Reaches, Orphans, Inv, LateCloses, Named, PairOk, Conserved, ValidParams, Struck, SemNamed;
    if x :| x in p.want && p.want[x].kind == SEM {
      var s := Orphaned(p, x);
      assert Orphans(s.pool.kernel) != {};
    }
    if s :| Reachable(p, s) && Orphans(s.pool.kernel) != {} {
      var acts :| Reaches(p, Init(p), acts, s);
      ResourcesConserved(p, acts, s);
      assert |Orphans(s.pool.kernel)| > 0;
      InitInv(p);
      LateIsSem(p, Init(p), acts);
    }
  }
}
