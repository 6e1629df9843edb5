/** The thread that runs manage_pool and the thread that starts it and shuts it down, one load or store of
    manage_pool_state, or one slot of a pass, at a time. */
module ShutdownHandshake {
  import Cells

  datatype Flag = Unset | RunningNoShutdown | RunningShutdown | NotRunning

  datatype Runner =
    | Unborn
    | Checking                 // reads manage_pool_state
    | Ending                   // saw RUNNING_SHUTDOWN: about to store NOT_RUNNING
    | Leaving                  // nothing left to do but return
    | Starting                 // about to call manage_pool
    | Passing(i: nat)          // in manage_pool, at slot i
    | Sleeping
    | Exited

  datatype Caller =
    | Registering              // register_server: about to store RUNNING_NO_SHUTDOWN
    | Creating                 // about to create the thread
    | Serving
    | Locking | Signalling | Unlocking                     // shutdown: the signal, under the mutex
    | WaitLock | Reading | WaitUnlock                      // shutdown: one look at the state
    | FoundUnlock | Joining                                // NOT_RUNNING was seen
    | Detaching(i: nat)        // coord_shutdown, at row i
    | LastPass(i: nat)         // the final manage_pool, at slot i
    | Deleting | Freeing | Done

  /** What the thread that shuts down does to the coordination region. */
  datatype Work = Detach(i: nat) | Iterate(i: nat) | Delete | Free

  datatype State = State(
    flag: Flag,
    runner: Runner,
    caller: Caller,
    // history
    signalled: bool,           // RUNNING_SHUTDOWN has been stored
    passesAfter: nat,          // passes the runner started after that
    work: seq<Work>,           // done by the caller so far
    visits: seq<nat>)          // slots the runner has serviced

  datatype Thread = RunnerThread | CallerThread

  const BEFORE: State := State(Unset, Unborn, Registering, false, 0, [], [])

  /** The caller has read NOT_RUNNING. */
  predicate Seen(c: Caller) {
    c.FoundUnlock? || c.Joining? || c.Detaching? || c.LastPass? || c.Deleting? || c.Freeing? || c.Done?
  }

  predicate Enabled(s: State, t: Thread) {
    match t
    case RunnerThread => !s.runner.Unborn? && !s.runner.Exited?
    case CallerThread => !s.caller.Done? && (s.caller.Joining? ==> s.runner.Exited?)
  }

  /** The step reads or writes the coordination region or the context. */
  predicate Touches(s: State, t: Thread) {
    match t
    case RunnerThread => s.runner.Checking? || s.runner.Ending? || s.runner.Starting? || s.runner.Passing?
    case CallerThread => !s.caller.Joining? && !s.caller.Done?
  }

  function RunnerStep(slots: nat, s: State): (s': State) {
    match s.runner
    case Checking => s.(runner := if s.flag == RunningShutdown then Ending else Starting)
    case Ending => s.(flag := NotRunning, runner := Leaving)
    case Starting => s.(runner := Passing(0), passesAfter := if s.signalled then s.passesAfter + 1 else s.passesAfter)
    case Passing(i) => s.(visits := s.visits + [i], runner := if i + 1 < slots then Passing(i + 1) else Sleeping)
    case Sleeping => s.(runner := Checking)
    case Leaving => s.(runner := Exited)
    case _ => s
  }

  function CallerStep(slots: nat, s: State): (s': State) {
    match s.caller
    case Registering => s.(flag := RunningNoShutdown, caller := Creating)
    case Creating => s.(runner := Checking, caller := Serving)
    case Serving => s.(caller := Locking)
    case Locking => s.(caller := Signalling)
    case Signalling => s.(flag := RunningShutdown, signalled := true, caller := Unlocking)
    case Unlocking => s.(caller := WaitLock)
    case WaitLock => s.(caller := Reading)
    case Reading => s.(caller := if s.flag == NotRunning then FoundUnlock else WaitUnlock)
    case WaitUnlock => s.(caller := WaitLock)
    case FoundUnlock => s.(caller := Joining)
    case Joining => s.(caller := Detaching(0))
    case Detaching(i) =>
      s.(work := s.work + [Detach(i)], caller := if i + 1 < slots then Detaching(i + 1) else LastPass(0))
    case LastPass(i) =>
      s.(work := s.work + [Iterate(i)], caller := if i + 1 < slots then LastPass(i + 1) else Deleting)
    case Deleting => s.(work := s.work + [Delete], caller := Freeing)
    case Freeing => s.(work := s.work + [Free], caller := Done)
    case Done => s
  }

  function Step(slots: nat, s: State, t: Thread): (s': State) {
    match t
    case RunnerThread => RunnerStep(slots, s)
    case CallerThread => CallerStep(slots, s)
  }

  predicate Reaches(slots: nat, s: State, run: seq<Thread>, s': State)
    decreases |run|
  {
    if run == [] then s == s'
    else Enabled(s, run[0]) && Reaches(slots, Step(slots, s, run[0]), run[1..], s')
  }

  predicate BeforeSignal(c: Caller) {
    c.Registering? || c.Creating? || c.Serving? || c.Locking? || c.Signalling?
  }

  /** The state says what both threads have done, and the runner cannot miss the signal. */
  predicate Inv(s: State) {
    && (s.signalled <==> !BeforeSignal(s.caller))
    && (s.runner.Unborn? <==> s.caller.Registering? || s.caller.Creating?)
    && (s.caller.Registering? ==> s.flag == Unset)
    && (!s.caller.Registering? && !s.signalled ==> s.flag == RunningNoShutdown)
    && (s.signalled ==> s.flag == (if s.runner.Leaving? || s.runner.Exited? then NotRunning else RunningShutdown))
    && (s.runner.Ending? || s.runner.Leaving? || s.runner.Exited? ==> s.signalled)
    && (Seen(s.caller) ==> s.flag == NotRunning)
    && (!s.signalled || s.runner.Starting? ==> s.passesAfter == 0)
    && s.passesAfter <= 1
    && (Alone(s.caller) ==> s.runner.Exited?)
  }

  /** The caller has joined the runner. */
  predicate Alone(c: Caller) {
    c.Detaching? || c.LastPass? || c.Deleting? || c.Freeing? || c.Done?
  }

  lemma {:induction false} StepInv(slots: nat, s: State, t: Thread)
    requires Inv(s) && Enabled(s, t)
    ensures Inv(Step(slots, s, t))
  {
  }

  lemma {:induction false} RunInv(slots: nat, s: State, run: seq<Thread>, s': State)
    requires Inv(s) && Reaches(slots, s, run, s')
    ensures Inv(s')
    decreases |run|
  {
    hide Inv;
    if run != [] {
      StepInv(slots, s, run[0]);
      RunInv(slots, Step(slots, s, run[0]), run[1..], s');
    }
  }

  lemma {:induction false} ReachableInv(slots: nat, run: seq<Thread>, s: State)
    requires Reaches(slots, BEFORE, run, s)
    ensures Inv(s)
  {
    RunInv(slots, BEFORE, run, s);
  }

  /** In every interleaving: two passes never overlap, the runner starts at most one pass after the signal,
      and once NOT_RUNNING has been seen it touches neither the region nor the context again. */
  lemma {:induction false} HandshakeSafe(slots: nat, run: seq<Thread>, s: State)
    requires Reaches(slots, BEFORE, run, s)
    ensures !(s.runner.Passing? && s.caller.LastPass?)
    ensures s.passesAfter <= 1
    ensures Seen(s.caller) && Enabled(s, RunnerThread) ==> !Touches(s, RunnerThread)
    ensures Alone(s.caller) ==> s.runner.Exited?
  {
    ReachableInv(slots, run, s);
  }

  /** After NOT_RUNNING has been seen, no run contains a runner step that touches anything. */
  lemma {:induction false} RunnerKeepsOut(slots: nat, s: State, run: seq<Thread>, s': State)
    requires Inv(s) && Seen(s.caller) && Reaches(slots, s, run, s')
    ensures Seen(s'.caller) && (Enabled(s', RunnerThread) ==> !Touches(s', RunnerThread))
    ensures s'.flag == NotRunning && s'.passesAfter == s.passesAfter
    decreases |run|
  {
    if run != [] {
      StepInv(slots, s, run[0]);
      RunnerKeepsOut(slots, Step(slots, s, run[0]), run[1..], s');
    }
  }

  /** The signal is not lost: it stays until the runner answers it, and the answer stays. */
  lemma {:induction false} SignalStays(slots: nat, s: State, run: seq<Thread>, s': State)
    requires Inv(s) && s.signalled && Reaches(slots, s, run, s')
    ensures s'.signalled
    ensures s'.flag == RunningShutdown || (s'.flag == NotRunning && (s'.runner.Leaving? || s'.runner.Exited?))
    ensures s.flag == NotRunning ==> s'.flag == NotRunning
    decreases |run|
  {
    if run != [] {
      StepInv(slots, s, run[0]);
      SignalStays(slots, Step(slots, s, run[0]), run[1..], s');
    }
  }

  // ---------------------------------------------------------------------------------------
  // The answer comes
  // ---------------------------------------------------------------------------------------

  /** Steps the runner can still take once the signal is there. */
  function Left(slots: nat, r: Runner): (n: nat) {
    match r
    case Unborn => 0
    case Starting => slots + 6
    case Passing(i) => if i < slots then slots - i + 4 else 5
    case Sleeping => 4
    case Checking => 3
    case Ending => 2
    case Leaving => 1
    case Exited => 0
  }

  function RunnerSteps(run: seq<Thread>): (n: nat)
    decreases |run|
  {
    if run == [] then 0 else (if run[0] == RunnerThread then 1 else 0) + RunnerSteps(run[1..])
  }

  /** From the signal on, the runner takes at most slots + 6 steps before it has exited; as long as it has
      not, it can take one. So shutdown waits for a bounded number of the runner's steps. */
  lemma {:induction false} RunnerAnswers(slots: nat, s: State, run: seq<Thread>, s': State)
    requires Inv(s) && s.signalled && Reaches(slots, s, run, s')
    ensures RunnerSteps(run) + Left(slots, s'.runner) <= Left(slots, s.runner) <= slots + 6
    ensures s'.runner.Exited? || Enabled(s', RunnerThread)
    ensures s'.runner.Exited? ==> s'.flag == NotRunning
    decreases |run|
  {
    if run == [] {
    } else {
      var t := Step(slots, s, run[0]);
      StepInv(slots, s, run[0]);
      RunnerAnswers(slots, t, run[1..], s');
      LeftDrops(slots, s, run[0]);
    }
  }

  lemma {:induction false} LeftDrops(slots: nat, s: State, t: Thread)
    requires Inv(s) && s.signalled && Enabled(s, t)
    ensures Left(slots, Step(slots, s, t).runner) + (if t == RunnerThread then 1 else 0)
         <= Left(slots, s.runner) <= slots + 6
  {
  }

  // ---------------------------------------------------------------------------------------
  // The work is done
  // ---------------------------------------------------------------------------------------

  /** The first n rows detached, one after the other. */
  function Detaches(n: nat): (work: seq<Work>)
    ensures |work| == n && forall k: nat :: k < n ==> work[k] == Detach(k)
  {
    if n == 0 then [] else Detaches(n - 1) + [Detach(n - 1)]
  }

  /** The first n slots iterated, one after the other. */
  function Iterations(n: nat): (work: seq<Work>)
    ensures |work| == n && forall k: nat :: k < n ==> work[k] == Iterate(k)
  {
    if n == 0 then [] else Iterations(n - 1) + [Iterate(n - 1)]
  }

  /** What the caller has done, by where it is. */
  predicate WorkInv(slots: nat, s: State) {
    match s.caller
    case Detaching(i) => i < slots && s.work == Detaches(i)
    case LastPass(i) => i < slots && s.work == Detaches(slots) + Iterations(i)
    case Deleting => s.work == Detaches(slots) + Iterations(slots)
    case Freeing => s.work == Detaches(slots) + Iterations(slots) + [Delete]
    case Done => s.work == Detaches(slots) + Iterations(slots) + [Delete] + [Free]
    case _ => s.work == []
  }

  lemma {:induction false} WorkStep(slots: nat, s: State, t: Thread)
    requires slots >= 1 && WorkInv(slots, s) && Enabled(s, t)
    ensures WorkInv(slots, Step(slots, s, t))
  {
    hide Detaches, Iterations;
    More(slots, if s.caller.Detaching? || s.caller.LastPass? then s.caller.i else 0);
  }

  lemma {:induction false} More(slots: nat, i: nat)
    ensures Detaches(0) == [] && Detaches(slots) + Iterations(0) == Detaches(slots)
    ensures Detaches(i) + [Detach(i)] == Detaches(i + 1)
    ensures Detaches(slots) + Iterations(i) + [Iterate(i)] == Detaches(slots) + Iterations(i + 1)
  {
  }

  lemma {:induction false} WorkRun(slots: nat, s: State, run: seq<Thread>, s': State)
    requires slots >= 1 && WorkInv(slots, s) && Reaches(slots, s, run, s')
    ensures WorkInv(slots, s')
    decreases |run|
  {
    hide WorkInv, Step;
    if run != [] {
      WorkStep(slots, s, run[0]);
      WorkRun(slots, Step(slots, s, run[0]), run[1..], s');
    }
  }

  /** The runner goes through the slots in order, from the first to the last, pass after pass. */
  ghost predicate VisitInv(slots: nat, s: State)
    requires slots >= 1
  {
    && (forall k: nat :: k < |s.visits| ==> s.visits[k] == k % slots)
    && (if s.runner.Passing? then s.runner.i == |s.visits| % slots else |s.visits| % slots == 0)
  }

  lemma {:induction false} VisitStep(slots: nat, s: State, t: Thread)
    requires slots >= 1 && Inv(s) && VisitInv(slots, s) && Enabled(s, t)
    ensures VisitInv(slots, Step(slots, s, t))
  {
    if t == RunnerThread && s.runner.Passing? {
      Cells.ModStep(|s.visits|, slots);
    }
  }

  lemma {:induction false} VisitRun(slots: nat, s: State, run: seq<Thread>, s': State)
    requires slots >= 1 && Inv(s) && VisitInv(slots, s) && Reaches(slots, s, run, s')
    ensures VisitInv(slots, s')
    decreases |run|
  {
    hide Inv, VisitInv, Step;
    if run != [] {
      StepInv(slots, s, run[0]);
      VisitStep(slots, s, run[0]);
      VisitRun(slots, Step(slots, s, run[0]), run[1..], s');
    }
  }

  /** In every run the runner services slot after slot, from the first on, and ends a pass only after the last. */
  lemma {:induction false} WholePasses(slots: nat, run: seq<Thread>, s: State)
    requires slots >= 1 && Reaches(slots, BEFORE, run, s)
    ensures forall k: nat :: k < |s.visits| ==> s.visits[k] == k % slots
    ensures s.runner.Sleeping? || s.runner.Checking? || s.runner.Exited? ==> |s.visits| % slots == 0
  {
    hide Reaches;
    VisitRun(slots, BEFORE, run, s);
  }

  /** How far the runner is in its cycle of slots + 3 steps, and how many slots of the pass it has serviced. */
  function InCycle(slots: nat, r: Runner): (n: nat) {
    match r
    case Starting => 1
    case Passing(i) => 2 + i
    case Sleeping => slots + 2
    case _ => 0
  }

  function InPass(slots: nat, r: Runner): (n: nat) {
    match r
    case Passing(i) => i
    case Sleeping => slots
    case _ => 0
  }

  lemma {:induction false} Cycles(slots: nat, s: State, run: seq<Thread>, s': State) returns (c: nat)
    requires slots >= 1 && Inv(s) && VisitInv(slots, s) && !s.runner.Unborn?
    requires Reaches(slots, s, run, s') && !s'.signalled
    ensures RunnerSteps(run) == c * (slots + 3) + InCycle(slots, s'.runner) - InCycle(slots, s.runner)
    ensures |s'.visits| == |s.visits| + c * slots + InPass(slots, s'.runner) - InPass(slots, s.runner)
    ensures s'.runner.Passing? ==> s'.runner.i < slots
    decreases |run|
  {
    if run == [] {
      c := 0;
    } else {
      var u := Step(slots, s, run[0]);
      StepInv(slots, s, run[0]);
      VisitStep(slots, s, run[0]);
      Unsignalled(slots, u, run[1..], s');
      c := Cycles(slots, u, run[1..], s');
      if run[0] == RunnerThread && s.runner.Sleeping? {
        c := c + 1;
      }
    }
  }

  lemma {:induction false} Unsignalled(slots: nat, s: State, run: seq<Thread>, s': State)
    requires Reaches(slots, s, run, s') && !s'.signalled
    ensures !s.signalled
    decreases |run|
  {
    if run != [] {
      Unsignalled(slots, Step(slots, s, run[0]), run[1..], s');
    }
  }

  /** Until it is told to stop the runner goes on servicing: in slots + 3 of its steps it comes to every slot. */
  lemma {:induction false} RunnerServes(slots: nat, before: seq<Thread>, s: State, run: seq<Thread>, s': State)
    requires slots >= 1 && Reaches(slots, BEFORE, before, s) && !s.runner.Unborn?
    requires Reaches(slots, s, run, s') && !s'.signalled && RunnerSteps(run) >= slots + 3
    ensures |s'.visits| >= |s.visits| + slots
  {
    hide Inv, Reaches, VisitInv;
    ReachableInv(slots, before, s);
    VisitsFromStart(slots, before, s);
    var c := Cycles(slots, s, run, s');
    if c >= 2 {
      assert c * slots >= 2 * slots;
    }
  }

  lemma {:induction false} VisitsFromStart(slots: nat, run: seq<Thread>, s: State)
    requires slots >= 1 && Reaches(slots, BEFORE, run, s)
    ensures VisitInv(slots, s)
  {
    VisitRun(slots, BEFORE, run, s);
  }

  /** In every interleaving: the caller touches no slot before it has joined the runner. When it comes to delete the
      region it has detached every row once, in order, and after that iterated every slot once, in order; when it is
      done it has also deleted the region and then freed the context, and nothing more. */
  lemma {:induction false} WorkDone(slots: nat, run: seq<Thread>, s: State)
    requires slots >= 1 && Reaches(slots, BEFORE, run, s)
    ensures s.work != [] ==> s.runner.Exited?
    ensures s.caller.Deleting? || s.caller.Freeing? || s.caller.Done? ==>
      && |s.work| == 2 * slots + (if s.caller.Deleting? then 0 else if s.caller.Freeing? then 1 else 2)
      && (s.caller.Freeing? ==> s.work[2 * slots..] == [Delete])
      && (s.caller.Done? ==> s.work[2 * slots..] == [Delete, Free])
      && (forall k: nat :: k < slots ==> s.work[k] == Detach(k) && s.work[slots + k] == Iterate(k))
  {
    ReachableInv(slots, run, s);
    WorkFromStart(slots, run, s);
  }

  // ---------------------------------------------------------------------------------------
  // shutdown ends
  // ---------------------------------------------------------------------------------------

  /** Steps the caller can still take once the runner has answered. */
  function CallerLeft(slots: nat, c: Caller): (n: nat) {
    match c
    case Unlocking => 2 * slots + 8
    case WaitUnlock => 2 * slots + 8
    case WaitLock => 2 * slots + 7
    case Reading => 2 * slots + 6
    case FoundUnlock => 2 * slots + 5
    case Joining => 2 * slots + 4
    case Detaching(i) => if i < slots then slots - i + slots + 3 else 0
    case LastPass(i) => if i < slots then slots - i + 3 else 0
    case Deleting => 2
    case Freeing => 1
    case _ => 0
  }

  function CallerSteps(run: seq<Thread>): (n: nat)
    decreases |run|
  {
    if run == [] then 0 else (if run[0] == CallerThread then 1 else 0) + CallerSteps(run[1..])
  }

  lemma {:induction false} CallerDrops(slots: nat, s: State, t: Thread)
    requires slots >= 1 && Inv(s) && WorkInv(slots, s) && s.runner.Exited? && Enabled(s, t)
    ensures Step(slots, s, t).runner.Exited?
    ensures CallerLeft(slots, Step(slots, s, t).caller) + (if t == CallerThread then 1 else 0)
         <= CallerLeft(slots, s.caller) <= 2 * slots + 8
  {
    hide Detaches, Iterations;
  }

  lemma {:induction false} EndsFrom(slots: nat, s: State, run: seq<Thread>, s': State)
    requires slots >= 1 && Inv(s) && WorkInv(slots, s) && s.runner.Exited? && Reaches(slots, s, run, s')
    ensures CallerSteps(run) + CallerLeft(slots, s'.caller) <= CallerLeft(slots, s.caller) <= 2 * slots + 8
    ensures s'.caller.Done? || Enabled(s', CallerThread)
    ensures CallerLeft(slots, s'.caller) == 0 <==> s'.caller.Done?
    ensures CallerSteps(run) >= 2 * slots + 8 ==> s'.caller.Done?
    decreases |run|
  {
    hide Detaches, Iterations, Step, WorkInv, Inv;
    if run == [] {
      AtEnd(slots, s);
    } else {
      StepInv(slots, s, run[0]);
      WorkStep(slots, s, run[0]);
      CallerDrops(slots, s, run[0]);
      EndsFrom(slots, Step(slots, s, run[0]), run[1..], s');
      AtEnd(slots, Step(slots, s, run[0]));
    }
  }

  lemma {:induction false} AtEnd(slots: nat, s: State)
    requires slots >= 1 && Inv(s) && WorkInv(slots, s) && s.runner.Exited?
    ensures CallerLeft(slots, s.caller) <= 2 * slots + 8
    ensures CallerLeft(slots, s.caller) == 0 <==> s.caller.Done?
    ensures s.caller.Done? || Enabled(s, CallerThread)
  {
    hide Detaches, Iterations;
  }

  /** Once the runner has exited, the caller can always take a step until shutdown has returned, and it returns within
      2 * slots + 8 of them: from then on the runner has no part in it. */
  lemma {:induction false} ShutdownEnds(slots: nat, before: seq<Thread>, s: State, run: seq<Thread>, s': State)
    requires slots >= 1 && Reaches(slots, BEFORE, before, s) && s.runner.Exited? && Reaches(slots, s, run, s')
    ensures s'.caller.Done? || Enabled(s', CallerThread)
    ensures CallerSteps(run) <= 2 * slots + 8
    ensures CallerSteps(run) == 2 * slots + 8 ==> s'.caller.Done?
  {
    hide Inv, WorkInv, Reaches;
    ReachableInv(slots, before, s);
    WorkFromStart(slots, before, s);
    EndsFrom(slots, s, run, s');
  }

  lemma {:induction false} WorkFromStart(slots: nat, run: seq<Thread>, s: State)
    requires slots >= 1 && Reaches(slots, BEFORE, run, s)
    ensures WorkInv(slots, s)
  {
    WorkRun(slots, BEFORE, run, s);
  }
}
