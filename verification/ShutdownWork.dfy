/** What the thread that shuts down has done to the pool by the time it deletes the coordination region. */
module ShutdownWork {
  import opened Slots
  import opened CoordOps
  import opened KernelObjects
  import opened Resources
  import H = ShutdownHandshake

  /** The pool after a piece of work of the caller. */
  function Do(g: Pool, w: H.Work): (r: Pool)
    requires |g.rows| == |g.reserved| && Fits(w, |g.rows|)
    ensures |r.rows| == |r.reserved| == |g.rows|
  {
    match w
    case Detach(i) => g.(rows := g.rows[i := g.rows[i].(detach := true)])
    case Iterate(i) => Iterate(g, i)
    case _ => g
  }

  predicate Fits(w: H.Work, slots: nat) {
    w.Detach? || w.Iterate? ==> w.i < slots
  }

  predicate Within(work: seq<H.Work>, slots: nat) {
    forall k :: 0 <= k < |work| ==> Fits(work[k], slots)
  }

  function DoAll(g: Pool, work: seq<H.Work>): (r: Pool)
    requires |g.rows| == |g.reserved| && Within(work, |g.rows|)
    ensures |r.rows| == |r.reserved| == |g.rows|
    decreases |work|
  {
    if work == [] then g else DoAll(Do(g, work[0]), work[1..])
  }

  /** The rows from i on detached one after the other. */
  lemma {:induction false} DetachesRest(g: Pool, work: seq<H.Work>, i: nat)
    requires |g.rows| == |g.reserved| && i <= |g.rows| && |work| == 2 * |g.rows| - i && Within(work, |g.rows|)
    requires forall k: nat :: i <= k < |g.rows| ==> work[k - i] == H.Detach(k)
    requires forall k: nat :: k < |g.rows| ==> work[|g.rows| - i + k] == H.Iterate(k)
    requires forall k: nat :: k < i ==> g.rows[k].detach
    ensures DoAll(g, work) == Passed(DetachAll(g), 0)
    decreases |g.rows| - i
  {
    hide Iterate, Passed;
    if i == |g.rows| {
      assert DetachAll(g).rows == g.rows;
      IteratesRest(g, work, 0);
    } else {
      var g' := Do(g, work[0]);
      assert work[0] == H.Detach(i);
      assert DetachAll(g').rows == DetachAll(g).rows;
      DetachesRest(g', work[1..], i + 1);
    }
  }

  /** The slots from i on iterated one after the other: that is manage_pool from slot i on. */
  lemma {:induction false} IteratesRest(g: Pool, work: seq<H.Work>, i: nat)
    requires |g.rows| == |g.reserved| && i <= |g.rows| && |work| == |g.rows| - i && Within(work, |g.rows|)
    requires forall k: nat :: i <= k < |g.rows| ==> work[k - i] == H.Iterate(k)
    ensures DoAll(g, work) == Passed(g, i)
    decreases |g.rows| - i
  {
    hide Iterate;
    if i < |g.rows| {
      assert work[0] == H.Iterate(i);
      IteratesRest(Iterate(g, i), work[1..], i + 1);
    }
  }

  /** In every interleaving of runner and caller, whatever pool in order the runner left behind: by the time the caller
      deletes the region it has done exactly what coord_shutdown and one pass of manage_pool do, all after the join, so
      that every slot is free and blank and nothing is live but the semaphores orphaned before. */
  lemma {:induction false} ShutdownClears(p: Params, run: seq<H.Thread>, s: H.State, g: Pool)
    requires PoolOk(p, g) && H.Reaches(p.slots, H.BEFORE, run, s)
    requires s.caller.Deleting?
    ensures s.runner.Exited? && Within(s.work, |g.rows|)
    ensures DoAll(g, s.work) == Passed(DetachAll(g), 0)
    ensures PoolOk(p, DoAll(g, s.work)) && Cleared(DoAll(g, s.work), Orphans(g.kernel))
  {
    hide TableOk, KernelOk, Cleared, Orphans, Passed, H.Reaches, DoAll;
    H.WorkDone(p.slots, run, s);
    forall k: nat | k < |s.work|
      ensures Fits(s.work[k], p.slots)
    {
      if k >= p.slots {
        assert s.work[p.slots + (k - p.slots)] == H.Iterate(k - p.slots);
      }
    }
    DetachesRest(g, s.work, 0);
    LastPassClears(p, g);
  }
}
