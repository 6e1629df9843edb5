/** A client that asks for a slot again before its old slot has been given up, which it cannot observe: what goes
    wrong, and exactly when. */
module EarlyReopen {
  import opened Slots
  import opened CoordOps
  import opened KernelObjects
  import opened Resources

  /** A request keeps the rows, the segments and the semaphores in order whoever makes it; what it can spoil is that no
      client has two slots, and it does so if and only if it is granted to a client that has one. */
  lemma {:induction false} RequestExactly(p: Params, g: Pool, x: Id)
    requires PoolOk(p, g) && x in p.want
    ensures
      var g' := RequestSlot(g, x, p.want[x]).0;
      && Sized(g', p.slots) && g'.kernel == g.kernel
      && (forall i :: 0 <= i < p.slots ==> RowOk(p.want, g'.rows[i], g'.reserved[i], g'.kernel.live, i))
      && (forall id :: id in g'.kernel.live ==> HomeOk(g'.rows, g'.reserved, id, g'.kernel.live[id]))
      && (PoolOk(p, g') <==>
            || (forall i :: 0 <= i < p.slots ==> g.reserved[i])
            || (forall i :: 0 <= i < p.slots && g.reserved[i] ==> g.rows[i].id != x))
  {
    hide KernelOk, HomeOk, ValidParams, PairOk;
    var f, g' := FirstFree(g.reserved, 0), RequestSlot(g, x, p.want[x]).0;
    forall id | id in g.kernel.live
      ensures HomeOk(g'.rows, g'.reserved, id, g.kernel.live[id])
    {
      HomeStays(g, g', id, f);
    }
    forall i | 0 <= i < p.slots
      ensures RowOk(p.want, g'.rows[i], g'.reserved[i], g'.kernel.live, i)
    {
      assert RowOk(p.want, g.rows[i], g.reserved[i], g.kernel.live, i);
    }
    if f < p.slots {
      if j :| 0 <= j < p.slots && g.reserved[j] && g.rows[j].id == x {
        assert g'.reserved[j] && g'.reserved[f] && g'.rows[j].id == g'.rows[f].id;
      } else {
        RequestKeeps(p, g, x);
      }
    }
  }

  lemma {:induction false} HomeStays(g: Pool, g': Pool, id: int, f: nat)
    requires |g.rows| == |g.reserved| && f <= |g.rows| && id in g.kernel.live
    requires HomeOk(g.rows, g.reserved, id, g.kernel.live[id]) && (f < |g.rows| ==> !g.reserved[f])
    requires |g'.rows| == |g'.reserved| == |g.rows|
    requires forall j :: 0 <= j < |g.rows| && j != f ==> g'.rows[j] == g.rows[j] && g'.reserved[j] == g.reserved[j]
    ensures HomeOk(g'.rows, g'.reserved, id, g.kernel.live[id])
  {
  }

  // ---------------------------------------------------------------------------------------
  // Slot iterations in any order
  // ---------------------------------------------------------------------------------------

  predicate Within(order: seq<nat>, slots: nat) {
    forall k :: 0 <= k < |order| ==> order[k] < slots
  }

  function Iterates(g: Pool, order: seq<nat>): (r: Pool)
    requires |g.rows| == |g.reserved| && Within(order, |g.rows|)
    ensures |r.rows| == |r.reserved| == |g.rows| && r.accept == g.accept
    decreases |order|
  {
    if order == [] then g else Iterates(Iterate(g, order[0]), order[1..])
  }

  /** The first iteration of slot i comes before the first of slot j. */
  predicate Sooner(order: seq<nat>, i: nat, j: nat)
    decreases |order|
  {
    order != [] && (order[0] == i || (order[0] != j && Sooner(order[1..], i, j)))
  }

  /** An iteration leaves the other rows alone, and numbers of segments are not used again. */
  lemma {:induction false} IterateLocal(g: Pool, n: nat)
    requires n < |g.rows| == |g.reserved|
    ensures
      var g' := Iterate(g, n);
      && g'.rows == g.rows[n := g'.rows[n]] && g'.reserved == g.reserved[n := g'.reserved[n]]
      && g.kernel.next <= g'.kernel.next
      && (forall id :: id < g.kernel.next && id !in g.kernel.live ==> id !in g'.kernel.live)
  {
    hide Allocate, DestroyRing, ShmRemove;
    var k := g.kernel;
    var row := g.rows[n];
    var g1 := ServiceSlot(g, n, row.kind).0;
    AllocateLocal(k, row.kind, row.size, row.id, n);
    DestroyLocal(g1.kernel, g1.rows[n].request.shmid);
    DestroyLocal(DestroyRing(g1.kernel, g1.rows[n].request.shmid), g1.rows[n].response.shmid);
    var g2 := CleanUp(g1, n);
    RemoveLocal(g2.kernel, g2.rows[n].request.shmid);
    RemoveLocal(ShmRemove(g2.kernel, g2.rows[n].request.shmid), g2.rows[n].response.shmid);
  }

  lemma {:induction false} AllocateLocal(k: Kernel, kind: QueueType, size: int, x: Id, slot: nat)
    ensures
      var k' := Allocate(k, kind, size, x, slot).0;
      k.next <= k'.next && forall id :: id in k'.live ==> id in k.live || id >= k.next
  {
    hide RequestKey, ResponseKey, QueueCreate;
    var a := ShmCreate(k, RequestKey(kind, x), slot);
    var b := ShmCreate(a.0, ResponseKey(kind, x), slot);
    QueueCreateLocal(b.0, a.1, kind, size);
    QueueCreateLocal(QueueCreate(b.0, a.1, kind, size), b.1, kind, size);
  }

  lemma {:induction false} QueueCreateLocal(k: Kernel, id: int, kind: QueueType, size: int)
    ensures QueueCreate(k, id, kind, size).next == k.next && QueueCreate(k, id, kind, size).live.Keys == k.live.Keys
  {
  }

  lemma {:induction false} DestroyLocal(k: Kernel, id: int)
    ensures DestroyRing(k, id).next == k.next && DestroyRing(k, id).live == k.live
  {
    if id in k.live && |k.live[id].sems| == 3 {
      var s := k.live[id].sems;
      var k1 := SemRemove(k, s[0]);
      assert k1.next == k.next && k1.live == k.live;
      var k2 := SemRemove(k1, s[1]);
      assert k2.next == k.next && k2.live == k.live;
    }
  }

  lemma {:induction false} RemoveLocal(k: Kernel, id: int)
    ensures ShmRemove(k, id).next == k.next && ShmRemove(k, id).live.Keys <= k.live.Keys
  {
  }

  /** A slot that is serviced and not detached needs nothing. */
  lemma {:induction false} NothingToDo(g: Pool, n: nat)
    requires n < |g.rows| == |g.reserved| && g.rows[n].created && !g.rows[n].detach
    ensures Iterate(g, n) == g
  {
  }

  // ---------------------------------------------------------------------------------------
  // The new slot first
  // ---------------------------------------------------------------------------------------

  /** A connected client's row, in slot j. */
  predicate Holds(g: Pool, j: nat, x: Id) {
    j < |g.rows| == |g.reserved| && g.reserved[j] && g.rows[j].id == x && g.rows[j].created && !g.rows[j].detach
  }

  predicate Dead(k: Kernel, id: int) {
    id < k.next && id !in k.live
  }

  /** The pair of slot j has been removed: it stays removed. */
  lemma {:induction false} DeadStays(g: Pool, j: nat, x: Id, order: seq<nat>)
    requires Holds(g, j, x) && Within(order, |g.rows|)
    requires Dead(g.kernel, g.rows[j].request.shmid) && Dead(g.kernel, g.rows[j].response.shmid)
    ensures
      var h := Iterates(g, order);
      && Holds(h, j, x)
      && h.rows[j].request.shmid !in h.kernel.live && h.rows[j].response.shmid !in h.kernel.live
    decreases |order|
  {
    hide Iterate;
    if order != [] {
      IterateLocal(g, order[0]);
      if order[0] == j {
        NothingToDo(g, j);
      }
      DeadStays(Iterate(g, order[0]), j, x, order[1..]);
    }
  }

  /** Slots i and j name the same pair, and slot i is to be given up. */
  predicate Shared(g: Pool, i: nat, j: nat, x: Id) {
    && Holds(g, j, x) && i < |g.rows| && i != j && g.rows[i].created && g.rows[i].detach
    && g.rows[j].request == g.rows[i].request && g.rows[j].response == g.rows[i].response
    && g.rows[j].request.shmid < g.kernel.next && g.rows[j].response.shmid < g.kernel.next
  }

  /** Clearing a slot removes its two segments. */
  lemma {:induction false} Removes(g: Pool, i: nat)
    requires i < |g.rows| == |g.reserved| && g.rows[i].created && g.rows[i].detach
    ensures
      var k := Iterate(g, i).kernel;
      g.rows[i].request.shmid !in k.live && g.rows[i].response.shmid !in k.live
  {
    hide DestroyRing, Allocate;
  }

  lemma {:induction false} SharedIsLost(g: Pool, i: nat, j: nat, x: Id, order: seq<nat>)
    requires Shared(g, i, j, x) && Within(order, |g.rows|) && i in order
    ensures
      var h := Iterates(g, order);
      && Holds(h, j, x)
      && h.rows[j].request.shmid !in h.kernel.live && h.rows[j].response.shmid !in h.kernel.live
    decreases |order|
  {
    hide Iterate;
    var n, g' := order[0], Iterate(g, order[0]);
    IterateLocal(g, n);
    if n == i {
      Removes(g, i);
      DeadStays(g', j, x, order[1..]);
    } else {
      if n == j {
        NothingToDo(g, j);
      }
      SharedIsLost(g', i, j, x, order[1..]);
    }
  }

  // ---------------------------------------------------------------------------------------
  // The old slot first
  // ---------------------------------------------------------------------------------------

  lemma {:induction false} InOrder(p: Params, g: Pool, j: nat, x: Id, order: seq<nat>)
    requires PoolOk(p, g) && j < p.slots && g.reserved[j] && g.rows[j].id == x && !g.rows[j].detach
    requires Within(order, p.slots) && (g.rows[j].created || j in order)
    ensures
      var h := Iterates(g, order);
      PoolOk(p, h) && Holds(h, j, x) && PairOk(h.kernel.live, h.rows[j], j)
    decreases |order|
  {
    hide TableOk, KernelOk, Iterate;
    if order != [] {
      IterateKeeps(p, g, order[0]);
      InOrder(p, Iterate(g, order[0]), j, x, order[1..]);
    } else {
      TableFacts(p, g, j);
    }
  }

  // ---------------------------------------------------------------------------------------
  // Neither yet
  // ---------------------------------------------------------------------------------------

  /** g with slot j reserved for x, who has slot i already. */
  function Reopened(g: Pool, j: nat, row: Row): (r: Pool)
    requires j < |g.rows| == |g.reserved|
    ensures |r.rows| == |r.reserved| == |g.rows|
  {
    g.(rows := g.rows[j := row], reserved := g.reserved[j := true])
  }

  /** A row as request_slot leaves it. */
  function Asked(x: Id, want: Want): (r: Row) {
    Requested(BLANK, x, want)
  }

  /** x has closed, but slot i has not been given up; slot j is free. */
  ghost predicate Closing(p: Params, g: Pool, x: Id, i: nat, j: nat) {
    && PoolOk(p, g) && x in p.want && i < p.slots && j < p.slots
    && g.reserved[i] && g.rows[i].id == x && g.rows[i].created && g.rows[i].detach
    && !g.reserved[j]
  }

  /** The iteration of another slot has nothing to do with slot j. */
  lemma {:induction false} Commutes(g: Pool, j: nat, row: Row, n: nat)
    requires j < |g.rows| == |g.reserved| && n < |g.rows| && n != j
    ensures Iterate(Reopened(g, j, row), n) == Reopened(Iterate(g, n), j, row)
  {
    hide Allocate, DestroyRing, ShmRemove;
    var r := Iterate(g, n).rows[n];
    assert g.rows[j := row][n := r] == g.rows[n := r][j := row];
    assert g.reserved[j := true][n := false] == g.reserved[n := false][j := true];
  }

  /** With the old slot cleared, the request is in order. */
  lemma {:induction false} OldFirst(p: Params, g: Pool, x: Id, i: nat, j: nat)
    requires Closing(p, g, x, i, j)
    ensures PoolOk(p, Iterate(Reopened(g, j, Asked(x, p.want[x])), i))
  {
    hide TableOk, KernelOk, Iterate, KeysApart;
    Commutes(g, j, Asked(x, p.want[x]), i);
    IterateKeeps(p, g, i);
    TableFacts(p, g, i);
    var g' := Iterate(g, i);
    TableFacts(p, g', j);
    LocalStep(p, g', Reopened(g', j, Asked(x, p.want[x])), j);
  }

  /** With the new slot serviced first, the allocator finds the keys in use, and gives it the old segments with the
      semaphores they have; it makes none. */
  lemma {:induction false} NewFirst(p: Params, g: Pool, x: Id, i: nat, j: nat)
    requires Closing(p, g, x, i, j)
    ensures
      var h := Iterate(Reopened(g, j, Asked(x, p.want[x])), j);
      && Shared(h, i, j, x) && h.kernel.live.Keys == g.kernel.live.Keys
      && h.kernel.sems == g.kernel.sems && h.kernel.nextSem == g.kernel.nextSem
  {
    hide TableOk, KernelOk, RequestKey, ResponseKey, QueueCreate, KeysApart;
    TableFacts(p, g, i);
    KeysTaken(g.kernel, g.rows[i], i);
    NoneMade(g.kernel, g.rows[i], i);
    QueueCreateLocal(g.kernel, g.rows[i].request.shmid, p.want[x].kind, p.want[x].size);
    var k := QueueCreate(g.kernel, g.rows[i].request.shmid, p.want[x].kind, p.want[x].size);
    QueueCreateLocal(k, g.rows[i].response.shmid, p.want[x].kind, p.want[x].size);
  }

  /** Laying out a ring where there is one makes no semaphores. */
  lemma {:induction false} NoneMade(k: Kernel, row: Row, i: nat)
    requires KernelOk(k, {}) && PairOk(k.live, row, i)
    ensures
      var k1 := QueueCreate(k, row.request.shmid, row.kind, row.size);
      var k2 := QueueCreate(k1, row.response.shmid, row.kind, row.size);
      k2.sems == k.sems && k2.nextSem == k.nextSem
  {
    hide IndexOk, Conserved, RequestKey, ResponseKey;
    assert HeaderOk(k.sems, row.request.shmid, k.live[row.request.shmid]);
    assert HeaderOk(k.sems, row.response.shmid, k.live[row.response.shmid]);
  }

  lemma {:induction false} KeysTaken(k: Kernel, row: Row, i: nat)
    requires KernelOk(k, {}) && PairOk(k.live, row, i)
    ensures row.request.key in k.keys && k.keys[row.request.key] == row.request.shmid < k.next
    ensures row.response.key in k.keys && k.keys[row.response.key] == row.response.shmid < k.next
  {
    hide SemsOk, RequestKey, ResponseKey, Conserved;
    Unused(k.live.Keys, k.removed, k.next);
  }

  lemma {:induction false} ReopenFrom(p: Params, g: Pool, x: Id, i: nat, j: nat, order: seq<nat>)
    requires Closing(p, g, x, i, j) && Within(order, p.slots) && i in order && j in order
    ensures
      var h := Iterates(Reopened(g, j, Asked(x, p.want[x])), order);
      && Holds(h, j, x)
      && (if Sooner(order, i, j) then PoolOk(p, h) && PairOk(h.kernel.live, h.rows[j], j)
          else h.rows[j].request.shmid !in h.kernel.live && h.rows[j].response.shmid !in h.kernel.live)
    decreases |order|
  {
    hide PoolOk, Iterate, PairOk;
    var n, row := order[0], Asked(x, p.want[x]);
    var h := Iterate(Reopened(g, j, row), n);
    IterateLocal(Reopened(g, j, row), n);
    if n == i {
      OldFirst(p, g, x, i, j);
      InOrder(p, h, j, x, order[1..]);
    } else if n == j {
      NewFirst(p, g, x, i, j);
      SharedIsLost(h, i, j, x, order[1..]);
    } else {
      Commutes(g, j, row, n);
      IterateKeeps(p, g, n);
      ReopenFrom(p, Iterate(g, n), x, i, j, order[1..]);
    }
  }

  /** A client that has closed asks for a slot again while its old slot i is still reserved, and is given slot j. Let
      the manager come to the slots in any order, as often as it likes, but at least once to i and j. Then the client
      has a row with a pair in it, and the pair is live if and only if the manager came to the old slot before the
      new one. If it did, all is in order; if not, both segments are gone. */
  lemma {:induction false} ReopenExactly(p: Params, g: Pool, x: Id, i: nat, order: seq<nat>)
    requires PoolOk(p, g) && x in p.want && i < p.slots
    requires g.reserved[i] && g.rows[i].id == x && g.rows[i].created && g.rows[i].detach
    requires Within(order, p.slots) && i in order && FirstFree(g.reserved, 0) in order
    ensures
      var j, h := FirstFree(g.reserved, 0), Iterates(RequestSlot(g, x, p.want[x]).0, order);
      && Holds(h, j, x)
      && (PairOk(h.kernel.live, h.rows[j], j) <==> Sooner(order, i, j))
      && (h.rows[j].request.shmid in h.kernel.live <==> Sooner(order, i, j))
      && (h.rows[j].response.shmid in h.kernel.live <==> Sooner(order, i, j))
      && (Sooner(order, i, j) ==> PoolOk(p, h))
  {
    hide PoolOk, Iterates, KeysApart;
    var j := FirstFree(g.reserved, 0);
    BlankRow(p, g, x, j);
    ReopenFrom(p, g, x, i, j, order);
  }

  lemma {:induction false} BlankRow(p: Params, g: Pool, x: Id, j: nat)
    requires PoolOk(p, g) && x in p.want && j < p.slots && !g.reserved[j]
    ensures Requested(g.rows[j], x, p.want[x]) == Asked(x, p.want[x])
  {
    hide KernelOk, TableOk;
    TableFacts(p, g, j);
  }
}
