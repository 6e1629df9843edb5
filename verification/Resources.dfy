/** The coordination region and the kernel objects in order: what requests, closes and the parts of a slot iteration of
    manage_pool keep, and what the last pass of shutdown leaves behind. */
module Resources {
  import opened Slots
  import opened CoordOps
  import opened KernelObjects

  /** The pair a created row names: two live segments of this slot, laid out as the row says, with the keys
      of its client. */
  predicate PairOk(live: map<int, Shm>, row: Row, i: nat) {
    && row.request.key == RequestKey(row.kind, row.id) && row.response.key == ResponseKey(row.kind, row.id)
    && RingOk(live, row, row.request, i) && RingOk(live, row, row.response, i)
    && row.request.shmid != row.response.shmid
  }

  predicate RingOk(live: map<int, Shm>, row: Row, info: Info, i: nat) {
    && info.shmid in live
    && live[info.shmid].key == info.key && live[info.shmid].kind == row.kind
    && live[info.shmid].size == row.size && live[info.shmid].slot == i
  }

  predicate RowOk(want: map<Id, Want>, row: Row, reserved: bool, live: map<int, Shm>, i: nat) {
    if !reserved then row.(detach := false, serverAttached := false) == BLANK
    else
      && row.id in want && want[row.id] == Want(row.size, row.kind)
      && (row.created ==> PairOk(live, row, i))
  }

  /** A live segment is one of the pair of a created row. */
  predicate HomeOk(rows: seq<Row>, reserved: seq<bool>, id: int, h: Shm)
    requires |rows| == |reserved|
  {
    && h.slot < |rows| && reserved[h.slot] && rows[h.slot].created
    && (id == rows[h.slot].request.shmid || id == rows[h.slot].response.shmid)
  }

  ghost predicate Distinct(rows: seq<Row>, reserved: seq<bool>)
    requires |rows| == |reserved|
  {
    forall i, j :: 0 <= i < |rows| && 0 <= j < |rows| && reserved[i] && reserved[j] && rows[i].id == rows[j].id ==>
      i == j
  }

  /** The rows and the segments they name. */
  ghost predicate TableOk(p: Params, g: Pool)
    ensures TableOk(p, g) ==> ValidParams(p) && Sized(g, p.slots)
  {
    && ValidParams(p) && Sized(g, p.slots) && Distinct(g.rows, g.reserved)
    && (forall i :: 0 <= i < p.slots ==> RowOk(p.want, g.rows[i], g.reserved[i], g.kernel.live, i))
    && (forall id :: id in g.kernel.live ==> HomeOk(g.rows, g.reserved, id, g.kernel.live[id]))
  }

  /** Everything in order, but for semaphores that may have been orphaned before. */
  ghost predicate PoolOk(p: Params, g: Pool)
    ensures PoolOk(p, g) ==> ValidParams(p) && Sized(g, p.slots)
  {
    TableOk(p, g) && KernelOk(g.kernel, {})
  }

  /** s' is like s but for row i and the segments of slot i. */
  ghost predicate OnlySlot(g: Pool, g': Pool, i: nat)
    requires i < |g.rows| == |g.reserved| == |g'.rows| == |g'.reserved|
  {
    && g'.rows == g.rows[i := g'.rows[i]] && g'.reserved == g.reserved[i := g'.reserved[i]]
    && (forall id :: id in g.kernel.live && g.kernel.live[id].slot != i ==>
          id in g'.kernel.live && g'.kernel.live[id] == g.kernel.live[id])
    && (forall id :: id in g'.kernel.live && g'.kernel.live[id].slot != i ==>
          id in g.kernel.live && g'.kernel.live[id] == g.kernel.live[id])
  }

  lemma {:induction false} LocalStep(p: Params, g: Pool, g': Pool, i: nat)
    requires TableOk(p, g) && Sized(g', p.slots) && i < p.slots && OnlySlot(g, g', i)
    requires RowOk(p.want, g'.rows[i], g'.reserved[i], g'.kernel.live, i)
    requires forall id :: id in g'.kernel.live && g'.kernel.live[id].slot == i ==>
      HomeOk(g'.rows, g'.reserved, id, g'.kernel.live[id])
    requires g'.reserved[i] ==>
      forall j :: 0 <= j < p.slots && j != i && g.reserved[j] ==> g.rows[j].id != g'.rows[i].id
    ensures TableOk(p, g')
  {
    hide ValidParams;
    forall j | 0 <= j < p.slots
      ensures RowOk(p.want, g'.rows[j], g'.reserved[j], g'.kernel.live, j)
    {
      if j != i {
        assert RowOk(p.want, g.rows[j], g.reserved[j], g.kernel.live, j);
      }
    }
    forall id | id in g'.kernel.live
      ensures HomeOk(g'.rows, g'.reserved, id, g'.kernel.live[id])
    {
      if g'.kernel.live[id].slot != i {
        assert HomeOk(g.rows, g.reserved, id, g.kernel.live[id]);
      }
    }
  }

  lemma {:induction false} TableFacts(p: Params, g: Pool, i: nat)
    requires TableOk(p, g) && i < p.slots
    ensures RowOk(p.want, g.rows[i], g.reserved[i], g.kernel.live, i)
    ensures KeysApart(p.want.Keys)
    ensures forall id :: id in g.kernel.live ==> HomeOk(g.rows, g.reserved, id, g.kernel.live[id])
    ensures g.reserved[i] ==> forall j :: 0 <= j < p.slots && j != i && g.reserved[j] ==> g.rows[j].id != g.rows[i].id
  {
    hide RowOk, HomeOk, KeysApart;
  }

  /** Raising or lowering flags; accept's may be raised in any row. */
  lemma {:induction false} FlagKeeps(p: Params, g: Pool, i: nat, row: Row)
    requires TableOk(p, g) && i < p.slots
    requires row == g.rows[i].(clientAttached := row.clientAttached, serverAttached := row.serverAttached,
                               detach := row.detach)
    requires !g.reserved[i] ==> row == g.rows[i].(serverAttached := row.serverAttached)
    ensures TableOk(p, g.(rows := g.rows[i := row]))
  {
    hide TableOk, KeysApart;
    TableFacts(p, g, i);
    LocalStep(p, g, g.(rows := g.rows[i := row]), i);
  }

  // ---------------------------------------------------------------------------------------
  // The slot iteration
  // ---------------------------------------------------------------------------------------

  /** A key of x is in use only by the slot x has. */
  lemma {:induction false} KeyUnused(p: Params, g: Pool, i: nat, key: int)
    requires PoolOk(p, g) && i < p.slots && g.reserved[i] && !g.rows[i].created && IsKeyOf(key, g.rows[i].id)
    ensures key !in g.kernel.keys
  {
    hide IsKeyOf, Conserved, SemsOk;
    if key in g.kernel.keys {
      var id := g.kernel.keys[key];
      var j := g.kernel.live[id].slot;
      assert HomeOk(g.rows, g.reserved, id, g.kernel.live[id]);
      assert RowOk(p.want, g.rows[j], g.reserved[j], g.kernel.live, j);
      assert RowOk(p.want, g.rows[i], g.reserved[i], g.kernel.live, i);
      KeysOf(g.rows[j].kind, g.rows[j].id);
    }
  }

  lemma {:induction false} KeysOf(kind: QueueType, x: Id)
    ensures IsKeyOf(RequestKey(kind, x), x) && IsKeyOf(ResponseKey(kind, x), x)
  {
  }

  lemma {:induction false} AllocateKeeps(k: Kernel, kind: QueueType, size: int, x: Id, slot: nat)
    requires KernelOk(k, {}) && RequestKey(kind, x) !in k.keys && ResponseKey(kind, x) !in k.keys
    requires RequestKey(kind, x) != ResponseKey(kind, x)
    ensures
      var (k', request, response) := Allocate(k, kind, size, x, slot);
      && KernelOk(k', {}) && Orphans(k') == Orphans(k) && request.shmid != response.shmid
      && request.key == RequestKey(kind, x) && response.key == ResponseKey(kind, x)
      && request.shmid !in k.live && response.shmid !in k.live
      && request.shmid in k'.live && response.shmid in k'.live
      && k'.live == k.live[request.shmid := k'.live[request.shmid]][response.shmid := k'.live[response.shmid]]
      && k'.live[request.shmid] == Shm(RequestKey(kind, x), kind, size, k'.live[request.shmid].sems, slot)
      && k'.live[response.shmid] == Shm(ResponseKey(kind, x), kind, size, k'.live[response.shmid].sems, slot)
  {
    hide KernelOk, ShmCreate, QueueCreate, RequestKey, ResponseKey;
    CreateKeeps(k, RequestKey(kind, x), slot);
    var a := ShmCreate(k, RequestKey(kind, x), slot);
    CreateKeeps(a.0, ResponseKey(kind, x), slot);
    var b := ShmCreate(a.0, ResponseKey(kind, x), slot);
    LayOutKeeps(b.0, a.1, kind, size);
    LayOutKeeps(QueueCreate(b.0, a.1, kind, size), b.1, kind, size);
  }

  lemma {:induction false} ServiceKeeps(p: Params, g: Pool, i: nat)
    requires PoolOk(p, g) && i < p.slots
    ensures
      var g' := ServiceSlot(g, i, g.rows[i].kind).0;
      && PoolOk(p, g') && g'.reserved == g.reserved && Orphans(g'.kernel) == Orphans(g.kernel)
      && (g.reserved[i] ==> g'.rows[i].created)
      && g'.rows == g.rows[i := g'.rows[i]]
      && g'.rows[i] == g.rows[i].(request := g'.rows[i].request, response := g'.rows[i].response,
                                  created := g'.rows[i].created)
  {
    hide TableOk, KernelOk, Orphans, Allocate, IsKeyOf, RequestKey, ResponseKey;
    if g.reserved[i] && !g.rows[i].created {
      var row, g' := g.rows[i], ServiceSlot(g, i, g.rows[i].kind).0;
      TableFacts(p, g, i);
      KeysOf(row.kind, row.id);
      KeyUnused(p, g, i, RequestKey(row.kind, row.id));
      KeyUnused(p, g, i, ResponseKey(row.kind, row.id));
      AllocateKeeps(g.kernel, row.kind, row.size, row.id, i);
      LocalStep(p, g, g', i);
    }
  }

  /** The segments of a pair that has lost its semaphores, or should have. */
  function Bare(row: Row): (r: set<int>) {
    if row.kind == SEM then {row.request.shmid, row.response.shmid} else {}
  }

  /** clean_up_queue_resources: the semaphores of a pair that is to be given up go, its segments stay. */
  lemma {:induction false} SweepKeeps(p: Params, g: Pool, i: nat)
    requires PoolOk(p, g) && i < p.slots && g.reserved[i] && g.rows[i].created && g.rows[i].detach
    ensures
      var g' := CleanUp(g, i);
      && g' == g.(kernel := g'.kernel) && g'.kernel.live == g.kernel.live
      && TableOk(p, g') && KernelOk(g'.kernel, Bare(g.rows[i])) && Orphans(g'.kernel) == Orphans(g.kernel)
  {
    hide TableOk, KernelOk, Orphans, DestroyRing, RequestKey, ResponseKey, KeysApart;
    TableFacts(p, g, i);
    var k, a, b := g.kernel, g.rows[i].request.shmid, g.rows[i].response.shmid;
    if g.rows[i].kind == SEM {
      DestroyKeeps(k, {}, a);
      DestroyKeeps(DestroyRing(k, a), {} + {a}, b);
      assert {} + {a} + {b} == Bare(g.rows[i]);
      SameTable(p, g, CleanUp(g, i));
    }
  }

  lemma {:induction false} SameTable(p: Params, g: Pool, g': Pool)
    requires TableOk(p, g) && g' == g.(kernel := g'.kernel) && g'.kernel.live == g.kernel.live
    ensures TableOk(p, g')
  {
  }

  /** Two segments without semaphores of their own are removed. */
  lemma {:induction false} PairGoes(k: Kernel, row: Row, i: nat)
    requires KernelOk(k, Bare(row)) && PairOk(k.live, row, i)
    ensures
      var k' := ShmRemove(ShmRemove(k, row.request.shmid), row.response.shmid);
      && KernelOk(k', {}) && Orphans(k') == Orphans(k)
      && k'.live == k.live - {row.request.shmid, row.response.shmid}
  {
    hide KernelOk, Orphans, ShmRemove, RequestKey, ResponseKey;
    var a, b := row.request.shmid, row.response.shmid;
    RemoveKeeps(k, Bare(row), a);
    RemoveKeeps(ShmRemove(k, a), Bare(row) - {a}, b);
    assert Bare(row) - {a} - {b} == {};
    assert k.live - {a} - {b} == k.live - {a, b};
  }

  /** Two SEM segments are removed before their semaphores: six orphans. */
  lemma {:induction false} PairOrphans(k: Kernel, row: Row, i: nat)
    requires KernelOk(k, {}) && PairOk(k.live, row, i) && row.kind == SEM
    ensures
      var k' := ShmRemove(ShmRemove(k, row.request.shmid), row.response.shmid);
      && KernelOk(k', {}) && Orphans(k) <= Orphans(k') && |Orphans(k')| == |Orphans(k)| + 6
      && k'.live == k.live - {row.request.shmid, row.response.shmid}
  {
    hide KernelOk, Orphans, ShmRemove, RequestKey, ResponseKey;
    var a, b := row.request.shmid, row.response.shmid;
    RemoveOrphans(k, a);
    RemoveOrphans(ShmRemove(k, a), b);
    assert k.live - {a} - {b} == k.live - {a, b};
  }

  /** Clearing a detached slot, in terms of what becomes of the kernel objects. */
  lemma {:induction false} ClearedTable(p: Params, g: Pool, i: nat)
    requires TableOk(p, g) && i < p.slots && g.rows[i].detach
    requires
      var live' := ClearSlot(g, i).kernel.live;
      if g.rows[i].created then live' == g.kernel.live - {g.rows[i].request.shmid, g.rows[i].response.shmid}
      else live' == g.kernel.live
    ensures TableOk(p, ClearSlot(g, i))
  {
    hide TableOk, ShmRemove, RequestKey, ResponseKey, KeysApart;
    TableFacts(p, g, i);
    LocalStep(p, g, ClearSlot(g, i), i);
  }

  /** clear_slot, after the clean-up has seen the detach flag. */
  lemma {:induction false} SweptKeeps(p: Params, g: Pool, i: nat)
    requires TableOk(p, g) && i < p.slots && g.reserved[i] && g.rows[i].created && g.rows[i].detach
    requires KernelOk(g.kernel, Bare(g.rows[i]))
    ensures PoolOk(p, ClearSlot(g, i)) && Orphans(ClearSlot(g, i).kernel) == Orphans(g.kernel)
  {
    hide TableOk, KernelOk, Orphans, ShmRemove, RequestKey, ResponseKey, KeysApart;
    TableFacts(p, g, i);
    PairGoes(g.kernel, g.rows[i], i);
    ClearedTable(p, g, i);
  }

  /** clear_slot, when the clean-up has left the slot alone: if the detach flag has come up since, a SEM pair leaves
      its six semaphores behind. */
  lemma {:induction false} UnsweptKeeps(p: Params, g: Pool, i: nat)
    requires PoolOk(p, g) && i < p.slots
    ensures PoolOk(p, ClearSlot(g, i)) && Orphans(g.kernel) <= Orphans(ClearSlot(g, i).kernel)
    ensures |Orphans(ClearSlot(g, i).kernel)| ==
      |Orphans(g.kernel)| + if g.rows[i].created && g.rows[i].detach && g.rows[i].kind == SEM then 6 else 0
  {
    hide TableOk, KernelOk, Orphans, ShmRemove, RequestKey, ResponseKey, KeysApart;
    TableFacts(p, g, i);
    if g.rows[i].detach {
      if g.rows[i].created && g.rows[i].kind == SEM {
        PairOrphans(g.kernel, g.rows[i], i);
      } else if g.rows[i].created {
        PairGoes(g.kernel, g.rows[i], i);
      }
      ClearedTable(p, g, i);
    }
  }

  lemma {:induction false} ClearKeeps(p: Params, g: Pool, i: nat)
    requires PoolOk(p, g) && i < p.slots && (g.reserved[i] ==> g.rows[i].created)
    ensures
      var g' := ClearSlot(CleanUp(g, i), i);
      && PoolOk(p, g') && Orphans(g'.kernel) == Orphans(g.kernel)
      && (if g.rows[i].detach then
            && g'.rows == g.rows[i := BLANK] && g'.reserved == g.reserved[i := false]
          else g' == g)
  {
    hide TableOk, KernelOk, Orphans, DestroyRing, ShmRemove, RequestKey, ResponseKey, KeysApart;
    if g.rows[i].detach {
      TableFacts(p, g, i);
      if g.reserved[i] {
        SweepKeeps(p, g, i);
        SweptKeeps(p, CleanUp(g, i), i);
      } else {
        ClearedTable(p, g, i);
      }
    }
  }

  /** One slot iteration: services a reserved slot, and gives up a detached one. */
  lemma {:induction false} IterateKeeps(p: Params, g: Pool, i: nat)
    requires PoolOk(p, g) && i < p.slots
    ensures
      var g' := Iterate(g, i);
      && PoolOk(p, g') && g'.accept == g.accept && Orphans(g'.kernel) == Orphans(g.kernel)
      && g'.rows == g.rows[i := g'.rows[i]] && g'.reserved == g.reserved[i := g'.reserved[i]]
      && (if g.rows[i].detach then g'.rows[i] == BLANK && !g'.reserved[i]
          else
            && g'.reserved[i] == g.reserved[i] && (g.reserved[i] ==> g'.rows[i].created)
            && g'.rows[i] == g.rows[i].(request := g'.rows[i].request, response := g'.rows[i].response,
                                        created := g'.rows[i].created))
  {
    hide PoolOk, Orphans, DestroyRing, ShmRemove, Allocate;
    ServiceKeeps(p, g, i);
    var g1 := ServiceSlot(g, i, g.rows[i].kind).0;
    ClearKeeps(p, g1, i);
  }

  /** What request_slot answers: -1, and nothing has changed, if and only if every slot is reserved; otherwise the first
      slot that was free, which is now reserved, and its row names the caller and what it wants, with all flags down.
      Nothing else has changed. */
  lemma {:induction false} RequestAnswers(g: Pool, x: Id, want: Want)
    requires |g.rows| == |g.reserved|
    ensures
      var (g', slot) := RequestSlot(g, x, want);
      && (slot == -1 <==> forall i :: 0 <= i < |g.reserved| ==> g.reserved[i]) && (slot == -1 ==> g' == g)
      && (slot != -1 ==>
            && 0 <= slot < |g.rows| == |g'.rows| && !g.reserved[slot]
            && (forall i :: 0 <= i < slot ==> g.reserved[i])
            && g' == g.(rows := g.rows[slot := g'.rows[slot]], reserved := g.reserved[slot := true])
            && var row := g'.rows[slot];
            && row.id == x && row.size == want.size && row.kind == want.kind
            && !row.created && !row.detach && !row.clientAttached && !row.serverAttached
            && row.request == g.rows[slot].request && row.response == g.rows[slot].response)
  {
  }

  /** What service_slot answers: the client's id if there was a reservation to service, and then the row says so and
      names two segments; otherwise -1, and nothing has changed. */
  lemma {:induction false} ServiceAnswers(p: Params, g: Pool, i: nat)
    requires PoolOk(p, g) && i < p.slots
    ensures
      var (g', answer) := ServiceSlot(g, i, g.rows[i].kind);
      if g.reserved[i] && !g.rows[i].created then
        && answer == g.rows[i].id == g'.rows[i].id && answer in p.want
        && g'.rows[i].created && PairOk(g'.kernel.live, g'.rows[i], i)
      else answer == -1 && g' == g
  {
    hide TableOk, KernelOk, PairOk, Allocate, KeysApart;
    ServiceKeeps(p, g, i);
    TableFacts(p, g, i);
    TableFacts(p, ServiceSlot(g, i, g.rows[i].kind).0, i);
  }

  /** request_slot, by a client that has no slot. */
  lemma {:induction false} RequestKeeps(p: Params, g: Pool, x: Id)
    requires TableOk(p, g) && x in p.want
    requires forall i :: 0 <= i < p.slots && g.reserved[i] ==> g.rows[i].id != x
    ensures TableOk(p, RequestSlot(g, x, p.want[x]).0)
  {
    hide TableOk, KeysApart;
    var i := FirstFree(g.reserved, 0);
    if i < p.slots {
      TableFacts(p, g, i);
      LocalStep(p, g, RequestSlot(g, x, p.want[x]).0, i);
    }
  }

  /** client_close marks the row of the client that calls it, and no other row. */
  lemma {:induction false} CloseKeeps(p: Params, g: Pool, x: Id)
    requires TableOk(p, g) && x in p.want
    ensures TableOk(p, Close(g, x).0)
    ensures Close(g, x).1 == 0 <==> exists i :: 0 <= i < p.slots && g.reserved[i] && g.rows[i].id == x
    ensures forall i :: 0 <= i < p.slots ==>
      Close(g, x).0.rows[i] == if g.reserved[i] && g.rows[i].id == x then g.rows[i].(detach := true) else g.rows[i]
  {
    hide TableOk, PairOk;
    var f := FirstRow(g.rows, x, 0);
    forall i: nat | i < p.slots
      ensures g.rows[i].id == x ==> g.reserved[i] && i == f
    {
      TableFacts(p, g, i);
      if g.rows[i].id == x {
        assert f < p.slots;
        TableFacts(p, g, f);
      }
    }
    if f < p.slots {
      FlagKeeps(p, g, f, g.rows[f].(detach := true));
    }
  }

  function Cold(p: Params): (g: Pool)
    requires p.slots > 0
  {
    Pool(seq(p.slots, i => BLANK), seq(p.slots, i => false), 0, COLD)
  }

  lemma {:induction false} ColdOk(p: Params)
    requires ValidParams(p)
    ensures PoolOk(p, Cold(p))
  {
  }

  lemma {:induction false} CreatedIsReserved(p: Params, g: Pool, i: nat)
    requires TableOk(p, g) && i < p.slots && g.rows[i].created
    ensures g.reserved[i]
  {
    hide KeysApart, PairOk;
    assert RowOk(p.want, g.rows[i], g.reserved[i], g.kernel.live, i);
  }

  // ---------------------------------------------------------------------------------------
  // Names
  // ---------------------------------------------------------------------------------------

  /** The segments named by created rows. */
  ghost predicate Named(g: Pool, id: int)
    requires |g.rows| == |g.reserved|
  {
    exists i :: 0 <= i < |g.rows| && g.rows[i].created &&
      (id == g.rows[i].request.shmid || id == g.rows[i].response.shmid)
  }

  /** Semaphore sem is in the header of a segment, not laid bare, that a created SEM row names. */
  ghost predicate SemNamed(g: Pool, sem: int, bare: set<int>)
    requires |g.rows| == |g.reserved|
  {
    exists id :: Named(g, id) && id !in bare && id in g.kernel.live && g.kernel.live[id].kind == SEM &&
      sem in g.kernel.live[id].sems
  }

  /** The live segments are those the created rows name; the live semaphores are the orphans and, unless the segment
      has been laid bare, those the segments name. */
  lemma {:induction false} Accounted(p: Params, g: Pool, bare: set<int>)
    requires TableOk(p, g) && KernelOk(g.kernel, bare)
    ensures forall id :: id in g.kernel.live <==> Named(g, id)
    ensures forall sem :: sem in g.kernel.sems <==> sem in Orphans(g.kernel) || SemNamed(g, sem, bare)
    ensures forall sem :: sem in Orphans(g.kernel) ==> !SemNamed(g, sem, bare)
    ensures forall i :: 0 <= i < p.slots && g.rows[i].created ==>
      && g.reserved[i] && PairOk(g.kernel.live, g.rows[i], i)
      && g.rows[i].id in p.want && p.want[g.rows[i].id] == Want(g.rows[i].size, g.rows[i].kind)
  {
    hide Conserved, RequestKey, ResponseKey, IndexOk, ValidParams;
    var k := g.kernel;
    forall i | 0 <= i < p.slots && g.rows[i].created
      ensures g.reserved[i] && PairOk(k.live, g.rows[i], i)
      ensures g.rows[i].id in p.want && p.want[g.rows[i].id] == Want(g.rows[i].size, g.rows[i].kind)
    {
      assert RowOk(p.want, g.rows[i], g.reserved[i], k.live, i);
    }
    forall id
      ensures id in k.live <==> Named(g, id)
    {
      if id in k.live {
        assert HomeOk(g.rows, g.reserved, id, k.live[id]);
      }
    }
    forall sem
      ensures sem in k.sems <==> sem in Orphans(k) || SemNamed(g, sem, bare)
      ensures sem in Orphans(k) ==> !SemNamed(g, sem, bare)
    {
      if sem in k.sems && k.sems[sem] in k.live {
        assert sem in k.live[k.sems[sem]].sems && HeaderOk(k.sems, k.sems[sem], k.live[k.sems[sem]]);
        assert Named(g, k.sems[sem]);
      }
      if id :| Named(g, id) && id !in bare && id in k.live && k.live[id].kind == SEM && sem in k.live[id].sems {
        assert HeaderOk(k.sems, id, k.live[id]);
      }
    }
  }

  // ---------------------------------------------------------------------------------------
  // Shutdown
  // ---------------------------------------------------------------------------------------

  lemma {:induction false} PassKeeps(p: Params, g: Pool, i: nat)
    requires PoolOk(p, g) && i <= p.slots
    ensures PoolOk(p, Passed(g, i)) && Orphans(Passed(g, i).kernel) == Orphans(g.kernel)
    ensures forall j :: 0 <= j < i ==> Passed(g, i).rows[j] == g.rows[j] && Passed(g, i).reserved[j] == g.reserved[j]
    ensures forall j :: i <= j < p.slots ==>
      if g.rows[j].detach then Passed(g, i).rows[j] == BLANK && !Passed(g, i).reserved[j]
      else Passed(g, i).reserved[j] == g.reserved[j] && (g.reserved[j] ==> Passed(g, i).rows[j].created)
    decreases p.slots - i
  {
    hide PoolOk, Orphans, Iterate;
    if i < p.slots {
      IterateKeeps(p, g, i);
      PassKeeps(p, Iterate(g, i), i + 1);
    }
  }

  lemma {:induction false} DetachAllKeeps(p: Params, g: Pool)
    requires PoolOk(p, g)
    ensures PoolOk(p, DetachAll(g))
  {
    hide KernelOk, ValidParams;
    var g' := DetachAll(g);
    forall i | 0 <= i < p.slots
      ensures RowOk(p.want, g'.rows[i], g'.reserved[i], g'.kernel.live, i)
    {
      assert RowOk(p.want, g.rows[i], g.reserved[i], g.kernel.live, i);
    }
    forall id | id in g'.kernel.live
      ensures HomeOk(g'.rows, g'.reserved, id, g'.kernel.live[id])
    {
      assert HomeOk(g.rows, g.reserved, id, g.kernel.live[id]);
    }
  }

  /** Every slot is free and blank, no segment is live, no semaphores but those `left`, everything else that was ever
      made has been removed once, and no removal failed. */
  ghost predicate Cleared(g: Pool, left: set<int>) {
    && (forall i :: 0 <= i < |g.rows| ==> g.rows[i] == BLANK)
    && (forall i :: 0 <= i < |g.reserved| ==> !g.reserved[i])
    && g.kernel.live == map[] && g.kernel.sems.Keys == left && g.kernel.faults == 0
    && (forall id :: g.kernel.removed[id] == One(0 <= id < g.kernel.next))
    && (forall sem :: g.kernel.destroyed[sem] == One(0 <= sem < g.kernel.nextSem && sem !in left))
  }

  /** Whatever was going on, also slots reserved but not yet serviced: the last pass of shutdown leaves the orphans
      there were, and nothing else. */
  lemma {:induction false} LastPassClears(p: Params, g: Pool)
    requires PoolOk(p, g)
    ensures PoolOk(p, Passed(DetachAll(g), 0)) && Cleared(Passed(DetachAll(g), 0), Orphans(g.kernel))
  {
    hide PoolOk, Orphans, Passed;
    DetachAllKeeps(p, g);
    PassKeeps(p, DetachAll(g), 0);
    NothingLive(p, Passed(DetachAll(g), 0));
  }

  lemma {:induction false} NothingLive(p: Params, g: Pool)
    requires PoolOk(p, g) && forall i :: 0 <= i < p.slots ==> g.rows[i] == BLANK
    ensures g.kernel.live == map[] && g.kernel.sems.Keys == Orphans(g.kernel) && g.kernel.faults == 0
    ensures forall id :: g.kernel.removed[id] == One(0 <= id < g.kernel.next)
    ensures forall sem :: g.kernel.destroyed[sem] == One(0 <= sem < g.kernel.nextSem && sem !in Orphans(g.kernel))
  {
    hide TableOk;
    Accounted(p, g, {});
    var k := g.kernel;
    forall id
      ensures id !in k.live && (id in k.sems <==> id in Orphans(k))
    {
    }
    forall id
      ensures k.removed[id] == One(0 <= id < k.next)
    {
      assert k.removed[id] + One(id in k.live.Keys) == One(0 <= id < k.next);
    }
    forall sem
      ensures k.destroyed[sem] == One(0 <= sem < k.nextSem && sem !in Orphans(k))
    {
      assert k.destroyed[sem] + One(sem in k.sems.Keys) == One(0 <= sem < k.nextSem);
    }
  }
}
