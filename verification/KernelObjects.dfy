/** The segments and semaphores of the kernel are conserved: each one made is live or has been removed,
    and removed once. A live semaphore whose segment is gone is an orphan. */
module KernelObjects {
  import opened Slots
  import opened CoordOps

  function One(b: bool): (n: nat) {
    if b then 1 else 0
  }

  /** Each number handed out so far stands for an object that is live or has been removed, once. */
  ghost predicate Conserved(live: set<int>, gone: multiset<int>, next: nat) {
    forall id :: gone[id] + One(id in live) == One(0 <= id < next)
  }

  predicate IndexOk(keys: map<int, int>, live: map<int, Shm>) {
    && (forall key :: key in keys ==> keys[key] in live && live[keys[key]].key == key)
    && (forall id :: id in live ==> live[id].key in keys && keys[live[id].key] == id)
  }

  /** The header of segment id names three live semaphores of its own if the ring is a SEM ring. */
  predicate HeaderOk(sems: map<int, int>, id: int, h: Shm) {
    if h.kind == SEM then
      && |h.sems| == 3 && h.sems[0] != h.sems[1] && h.sems[1] != h.sems[2] && h.sems[0] != h.sems[2]
      && (forall i :: 0 <= i < 3 ==> h.sems[i] in sems && sems[h.sems[i]] == id)
    else h.sems == []
  }

  /** Live semaphores of live segments are named in the header; `bare` segments have lost their semaphores. */
  predicate SemsOk(live: map<int, Shm>, sems: map<int, int>, bare: set<int>) {
    && (forall sem :: sem in sems && sems[sem] in live ==> sems[sem] !in bare && sem in live[sems[sem]].sems)
    && (forall id :: id in live && id !in bare ==> HeaderOk(sems, id, live[id]))
  }

  /** The live semaphores whose segment has been removed: nothing names them any more. */
  function Orphans(k: Kernel): (r: set<int>) {
    set sem | sem in k.sems && k.sems[sem] !in k.live
  }

  /** Semaphores belong to segments that have been made. */
  predicate Dated(sems: map<int, int>, next: nat) {
    forall sem :: sem in sems ==> sems[sem] < next
  }

  ghost predicate KernelOk(k: Kernel, bare: set<int>) {
    && IndexOk(k.keys, k.live) && Dated(k.sems, k.next)
    && SemsOk(k.live, k.sems, bare)
    && Conserved(k.live.Keys, k.removed, k.next)
    && Conserved(k.sems.Keys, k.destroyed, k.nextSem)
    && k.faults == 0
  }

  lemma {:induction false} Unused(live: set<int>, gone: multiset<int>, next: nat)
    requires Conserved(live, gone, next)
    ensures forall id :: id >= next ==> id !in live
    ensures Conserved(live + {next}, gone, next + 1)
  {
    forall id
      ensures gone[id] + One(id in live + {next}) == One(0 <= id < next + 1)
      ensures id >= next ==> id !in live
    {
      assert gone[id] + One(id in live) == One(0 <= id < next);
    }
  }

  lemma {:induction false} Gone(live: set<int>, gone: multiset<int>, next: nat, id: int)
    requires Conserved(live, gone, next) && id in live
    ensures Conserved(live - {id}, gone + multiset{id}, next)
  {
    forall x
      ensures (gone + multiset{id})[x] + One(x in live - {id}) == One(0 <= x < next)
    {
      assert gone[x] + One(x in live) == One(0 <= x < next);
    }
  }

  lemma {:induction false} SameOrphans(k: Kernel, k': Kernel)
    requires k'.sems == k.sems
    requires forall sem :: sem in k.sems ==> (k.sems[sem] in k'.live <==> k.sems[sem] in k.live)
    ensures Orphans(k') == Orphans(k)
  {
    assert forall sem :: sem in Orphans(k') <==> sem in Orphans(k);
  }

  lemma {:induction false} CreateKeeps(k: Kernel, key: int, slot: nat)
    requires KernelOk(k, {}) && key !in k.keys
    ensures
      var (k', id) := ShmCreate(k, key, slot);
      && KernelOk(k', {}) && id == k.next && id !in k.live && Orphans(k') == Orphans(k)
      && k'.live == k.live[id := Shm(key, POLL, 0, [], slot)] && k'.keys == k.keys[key := id]
  {
    hide Conserved;
    Unused(k.live.Keys, k.removed, k.next);
    var (k', id) := ShmCreate(k, key, slot);
    assert k'.live.Keys == k.live.Keys + {k.next};
    SameOrphans(k, k');
    hide One;
  }

  /** Three more semaphores. */
  lemma {:induction false} ThreeMore(sems: map<int, int>, gone: multiset<int>, n: nat, id: int)
    requires Conserved(sems.Keys, gone, n)
    ensures n !in sems && n + 1 !in sems && n + 2 !in sems
    ensures Conserved(sems[n := id][n + 1 := id][n + 2 := id].Keys, gone, n + 3)
  {
    hide Conserved;
    Unused(sems.Keys, gone, n);
    assert sems[n := id].Keys == sems.Keys + {n};
    Unused(sems[n := id].Keys, gone, n + 1);
    assert sems[n := id][n + 1 := id].Keys == sems[n := id].Keys + {n + 1};
    Unused(sems[n := id][n + 1 := id].Keys, gone, n + 2);
    assert sems[n := id][n + 1 := id][n + 2 := id].Keys == sems[n := id][n + 1 := id].Keys + {n + 2};
  }

  lemma {:induction false} LayOutKeeps(k: Kernel, id: int, kind: QueueType, size: int)
    requires KernelOk(k, {}) && id in k.live && k.live[id].sems == [] && k.live[id].kind != SEM
    ensures
      var k' := QueueCreate(k, id, kind, size);
      && KernelOk(k', {}) && k'.keys == k.keys && k'.live.Keys == k.live.Keys && Orphans(k') == Orphans(k)
      && k'.live == k.live[id := k'.live[id]]
      && k'.live[id] == k.live[id].(kind := kind, size := size, sems := k'.live[id].sems)
  {
    hide Conserved, HeaderOk, SemsOk;
    var k' := QueueCreate(k, id, kind, size);
    assert k'.live.Keys == k.live.Keys;
    Unused(k.live.Keys, k.removed, k.next);
    ThreeMore(k.sems, k.destroyed, k.nextSem, id);
    LayOutSems(k.live, k.sems, k'.live, k'.sems, id, k.nextSem);
  }

  lemma {:induction false} LayOutSems(live: map<int, Shm>, sems: map<int, int>, live': map<int, Shm>,
                                      sems': map<int, int>, id: int, n: nat)
    requires SemsOk(live, sems, {}) && id in live && live[id].sems == []
    requires id in live' && live' == live[id := live'[id]]
    requires n !in sems && n + 1 !in sems && n + 2 !in sems
    requires
      if live'[id].kind == SEM then live'[id].sems == [n, n + 1, n + 2] &&
        sems' == sems[n := id][n + 1 := id][n + 2 := id]
      else live'[id].sems == [] && sems' == sems
    ensures SemsOk(live', sems', {})
  {
    forall j | j in live'
      ensures HeaderOk(sems', j, live'[j])
    {
      if j != id {
        assert HeaderOk(sems, j, live[j]);
      }
    }
    forall sem | sem in sems'
      ensures sems'[sem] in live' ==> sem in live'[sems'[sem]].sems
    {
      if sem in sems && sems[sem] in live {
        assert sem in live[sems[sem]].sems;
      }
    }
  }

  lemma {:induction false} SemRemoveKeeps(k: Kernel, sem: int)
    requires Conserved(k.sems.Keys, k.destroyed, k.nextSem) && sem in k.sems
    ensures
      var k' := SemRemove(k, sem);
      && k'.sems == k.sems - {sem} && Conserved(k'.sems.Keys, k'.destroyed, k'.nextSem)
      && k' == k.(sems := k'.sems, destroyed := k'.destroyed)
  {
    hide Conserved;
    Gone(k.sems.Keys, k.destroyed, k.nextSem, sem);
    assert (k.sems - {sem}).Keys == k.sems.Keys - {sem};
  }

  lemma {:induction false} DestroyKeeps(k: Kernel, bare: set<int>, id: int)
    requires KernelOk(k, bare) && id in k.live && id !in bare && k.live[id].kind == SEM
    ensures
      var k' := DestroyRing(k, id);
      && KernelOk(k', bare + {id}) && k' == k.(sems := k'.sems, destroyed := k'.destroyed)
      && Orphans(k') == Orphans(k)
  {
    hide Conserved;
    assert HeaderOk(k.sems, id, k.live[id]);
    var s, k' := k.live[id].sems, DestroyRing(k, id);
    SemRemoveKeeps(k, s[0]);
    SemRemoveKeeps(SemRemove(k, s[0]), s[1]);
    SemRemoveKeeps(SemRemove(SemRemove(k, s[0]), s[1]), s[2]);
    OthersKeepSems(k.live, k.sems, k'.sems, bare, id);
  }

  lemma {:induction false} OthersKeepSems(live: map<int, Shm>, sems: map<int, int>, sems': map<int, int>,
                                          bare: set<int>, id: int)
    requires SemsOk(live, sems, bare) && id in live && HeaderOk(sems, id, live[id]) && live[id].kind == SEM
    requires forall sem :: sem in sems' <==>
      sem in sems && sem != live[id].sems[0] && sem != live[id].sems[1] && sem != live[id].sems[2]
    requires forall sem :: sem in sems' ==> sems'[sem] == sems[sem]
    ensures SemsOk(live, sems', bare + {id})
  {
    forall sem | sem in sems' && sems'[sem] in live
      ensures sems'[sem] !in bare + {id} && sem in live[sems'[sem]].sems
    {
      assert sem in live[sems[sem]].sems;
    }
    forall j | j in live && j !in bare + {id}
      ensures HeaderOk(sems', j, live[j])
    {
      assert HeaderOk(sems, j, live[j]);
      assert sems[live[id].sems[0]] == id && sems[live[id].sems[1]] == id && sems[live[id].sems[2]] == id;
    }
  }

  lemma {:induction false} RemoveKeeps(k: Kernel, bare: set<int>, id: int)
    requires KernelOk(k, bare) && id in k.live && (id in bare || k.live[id].kind != SEM)
    ensures
      var k' := ShmRemove(k, id);
      && KernelOk(k', bare - {id}) && k'.live == k.live - {id} && k'.keys == k.keys - {k.live[id].key}
      && Orphans(k') == Orphans(k)
  {
    hide Conserved;
    var k' := ShmRemove(k, id);
    Gone(k.live.Keys, k.removed, k.next, id);
    assert k'.live.Keys == k.live.Keys - {id};
    RemoveSems(k.live, k.sems, bare, id);
    RemoveIndex(k.keys, k.live, id);
    SameOrphans(k, k');
  }

  lemma {:induction false} RemoveSems(live: map<int, Shm>, sems: map<int, int>, bare: set<int>, id: int)
    requires SemsOk(live, sems, bare) && id in live && (id in bare || live[id].kind != SEM)
    ensures SemsOk(live - {id}, sems, bare - {id}) && forall sem :: sem in sems ==> sems[sem] != id
  {
    assert id !in bare ==> HeaderOk(sems, id, live[id]);
    forall sem | sem in sems
      ensures sems[sem] != id
    {
      assert sems[sem] in live ==> sem in live[sems[sem]].sems;
    }
  }

  lemma {:induction false} RemoveIndex(keys: map<int, int>, live: map<int, Shm>, id: int)
    requires IndexOk(keys, live) && id in live
    ensures IndexOk(keys - {live[id].key}, live - {id})
  {
  }

  /** A SEM segment removed with its semaphores still live leaves three orphans. */
  lemma {:induction false} RemoveOrphans(k: Kernel, id: int)
    requires KernelOk(k, {}) && id in k.live && k.live[id].kind == SEM
    ensures
      var k', lost := ShmRemove(k, id), set sem | sem in k.live[id].sems;
      && KernelOk(k', {}) && k'.live == k.live - {id}
      && |lost| == 3 && lost !! Orphans(k) && Orphans(k') == Orphans(k) + lost
  {
    hide Conserved;
    var k', s := ShmRemove(k, id), k.live[id].sems;
    assert HeaderOk(k.sems, id, k.live[id]);
    Gone(k.live.Keys, k.removed, k.next, id);
    assert k'.live.Keys == k.live.Keys - {id};
    RemoveIndex(k.keys, k.live, id);
    assert (set sem | sem in s) == {s[0], s[1], s[2]};
    forall sem | sem in k.sems && k.sems[sem] in k'.live
      ensures sem in k'.live[k.sems[sem]].sems
    {
      assert sem in k.live[k.sems[sem]].sems;
    }
    forall j | j in k'.live
      ensures HeaderOk(k'.sems, j, k'.live[j])
    {
      assert HeaderOk(k.sems, j, k.live[j]);
    }
    forall sem
      ensures sem in Orphans(k') <==> sem in Orphans(k) || sem in s
    {
      if sem in k.sems && k.sems[sem] == id {
        assert sem in k.live[id].sems;
      }
    }
  }
}
