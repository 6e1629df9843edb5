/** The coordination region as the server and its clients update it in place. */
module CoordRegion {
  import opened Slots
  import opened CoordOps
  import AcceptOrder
  import KernelObjects
  import Resources

  class Coord {
    const rows: array<Row>
    const reserved: array<bool>
    var accept: nat
    var kernel: Kernel          // the segments and semaphores behind the region

    ghost predicate Valid()
      reads this
    {
      rows.Length == reserved.Length && accept < rows.Length
    }

    ghost function View(): (g: Pool)
      reads this, rows, reserved
      requires Valid()
      ensures Sized(g, rows.Length)
    {
      Pool(rows[..], reserved[..], accept, kernel)
    }

    /** coord_create on a zeroed region */
    constructor (slots: nat, k: Kernel)
      requires slots > 0
      ensures Valid() && fresh(rows) && fresh(reserved) && rows.Length == slots
      ensures View() == Pool(seq(slots, i => BLANK), seq(slots, i => false), 0, k)
    {
      rows := new Row[slots](i => BLANK);
      reserved := new bool[slots](i => false);
      accept := 0;
      kernel := k;
    }

    // -------------------------------------------------------------------------------------
    // Clients
    // -------------------------------------------------------------------------------------

    /** Reserve the first free slot; -1 and no change if there is none. */
    method RequestSlot(x: Id, want: Want) returns (slot: int)
      requires Valid()
      modifies rows, reserved
      ensures Valid() && (View(), slot) == CoordOps.RequestSlot(old(View()), x, want)
      ensures slot == -1 <==> forall i :: 0 <= i < reserved.Length ==> old(reserved[i])
      ensures slot != -1 ==>
        && 0 <= slot < reserved.Length && !old(reserved[slot]) && reserved[slot]
        && rows[slot].id == x && rows[slot].size == want.size && rows[slot].kind == want.kind
        && (forall i :: 0 <= i < slot ==> old(reserved[i]))
    {
      for i := 0 to reserved.Length
        invariant View() == old(View())
        invariant FirstFree(reserved[..], 0) == FirstFree(reserved[..], i)
        invariant forall j :: 0 <= j < i ==> reserved[j]
      {
        if !reserved[i] {
          rows[i] := rows[i].(id := x);
          rows[i] := rows[i].(size := want.size);
          rows[i] := rows[i].(detach := false);
          rows[i] := rows[i].(kind := want.kind);
          rows[i] := rows[i].(clientAttached := false);
          rows[i] := rows[i].(serverAttached := false);
          rows[i] := rows[i].(created := false);
          reserved[i] := true;
          assert rows[..] == old(rows[..])[i := Requested(old(rows[i]), x, want)];
          return i;
        }
      }
      return -1;
    }

    /** The pair of a slot, zeros while there is none. */
    method CheckSlot(slot: nat) returns (request: Info, response: Info)
      requires Valid() && slot < rows.Length
      ensures if rows[slot].created then request == rows[slot].request && response == rows[slot].response
              else request == Info(0, 0) && response == Info(0, 0)
    {
      request, response := Info(0, 0), Info(0, 0);
      if rows[slot].created {
        request, response := rows[slot].request, rows[slot].response;
      }
    }

    method GetClientId(slot: nat) returns (id: Id)
      requires Valid() && slot < rows.Length
      ensures id == if rows[slot].created then rows[slot].id else 0
    {
      id := 0;
      if rows[slot].created {
        id := rows[slot].id;
      }
    }

    method GetServerAttachState(slot: nat) returns (attached: bool)
      requires Valid() && slot < rows.Length
      ensures attached <==> rows[slot].created && rows[slot].serverAttached
    {
      attached := false;
      if rows[slot].created {
        attached := rows[slot].serverAttached;
      }
    }

    /** Set the flag of a created slot; says whether the flag is now set. */
    method SetServerAttachState(slot: nat, state: bool) returns (attached: bool)
      requires Valid() && slot < rows.Length
      modifies rows
      ensures attached <==> state && old(rows[slot].created)
      ensures rows[..] ==
        if old(rows[slot].created) then old(rows[..])[slot := old(rows[slot]).(serverAttached := state)]
        else old(rows[..])
    {
      attached := false;
      if rows[slot].created {
        rows[slot] := rows[slot].(serverAttached := state);
        attached := rows[slot].serverAttached;
      }
    }

    /** Ask for the slot of client x to be given up; -1 if no row names x. */
    method ClientClose(x: Id) returns (r: int)
      requires Valid()
      modifies rows
      ensures Valid() && (View(), r) == Close(old(View()), x)
    {
      for i := 0 to rows.Length
        invariant rows[..] == old(rows[..])
        invariant FirstRow(rows[..], x, 0) == FirstRow(rows[..], x, i)
      {
        if rows[i].id == x {
          rows[i] := rows[i].(detach := true);
          return 0;
        }
      }
      return -1;
    }

    // -------------------------------------------------------------------------------------
    // Server
    // -------------------------------------------------------------------------------------

    /** Make the pair of a slot that is reserved and has none. */
    method ServiceSlot(slot: nat, kind: QueueType) returns (r: int)
      requires Valid() && slot < rows.Length
      modifies this`kernel, rows
      ensures Valid() && (View(), r) == CoordOps.ServiceSlot(old(View()), slot, kind)
      ensures if old(reserved[slot] && !rows[slot].created) then r == old(rows[slot].id) && rows[slot].created
              else r == -1 && View() == old(View())
    {
      var id := rows[slot].id;
      if reserved[slot] && !rows[slot].created {
        var (k, request, response) := Allocate(kernel, kind, rows[slot].size, rows[slot].id, slot);
        kernel := k;
        rows[slot] := rows[slot].(request := request, response := response);
        rows[slot] := rows[slot].(created := true);
        assert rows[..] == old(rows[..])[slot := old(rows[slot]).(request := request, response := response,
          created := true)];
        return id;
      }
      return -1;
    }

    method CleanUpQueueResources(slot: nat)
      requires Valid() && slot < rows.Length
      modifies this`kernel
      ensures Valid() && View() == CleanUp(old(View()), slot)
    {
      if reserved[slot] {
        if rows[slot].detach {
          match rows[slot].kind
          case POLL =>
          case BOOST =>
          case SEM =>
            kernel := DestroyRing(kernel, rows[slot].request.shmid);
            kernel := DestroyRing(kernel, rows[slot].response.shmid);
        }
      }
    }

    method ForceClearSlot(slot: nat)
      requires Valid() && slot < rows.Length
      modifies this`kernel, rows, reserved
      ensures Valid() && View() == ForceClear(old(View()), slot)
    {
      if rows[slot].created {
        kernel := ShmRemove(kernel, rows[slot].request.shmid);
        kernel := ShmRemove(kernel, rows[slot].response.shmid);
      }
      rows[slot] := BLANK;
      reserved[slot] := false;
    }

    method ClearSlot(slot: nat)
      requires Valid() && slot < rows.Length
      modifies this`kernel, rows, reserved
      ensures Valid() && View() == CoordOps.ClearSlot(old(View()), slot)
    {
      if rows[slot].detach {
        ForceClearSlot(slot);
      }
    }

    /** The body of manage_pool's loop. */
    method ManageSlot(slot: nat)
      requires Valid() && slot < rows.Length
      modifies this`kernel, rows, reserved
      ensures Valid() && View() == Iterate(old(View()), slot)
      ensures forall p :: Resources.PoolOk(p, old(View())) ==>
        && Resources.PoolOk(p, View()) && KernelObjects.Orphans(kernel) == old(KernelObjects.Orphans(kernel))
        && (if old(rows[slot].detach) then rows[slot] == BLANK && !reserved[slot]
            else reserved[slot] == old(reserved[slot]) && (reserved[slot] ==> rows[slot].created))
    {
      hide DestroyRing, ShmRemove, Allocate, Resources.PoolOk, KernelObjects.Orphans;
      ghost var g := View();
      var _ := ServiceSlot(slot, rows[slot].kind);
      CleanUpQueueResources(slot);
      ClearSlot(slot);
      forall p | Resources.PoolOk(p, g)
        ensures Resources.PoolOk(p, View()) && KernelObjects.Orphans(kernel) == KernelObjects.Orphans(g.kernel)
        ensures if g.rows[slot].detach then rows[slot] == BLANK && !reserved[slot]
                else reserved[slot] == g.reserved[slot] && (reserved[slot] ==> rows[slot].created)
      {
        Resources.IterateKeeps(p, g, slot);
      }
    }

    /** One pass: service every slot, and clear those that asked for it. */
    method ManagePool()
      requires Valid()
      modifies this`kernel, rows, reserved
      ensures Valid() && View() == Passed(old(View()), 0)
    {
      hide CoordOps.ServiceSlot, CleanUp, CoordOps.ClearSlot;
      for i := 0 to rows.Length
        invariant Valid()
        invariant Passed(View(), i) == Passed(old(View()), 0)
      {
        ManageSlot(i);
      }
    }

    /** coord_shutdown */
    method Shutdown()
      requires Valid()
      modifies rows
      ensures Valid() && View() == DetachAll(old(View()))
    {
      for i := 0 to rows.Length
        invariant forall j :: 0 <= j < i ==> rows[j] == old(rows[j]).(detach := true)
        invariant forall j :: i <= j < rows.Length ==> rows[j] == old(rows[j])
      {
        rows[i] := rows[i].(detach := true);
      }
      assert rows[..] == DetachAll(old(View())).rows;
    }

    /** The end of shutdown, once the runner is gone: from any pool in order, which is any a run can reach between two
        iterations, nothing is left but the semaphores orphaned before. */
    method FinishShutdown()
      requires Valid()
      modifies this`kernel, rows, reserved
      ensures Valid() && View() == Passed(DetachAll(old(View())), 0)
      ensures forall p :: Resources.PoolOk(p, old(View())) ==>
        Resources.Cleared(View(), old(KernelObjects.Orphans(kernel)))
    {
      hide Resources.PoolOk, Resources.Cleared, Passed, KernelObjects.Orphans;
      ghost var g := View();
      Shutdown();
      ManagePool();
      forall p | Resources.PoolOk(p, g)
        ensures Resources.Cleared(View(), KernelObjects.Orphans(g.kernel))
      {
        Resources.LastPassClears(p, g);
      }
    }

    /** Addresses of the pair of a created slot, the first time it is asked for. */
    method CreateServerQueuePair(slot: nat) returns (r: Accepted)
      requires Valid() && slot < rows.Length && rows[slot].created
      modifies rows
      ensures r == if old(rows[slot].serverAttached) then Null(slot, old(rows[slot].id))
                   else Pair(slot, old(rows[slot].id), old(rows[slot].request), old(rows[slot].response))
      ensures rows[..] == if old(rows[slot].serverAttached) then old(rows[..])
                          else old(rows[..])[slot := old(rows[slot]).(serverAttached := true)]
    {
      var request, response := CheckSlot(slot);
      var id := GetClientId(slot);
      var attached := GetServerAttachState(slot);
      if attached {
        r := Null(slot, id);
      } else {
        var _ := SetServerAttachState(slot, true);
        r := Pair(slot, id, request, response);
      }
    }

    /** Go round the slots from accept_slot on; settle on the first that is reserved, created and undetached. */
    method Accept() returns (r: Accepted)
      requires Valid()
      modifies this`accept, rows
      ensures Valid() && (View(), r) == CoordOps.Accept(old(View()))
      ensures r.Nothing? <==>
        forall i :: 0 <= i < rows.Length ==> old(rows[i].detach || !reserved[i] || !rows[i].created)
      ensures !r.Nothing? ==>
        && r.slot < rows.Length && old(!rows[r.slot].detach && reserved[r.slot] && rows[r.slot].created)
        && r.id == old(rows[r.slot].id)
        && (r.Pair? <==> !old(rows[r.slot].serverAttached))
        && (r.Pair? ==> r.request == old(rows[r.slot].request) && r.response == old(rows[r.slot].response))
        && rows[r.slot].serverAttached
    {
      hide NextSlot;
      AcceptOrder.AcceptAnswers(View());
      var slot: nat := accept;
      for i := 0 to rows.Length
        invariant slot < rows.Length && View() == old(View())
        invariant Pick(View(), slot, rows.Length - i) == Pick(View(), accept, rows.Length)
      {
        if rows[slot].detach || !reserved[slot] {
        } else if rows[slot].created {
          accept := NextSlot(slot, rows.Length);
          r := CreateServerQueuePair(slot);
          return;
        }
        slot := NextSlot(slot, rows.Length);
      }
      return Nothing;
    }
  }
}
