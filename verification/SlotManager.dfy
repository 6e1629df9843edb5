/** What the manager's steps keep. */
module SlotManager {
  import opened Slots
  import opened SlotProtocol
  import opened SlotInvariant

  /** The manager has nothing in hand for slot j. */
  predicate Idle(m: Manager, j: nat) {
    m.i != j || m.ReadType?
  }

  /** s' differs from s only in the manager, slot i and the segments of slot i. */
  ghost predicate OnlyManaged(p: Params, s: State, s': State, i: nat)
    requires Shaped(p, s) && Shaped(p, s') && i < p.slots
  {
    && s' == s.(rows := s'.rows, reserved := s'.reserved, owner := s'.owner, manager := s'.manager, live := s'.live,
                nextShmid := s'.nextShmid)
    && s.manager.i == i && (s'.manager.i == i || s'.manager.ReadType?)
    && (forall j: nat :: j < p.slots && j != i ==> s'.rows[j] == s.rows[j] && s'.reserved[j] == s.reserved[j])
    && (forall j: nat :: j != i ==> (j in s'.owner <==> j in s.owner) && (j in s.owner ==> s'.owner[j] == s.owner[j]))
    && (i in s'.owner ==> i in s.owner && s'.owner[i] == s.owner[i])
    && s.nextShmid <= s'.nextShmid
    && Elsewhere(s.live, s'.live, i)
  }

  /** The segments of other slots are as they were. */
  ghost predicate Elsewhere(live: map<int, Segment>, live': map<int, Segment>, i: nat) {
    && (forall id :: id in live && live[id].slot != i ==> id in live' && live'[id] == live[id])
    && (forall id :: id in live' && live'[id].slot != i ==> id in live && live'[id] == live[id])
  }

  lemma {:induction false} IdleFree(j: nat, row: Row, m: Manager, m': Manager, claimed: bool)
    requires Idle(m, j) && Idle(m', j) && FreeSlot(j, row, m, claimed)
    ensures FreeSlot(j, row, m', claimed)
  {
  }

  lemma {:induction false} IdleTaken(j: nat, row: Row, m: Manager, m': Manager, x: Id, q: Client, want: Want)
    requires Idle(m, j) && Idle(m', j) && TakenSlot(j, row, m, x, q, want)
    ensures TakenSlot(j, row, m', x, q, want)
  {
    hide IsKeyOf, ServiceInv, Wiped, Tenant, SawCreated, Attached;
    assert !Servicing(m', j) && !Clearing(m', j) && !Wiping(m', j) && !Wiping(m, j);
  }

  lemma {:induction false} IdleSegments(j: nat, row: Row, m: Manager, m': Manager)
    requires Idle(m, j) && Idle(m', j)
    ensures Segments(row, m, j) == Segments(row, m', j)
  {
  }

  lemma {:induction false} IdlePair(j: nat, row: Row, m: Manager, m': Manager, live: map<int, Segment>,
                                    live': map<int, Segment>, i: nat, size: int)
    requires Idle(m, j) && Idle(m', j) && j != i && Elsewhere(live, live', i)
    requires PairInv(j, row, m, live, size)
    ensures PairInv(j, row, m', live', size)
  {
  }

  lemma {:induction false} ManagedSlots(p: Params, s: State, s': State, i: nat)
    requires Inv(p, s) && i < p.slots && Shaped(p, s') && OnlyManaged(p, s, s', i)
    requires i !in s'.owner ==> FreeSlot(i, s'.rows[i], s'.manager, Claimed(s.clients, s.mutex, i))
    requires i in s'.owner ==>
      && s.owner[i] in s.clients
      && TakenSlot(i, s'.rows[i], s'.manager, s.owner[i], s.clients[s.owner[i]], p.want[s.owner[i]])
      && PairInv(i, s'.rows[i], s'.manager, s'.live, p.want[s.owner[i]].size)
    ensures forall j :: j in s'.owner ==> j < p.slots && s'.owner[j] in s'.clients
    ensures forall j: nat :: j < p.slots && j !in s'.owner ==>
      FreeSlot(j, s'.rows[j], s'.manager, Claimed(s'.clients, s'.mutex, j))
    ensures forall j :: j in s'.owner ==>
      && TakenSlot(j, s'.rows[j], s'.manager, s'.owner[j], s'.clients[s'.owner[j]], p.want[s'.owner[j]])
      && PairInv(j, s'.rows[j], s'.manager, s'.live, p.want[s'.owner[j]].size)
  {
    hide PairInv, SegmentInv, FreeSlot, TakenSlot, Claimed, Segments, MutexInv, ClientOk, Elsewhere, ValidParams;
    forall j | j in s'.owner
      ensures j < p.slots && s'.owner[j] in s'.clients
      ensures TakenSlot(j, s'.rows[j], s'.manager, s'.owner[j], s'.clients[s'.owner[j]], p.want[s'.owner[j]])
      ensures PairInv(j, s'.rows[j], s'.manager, s'.live, p.want[s'.owner[j]].size)
    {
      if j != i {
        assert j in s.owner && s'.owner[j] == s.owner[j];
        var x := s.owner[j];
        IdleTaken(j, s.rows[j], s.manager, s'.manager, x, s.clients[x], p.want[x]);
        IdlePair(j, s.rows[j], s.manager, s'.manager, s.live, s'.live, i, p.want[x].size);
      }
    }
    forall j: nat | j < p.slots && j !in s'.owner
      ensures FreeSlot(j, s'.rows[j], s'.manager, Claimed(s'.clients, s'.mutex, j))
    {
      if j != i {
        IdleFree(j, s.rows[j], s.manager, s'.manager, Claimed(s.clients, s.mutex, j));
      }
    }
  }

  lemma {:induction false} ManagedSegments(p: Params, s: State, s': State, i: nat)
    requires Inv(p, s) && i < p.slots && Shaped(p, s') && OnlyManaged(p, s, s', i)
    requires forall id :: id in s'.live && s'.live[id].slot == i ==>
      SegmentInv(p, s'.rows, s'.manager, s'.owner, s'.term, s'.nextShmid, id, s'.live[id])
    ensures forall id :: id in s'.live ==>
      SegmentInv(p, s'.rows, s'.manager, s'.owner, s'.term, s'.nextShmid, id, s'.live[id])
  {
    hide PairInv, FreeSlot, TakenSlot, Claimed, Segments, MutexInv, ClientOk, IsKeyOf;
    forall id | id in s'.live
      ensures SegmentInv(p, s'.rows, s'.manager, s'.owner, s'.term, s'.nextShmid, id, s'.live[id])
    {
      var g := s'.live[id];
      if g.slot != i {
        assert SegmentInv(p, s.rows, s.manager, s.owner, s.term, s.nextShmid, id, s.live[id]);
        IdleSegments(g.slot, s.rows[g.slot], s.manager, s'.manager);
      }
    }
  }

  /** A manager step keeps the invariant if it does so for the slot in hand. */
  lemma {:induction false} ManagedStep(p: Params, s: State, s': State, i: nat)
    requires Inv(p, s) && i < p.slots && Shaped(p, s') && OnlyManaged(p, s, s', i)
    requires s'.reserved[i] == (i in s'.owner)
    requires i !in s'.owner ==> FreeSlot(i, s'.rows[i], s'.manager, Claimed(s.clients, s.mutex, i))
    requires i in s'.owner ==>
      && s.owner[i] in s.clients
      && TakenSlot(i, s'.rows[i], s'.manager, s.owner[i], s.clients[s.owner[i]], p.want[s.owner[i]])
      && PairInv(i, s'.rows[i], s'.manager, s'.live, p.want[s.owner[i]].size)
    requires forall y :: y in s.clients ==> ClientOk(p, s'.rows, s'.owner, s.mutex, y, s.clients[y])
    requires forall id :: id in s'.live && s'.live[id].slot == i ==>
      SegmentInv(p, s'.rows, s'.manager, s'.owner, s'.term, s'.nextShmid, id, s'.live[id])
    ensures Inv(p, s')
  {
    hide PairInv, SegmentInv, FreeSlot, TakenSlot, Claimed, Segments, ClientOk, Elsewhere, ValidParams;
    ManagedSlots(p, s, s', i);
    ManagedSegments(p, s, s', i);
  }

  /** What the invariant says about the slot the manager is at. */
  lemma {:induction false} SlotFacts(p: Params, s: State, i: nat)
    requires Inv(p, s) && i < p.slots
    ensures s.reserved[i] == (i in s.owner)
    ensures i !in s.owner ==> FreeSlot(i, s.rows[i], s.manager, Claimed(s.clients, s.mutex, i))
    ensures i in s.owner ==>
      && s.owner[i] in s.clients && s.owner[i] in p.want
      && TakenSlot(i, s.rows[i], s.manager, s.owner[i], s.clients[s.owner[i]], p.want[s.owner[i]])
      && PairInv(i, s.rows[i], s.manager, s.live, p.want[s.owner[i]].size)
    ensures forall y :: y in s.clients ==> ClientOk(p, s.rows, s.owner, s.mutex, y, s.clients[y])
    ensures forall id :: id in s.live ==>
      SegmentInv(p, s.rows, s.manager, s.owner, s.term, s.nextShmid, id, s.live[id])
  {
    hide PairInv, SegmentInv, FreeSlot, TakenSlot, Claimed, Segments, MutexInv, ClientOk, ValidParams;
  }

  /** The manager only reads. */
  lemma {:induction false} ManagerMoves(p: Params, s: State, m': Manager)
    requires Inv(p, s) && m'.i < p.slots && (m'.i == s.manager.i || m'.ReadType?)
    requires
      var i := s.manager.i;
      if i in s.owner then
        && s.owner[i] in s.clients
        && TakenSlot(i, s.rows[i], m', s.owner[i], s.clients[s.owner[i]], p.want[s.owner[i]])
        && PairInv(i, s.rows[i], m', s.live, p.want[s.owner[i]].size)
        && Segments(s.rows[i], m', i) == Segments(s.rows[i], s.manager, i)
      else
        FreeSlot(i, s.rows[i], m', Claimed(s.clients, s.mutex, i))
    ensures Inv(p, s.(manager := m'))
  {
    hide Inv, PairInv, FreeSlot, TakenSlot, Claimed, Segments, ClientOk, IsKeyOf, ValidParams;
    SlotFacts(p, s, s.manager.i);
    ManagedStep(p, s, s.(manager := m'), s.manager.i);
  }

  lemma {:induction false} ReadStepKeeps(p: Params, s: State)
    requires Inv(p, s)
    requires
      var m := s.manager;
      m.ReadType? || m.TestReserved? || m.TestCreated? || m.ReadSize? || m.ReadId?
    ensures Inv(p, ManagerStep(p, s))
  {
    hide Inv, IsKeyOf, ClientOk, SegmentInv, ValidParams, Claimed, Wiped;
    SlotFacts(p, s, s.manager.i);
    ManagerMoves(p, s, ManagerStep(p, s).manager);
  }

  lemma {:induction false} TestStepKeeps(p: Params, s: State)
    requires Inv(p, s) && (s.manager.TestDetach? || s.manager.TestSegments?)
    ensures Inv(p, ManagerStep(p, s))
  {
    hide Inv, IsKeyOf, ClientOk, SegmentInv, ValidParams, Claimed;
    SlotFacts(p, s, s.manager.i);
    ManagerMoves(p, s, ManagerStep(p, s).manager);
  }

  // ---------------------------------------------------------------------------------------
  // Making the pair
  // ---------------------------------------------------------------------------------------

  /** No live segment has the key that is about to be made. */
  lemma {:induction false} KeyFresh(p: Params, s: State, i: nat, x: Id, key: int, id: int)
    requires Inv(p, s) && i in s.owner && s.owner[i] == x && IsKeyOf(key, x) && HasKey(s.live, key, id)
    ensures i < p.slots && id in Segments(s.rows[i], s.manager, i) && s.live[id].slot == i
  {
    hide PairInv, FreeSlot, TakenSlot, Claimed, Segments, MutexInv, ClientOk, IsKeyOf;
    assert SegmentInv(p, s.rows, s.manager, s.owner, s.term, s.nextShmid, id, s.live[id]);
    OwnsOne(p, s, x);
  }

  /** Client steps do not meet the manager's stores to a slot that is being serviced or cleared. */
  predicate Unread(q: Client, i: nat) {
    HasSlot(q) && q.i == i ==> !q.Writing? && (Tenant(q) ==> q.Closed? || q.Granted? || q.Polling?)
  }

  lemma {:induction false} UnreadOk(p: Params, rows: seq<Row>, rows': seq<Row>, owner: map<nat, Id>, mutex: set<Id>,
                                    y: Id, q: Client, i: nat)
    requires |rows| == |rows'| == p.slots && y in p.want && (HasSlot(q) ==> q.i < p.slots)
    requires ClientOk(p, rows, owner, mutex, y, q) && Unread(q, i)
    requires forall j: nat :: j < p.slots && j != i ==> rows'[j] == rows[j]
    ensures ClientOk(p, rows', owner, mutex, y, q)
  {
  }

  lemma {:induction false} NobodyReads(p: Params, s: State, i: nat)
    requires Inv(p, s) && i in s.owner && (Servicing(s.manager, i) || Clearing(s.manager, i))
    ensures forall y :: y in s.clients ==> Unread(s.clients[y], i)
    ensures Clearing(s.manager, i) ==> forall y :: y in s.clients ==> Bystander(s.clients[y], i)
  {
    hide Inv, PairInv, SegmentInv, FreeSlot, Claimed, Segments, MutexInv, IsKeyOf, ServiceInv, Wiped, ValidParams;
    assert i < p.slots by { OwnerInRange(p, s, i); }
    SlotFacts(p, s, i);
    forall y | y in s.clients
      ensures Unread(s.clients[y], i)
      ensures Clearing(s.manager, i) ==> Bystander(s.clients[y], i)
    {
      assert ClientOk(p, s.rows, s.owner, s.mutex, y, s.clients[y]);
    }
  }

  lemma {:induction false} OwnerInRange(p: Params, s: State, i: nat)
    requires Inv(p, s) && i in s.owner
    ensures i < p.slots
  {
    hide PairInv, SegmentInv, FreeSlot, TakenSlot, Claimed, Segments, MutexInv, ClientOk, ValidParams;
  }

  /** The manager writes to a row that is being serviced or cleared, and its segments stay. */
  lemma {:induction false} ManagerWrites(p: Params, s: State, row: Row, m': Manager)
    requires Inv(p, s) && s.manager.i in s.owner && m'.i == s.manager.i && s.manager.i < p.slots
    requires Servicing(s.manager, s.manager.i) || Clearing(s.manager, s.manager.i)
    requires
      var i, x := s.manager.i, s.owner[s.manager.i];
      && x in s.clients
      && TakenSlot(i, row, m', x, s.clients[x], p.want[x])
      && PairInv(i, row, m', s.live, p.want[x].size)
      && Segments(row, m', i) == Segments(s.rows[i], s.manager, i)
    ensures Inv(p, s.(rows := s.rows[s.manager.i := row], manager := m'))
  {
    hide Inv, PairInv, FreeSlot, TakenSlot, Claimed, Segments, ClientOk, IsKeyOf, ValidParams, Unread, Bystander;
    var i, s' := s.manager.i, s.(rows := s.rows[s.manager.i := row], manager := m');
    SlotFacts(p, s, i);
    NobodyReads(p, s, i);
    forall y | y in s.clients
      ensures ClientOk(p, s'.rows, s'.owner, s.mutex, y, s.clients[y])
    {
      UnreadOk(p, s.rows, s'.rows, s.owner, s.mutex, y, s.clients[y], i);
    }
    ManagedStep(p, s, s', i);
  }

  lemma {:induction false} WriteStepKeeps(p: Params, s: State)
    requires Inv(p, s) && (s.manager.WriteRequest? || s.manager.WriteResponse? || s.manager.Publish?)
    ensures Inv(p, ManagerStep(p, s))
  {
    hide Inv, IsKeyOf, ClientOk, SegmentInv, ValidParams, Claimed, Wiped;
    SlotFacts(p, s, s.manager.i);
    ManagerWrites(p, s, ManagerStep(p, s).rows[s.manager.i], ManagerStep(p, s).manager);
  }

  lemma {:induction false} WipeStepKeeps(p: Params, s: State)
    requires Inv(p, s) && s.manager.Wipe?
    ensures Inv(p, ManagerStep(p, s))
  {
    hide Inv, IsKeyOf, ClientOk, SegmentInv, ValidParams, Claimed;
    SlotFacts(p, s, s.manager.i);
    ManagerWrites(p, s, WipeField(s.rows[s.manager.i], s.manager.k), ManagerStep(p, s).manager);
  }

  /** The segments of the slot in hand are the ones it answers for. */
  ghost predicate OwnSegments(p: Params, rows: seq<Row>, m: Manager, owner: map<nat, Id>, term: seq<nat>, next: int,
                              live: map<int, Segment>, i: nat)
    requires |rows| == |term| == p.slots
  {
    forall id :: id in live && live[id].slot == i ==> SegmentInv(p, rows, m, owner, term, next, id, live[id])
  }

  /** The manager changes the segments of the slot in hand. */
  lemma {:induction false} ManagerAllots(p: Params, s: State, live': map<int, Segment>, next': int, m': Manager)
    requires Inv(p, s) && s.manager.i in s.owner && m'.i == s.manager.i && s.manager.i < p.slots
    requires s.nextShmid <= next' && Elsewhere(s.live, live', s.manager.i)
    requires
      var i, x := s.manager.i, s.owner[s.manager.i];
      && x in s.clients
      && TakenSlot(i, s.rows[i], m', x, s.clients[x], p.want[x])
      && PairInv(i, s.rows[i], m', live', p.want[x].size)
      && OwnSegments(p, s.rows, m', s.owner, s.term, next', live', i)
    ensures Inv(p, s.(live := live', nextShmid := next', manager := m'))
  {
    hide Inv, PairInv, FreeSlot, TakenSlot, Claimed, Segments, ClientOk, ValidParams, SegmentInv, Elsewhere;
    SlotFacts(p, s, s.manager.i);
    ManagedStep(p, s, s.(live := live', nextShmid := next', manager := m'), s.manager.i);
  }

  /** The keys made for x are x's, differ, and are not 0. */
  lemma {:induction false} OwnKeys(ids: set<Id>, x: Id, t: QueueType)
    requires KeysApart(ids) && x in ids
    ensures IsKeyOf(RequestKey(t, x), x) && IsKeyOf(ResponseKey(t, x), x)
    ensures RequestKey(t, x) != ResponseKey(t, x) && RequestKey(t, x) != 0 && ResponseKey(t, x) != 0
  {
    hide TruncDiv;
    assert !IsKeyOf(0, x);
  }

  /** A key nobody has yet: a new segment is made. */
  lemma {:induction false} CreatesNew(s: State, key: int, kind: QueueType, i: nat)
    requires i < |s.term| && forall id :: !HasKey(s.live, key, id)
    ensures ShmCreate(s, key, kind, i) ==
      (s.(live := s.live[s.nextShmid := Segment(key, 0, kind, i, s.term[i])], nextShmid := s.nextShmid + 1),
       Info(key, s.nextShmid))
  {
  }

  lemma {:induction false} MakeRequestKeeps(p: Params, s: State)
    requires Inv(p, s) && s.manager.MakeRequest?
    ensures Inv(p, ManagerStep(p, s))
  {
    hide Inv, IsKeyOf, ClientOk, ValidParams, Claimed, Wiped, RequestKey, ResponseKey, ShmCreate;
    var i, kind, x := s.manager.i, s.manager.kind, s.manager.id;
    SlotFacts(p, s, i);
    assert KeysApart(p.want.Keys) by { ParamFacts(p, s); }
    OwnKeys(p.want.Keys, x, kind);
    var key := RequestKey(kind, x);
    forall id
      ensures !HasKey(s.live, key, id)
    {
      if HasKey(s.live, key, id) {
        KeyFresh(p, s, i, x, key, id);
      }
    }
    CreatesNew(s, key, kind, i);
    MadeRequest(p, s, x, Segment(key, 0, kind, i, s.term[i]));
  }

  lemma {:induction false} ParamFacts(p: Params, s: State)
    requires Inv(p, s)
    ensures p.slots >= 1 && KeysApart(p.want.Keys)
  {
  }

  lemma {:induction false} MadeRequest(p: Params, s: State, x: Id, g: Segment)
    requires Inv(p, s) && s.manager.MakeRequest? && s.manager.i in s.owner && s.owner[s.manager.i] == x &&
      s.manager.i < p.slots
    requires g.slot == s.manager.i && g.term == s.term[g.slot] && g.kind == s.manager.kind &&
      g.key == RequestKey(s.manager.kind, x) && IsKeyOf(g.key, x)
    ensures Inv(p, s.(live := s.live[s.nextShmid := g], nextShmid := s.nextShmid + 1,
                      manager := MakeResponse(s.manager.i, s.manager.kind, s.manager.size, s.manager.id,
                        Info(g.key, s.nextShmid))))
  {
    hide Inv, IsKeyOf, ClientOk, ValidParams, Claimed, Wiped, RequestKey, ResponseKey;
    SlotFacts(p, s, s.manager.i);
    var m := s.manager;
    NextIsNew(p, s);
    ManagerAllots(p, s, s.live[s.nextShmid := g], s.nextShmid + 1,
                  MakeResponse(m.i, m.kind, m.size, m.id, Info(g.key, s.nextShmid)));
  }

  lemma {:induction false} NextIsNew(p: Params, s: State)
    requires Inv(p, s)
    ensures s.nextShmid !in s.live
  {
    hide PairInv, FreeSlot, TakenSlot, Claimed, Segments, MutexInv, ClientOk, ValidParams;
  }

  lemma {:induction false} MakeResponseKeeps(p: Params, s: State)
    requires Inv(p, s) && s.manager.MakeResponse?
    ensures Inv(p, ManagerStep(p, s))
  {
    hide Inv, IsKeyOf, ClientOk, ValidParams, Claimed, Wiped, RequestKey, ResponseKey, ShmCreate;
    var i, kind, x := s.manager.i, s.manager.kind, s.manager.id;
    SlotFacts(p, s, i);
    assert KeysApart(p.want.Keys) by { ParamFacts(p, s); }
    OwnKeys(p.want.Keys, x, kind);
    var key := ResponseKey(kind, x);
    forall id
      ensures !HasKey(s.live, key, id)
    {
      if HasKey(s.live, key, id) {
        KeyFresh(p, s, i, x, key, id);
      }
    }
    CreatesNew(s, key, kind, i);
    MadeResponse(p, s, x, Segment(key, 0, kind, i, s.term[i]));
  }

  lemma {:induction false} MadeResponse(p: Params, s: State, x: Id, g: Segment)
    requires Inv(p, s) && s.manager.MakeResponse? && s.manager.i in s.owner && s.owner[s.manager.i] == x &&
      s.manager.i < p.slots
    requires g.slot == s.manager.i && g.term == s.term[g.slot] && g.kind == s.manager.kind &&
      g.key == ResponseKey(s.manager.kind, x)
    ensures Inv(p, s.(live := s.live[s.nextShmid := g], nextShmid := s.nextShmid + 1,
                      manager := FormatRequest(s.manager.i, s.manager.size, s.manager.request,
                        Info(g.key, s.nextShmid))))
  {
    hide Inv, IsKeyOf, ClientOk, ValidParams, Claimed, Wiped, RequestKey, ResponseKey;
    SlotFacts(p, s, s.manager.i);
    var m := s.manager;
    NextIsNew(p, s);
    assert KeysApart(p.want.Keys) by { ParamFacts(p, s); }
    OwnKeys(p.want.Keys, x, m.kind);
    ManagerAllots(p, s, s.live[s.nextShmid := g], s.nextShmid + 1,
                  FormatRequest(m.i, m.size, m.request, Info(g.key, s.nextShmid)));
  }

  /** queue_create on one of the two segments. */
  lemma {:induction false} FormatKeeps(p: Params, s: State)
    requires Inv(p, s) && (s.manager.FormatRequest? || s.manager.FormatResponse?)
    ensures Inv(p, ManagerStep(p, s))
  {
    hide Inv, IsKeyOf, ClientOk, ValidParams, Claimed, Wiped;
    SlotFacts(p, s, s.manager.i);
    var s' := ManagerStep(p, s);
    ManagerAllots(p, s, s'.live, s.nextShmid, s'.manager);
  }

  /** shm_remove on one of the two segments. */
  lemma {:induction false} RemoveKeeps(p: Params, s: State)
    requires Inv(p, s) && (s.manager.RemoveRequest? || s.manager.RemoveResponse?)
    ensures Inv(p, ManagerStep(p, s))
  {
    hide Inv, IsKeyOf, ClientOk, ValidParams, Claimed;
    SlotFacts(p, s, s.manager.i);
    var s' := ManagerStep(p, s);
    ManagerAllots(p, s, s'.live, s.nextShmid, s'.manager);
  }

  /** The slot is given up. */
  lemma {:induction false} ReleaseKeeps(p: Params, s: State)
    requires Inv(p, s) && s.manager.Release?
    ensures Inv(p, ManagerStep(p, s))
  {
    hide Inv, IsKeyOf, ClientOk, ValidParams, Claimed, Bystander;
    var i, s' := s.manager.i, ManagerStep(p, s);
    SlotFacts(p, s, i);
    NobodyReads(p, s, i);
    forall y | y in s.clients
      ensures ClientOk(p, s'.rows, s'.owner, s.mutex, y, s.clients[y])
    {
      BystanderOk(p, s.rows, s'.rows, s.owner, s'.owner, s.mutex, s.mutex, y, s.clients[y], i);
    }
    ManagedStep(p, s, s', i);
  }

  lemma {:induction false} ManagerKeeps(p: Params, s: State)
    requires Inv(p, s)
    ensures Inv(p, ManagerStep(p, s))
  {
    hide Inv, ManagerStep;
    var m := s.manager;
    if m.ReadType? || m.TestReserved? || m.TestCreated? || m.ReadSize? || m.ReadId? {
      ReadStepKeeps(p, s);
    } else if m.MakeRequest? {
      MakeRequestKeeps(p, s);
    } else if m.MakeResponse? {
      MakeResponseKeeps(p, s);
    } else if m.FormatRequest? || m.FormatResponse? {
      FormatKeeps(p, s);
    } else if m.WriteRequest? || m.WriteResponse? || m.Publish? {
      WriteStepKeeps(p, s);
    } else if m.TestDetach? || m.TestSegments? {
      TestStepKeeps(p, s);
    } else if m.RemoveRequest? || m.RemoveResponse? {
      RemoveKeeps(p, s);
    } else if m.Wipe? {
      WipeStepKeeps(p, s);
    } else {
      ReleaseKeeps(p, s);
    }
  }
}
