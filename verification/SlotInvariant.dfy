/** What every step of the slot protocol keeps. */
module SlotInvariant {
  import opened Slots
  import opened SlotProtocol

  /** The client owns its slot (Closed: until the slot is released). */
  predicate Tenant(q: Client) {
    HasSlot(q) && !q.Scanning? && !q.Writing?
  }

  /** The client has found shm_created set. */
  predicate SawCreated(q: Client) {
    Tenant(q) && !q.Granted? && !q.Polling?
  }

  predicate Attached(q: Client) {
    q.Open? || q.Searching? || q.Detaching? || q.Closed?
  }

  predicate InsideRequest(q: Client) {
    q.Scanning? || q.Writing? || q.Refused? || q.Granted?
  }

  /** Rows compared without the flag the accepting thread writes. */
  predicate Same(a: Row, b: Row) {
    a.(serverAttached := false) == b.(serverAttached := false)
  }

  /** A blank row after k stores of request_slot. */
  function Partial(x: Id, want: Want, k: nat): (r: Row) {
    BLANK.(id := if k >= 1 then x else 0, size := if k >= 2 then want.size else 0,
           kind := if k >= 4 then want.kind else POLL)
  }

  /** The first k fields have been zeroed. */
  predicate Wiped(row: Row, k: nat) {
    && (k >= 1 ==> row.id == 0) && (k >= 2 ==> row.size == 0) && (k >= 3 ==> row.kind == POLL)
    && (k >= 4 ==> !row.created) && (k >= 5 ==> !row.clientAttached)
    && (k >= 7 ==> row.request == Info(0, 0) && row.response == Info(0, 0))
    && (k >= 8 ==> !row.detach)
  }

  /** The manager is creating the segments of slot i. */
  predicate Servicing(m: Manager, i: nat) {
    && m.i == i
    && (|| m.ReadSize? || m.ReadId? || m.MakeRequest? || m.MakeResponse? || m.FormatRequest? || m.FormatResponse?
        || m.WriteRequest? || m.WriteResponse? || m.Publish?)
  }

  predicate HasBoth(m: Manager) {
    m.FormatRequest? || m.FormatResponse? || m.WriteRequest? || m.WriteResponse? || m.Publish?
  }

  /** The manager has seen slot i's detach flag and is clearing it. */
  predicate Clearing(m: Manager, i: nat) {
    m.i == i && (m.TestSegments? || m.RemoveRequest? || m.RemoveResponse? || m.Wipe? || m.Release?)
  }

  predicate Wiping(m: Manager, i: nat) {
    m.i == i && (m.Wipe? || m.Release?)
  }

  /** The segments slot i is answerable for, by shmid. */
  function Segments(row: Row, m: Manager, i: nat): (ids: set<int>) {
    if m.i == i && m.MakeResponse? then {m.request.shmid}
    else if m.i == i && HasBoth(m) then {m.request.shmid, m.response.shmid}
    else if m.i == i && m.RemoveResponse? then {row.response.shmid}
    else if Wiping(m, i) || !row.created then {}
    else {row.request.shmid, row.response.shmid}
  }

  /** The client holding the mutex is filling in the row of slot i. */
  ghost predicate Claimed(clients: map<Id, Client>, mutex: set<Id>, i: nat) {
    exists x :: x in mutex && x in clients && clients[x].Writing? && clients[x].i == i
  }

  /** A slot nobody has reserved: blank, unless it is being filled in. */
  predicate FreeSlot(i: nat, row: Row, m: Manager, claimed: bool) {
    && (m.i == i ==> m.ReadType? || m.TestReserved? || m.TestDetach?)
    && (!claimed ==> Same(row, BLANK))
    && !row.created && !row.detach
    && KindRead(m, i, row.kind)
  }

  /** The queue type the manager goes by was read before the row was filled in, or is the row's. */
  predicate KindRead(m: Manager, i: nat, kind: QueueType) {
    m.i == i && (m.TestReserved? || m.TestCreated? || m.ReadSize? || m.ReadId? || m.MakeRequest? || m.MakeResponse?) ==>
      m.kind == POLL || m.kind == kind
  }

  /** What the manager has read or made so far for the slot it services belongs to the slot's owner. */
  predicate ServiceInv(m: Manager, x: Id, want: Want) {
    && (m.ReadId? || m.MakeRequest? || m.MakeResponse? || m.FormatRequest? || m.FormatResponse? ==> m.size == want.size)
    && (m.MakeRequest? || m.MakeResponse? ==> m.id == x)
    && (m.MakeResponse? ==> m.request.key == RequestKey(m.kind, x))
    && (HasBoth(m) ==>
          && m.request.key != 0 && m.response.key != 0
          && IsKeyOf(m.request.key, x) && IsKeyOf(m.response.key, x))
  }

  /** A slot reserved by client x, which is at q: its row is x's until it is wiped, and it is wiped only
      after x has detached. */
  predicate TakenSlot(i: nat, row: Row, m: Manager, x: Id, q: Client, want: Want) {
    && Tenant(q) && q.i == i && KindRead(m, i, want.kind)
    && (Clearing(m, i) ==> q.Closed?)
    && (Servicing(m, i) ==> !row.created && ServiceInv(m, x, want))
    && (m.i == i && (m.RemoveRequest? || m.RemoveResponse?) ==> row.created)
    && (m.i == i && m.WriteResponse? ==> row.request == m.request)
    && (m.i == i && m.Publish? ==> row.request == m.request && row.response == m.response)
    && (if Wiping(m, i) then
          && Wiped(row, if m.Wipe? then m.k else 8) && (row.id == 0 || row.id == x) && (m.Wipe? ==> row.detach)
        else
          && row.id == x && row.size == want.size && row.kind == want.kind
          && row.detach == q.Closed?
          && row.clientAttached == Attached(q)
          && (SawCreated(q) ==> row.created)
          && (row.created ==>
                && row.request.key != 0 && row.response.key != 0
                && IsKeyOf(row.request.key, x) && IsKeyOf(row.response.key, x)))
  }

  /** What client x, at q, knows; `row` is the row of the slot it is concerned with. */
  predicate ClientInv(x: Id, q: Client, want: Want, holding: bool, taken: bool, mine: bool, row: Row) {
    && (holding <==> InsideRequest(q))
    && (q.Writing? ==> q.k <= 7 && !taken && Same(row, Partial(x, want, q.k)))
    && (Tenant(q) && !q.Closed? ==> mine)
    && (q.Checking? || q.CopyingRequest? || q.CopyingResponse? || q.Identifying? ==> !q.again)
    && (q.CopyingResponse? ==> q.request == row.request)
    && (q.Identifying? || q.TestingAttach? || q.SettingAttach? || q.Open? ==>
          q.request == row.request && q.response == row.response)
    && (q.TestingAttach? || q.SettingAttach? || q.Open? ==> q.id == x)
    && (q.Searching? ==> q.j <= q.i)
    && (q.Detaching? ==> q.j == q.i)
  }

  ghost predicate ClientOk(p: Params, rows: seq<Row>, owner: map<nat, Id>, mutex: set<Id>, x: Id, q: Client)
    requires |rows| == p.slots && x in p.want && (HasSlot(q) ==> q.i < p.slots)
  {
    ClientInv(x, q, p.want[x], x in mutex, HasSlot(q) && q.i in owner, HasSlot(q) && q.i in owner && owner[q.i] == x,
              if HasSlot(q) then rows[q.i] else BLANK)
  }

  /** A live segment belongs to a reserved slot, was made in its present tenancy with a key of its
      owner, and is one the slot answers for. */
  ghost predicate SegmentInv(p: Params, rows: seq<Row>, m: Manager, owner: map<nat, Id>, term: seq<nat>, next: int,
                             id: int, g: Segment)
    requires |rows| == |term| == p.slots
  {
    && id < next
    && g.slot < p.slots && g.slot in owner && g.term == term[g.slot]
    && IsKeyOf(g.key, owner[g.slot])
    && (owner[g.slot] in p.want ==> g.kind == POLL || g.kind == p.want[owner[g.slot]].kind)
    && id in Segments(rows[g.slot], m, g.slot)
  }

  /** A segment is live with this key and layout. */
  predicate LaidOut(live: map<int, Segment>, info: Info, i: nat, size: int) {
    info.shmid in live && live[info.shmid].key == info.key && live[info.shmid].slot == i &&
      live[info.shmid].format == size
  }

  predicate Made(live: map<int, Segment>, info: Info, i: nat) {
    info.shmid in live && live[info.shmid].key == info.key && live[info.shmid].slot == i
  }

  /** The segments slot i answers for are live, and laid out for its owner once the row says so. */
  predicate PairInv(i: nat, row: Row, m: Manager, live: map<int, Segment>, size: int) {
    && (m.i == i && m.MakeResponse? ==> Made(live, m.request, i))
    && (m.i == i && HasBoth(m) ==>
          && m.request.shmid != m.response.shmid && Made(live, m.request, i) && Made(live, m.response, i)
          && (!m.FormatRequest? ==> LaidOut(live, m.request, i, size))
          && (!m.FormatRequest? && !m.FormatResponse? ==> LaidOut(live, m.response, i, size)))
    && (row.created && !(m.i == i && m.RemoveResponse?) && !Wiping(m, i) ==>
          && row.request.shmid != row.response.shmid
          && LaidOut(live, row.request, i, size) && LaidOut(live, row.response, i, size))
    && (row.created && m.i == i && m.RemoveResponse? ==> Made(live, row.response, i) && row.request.shmid !in live)
  }

  /** The mutex is held by at most one client. */
  ghost predicate MutexInv(clients: map<Id, Client>, mutex: set<Id>) {
    && (forall x, y :: x in mutex && y in mutex ==> x == y)
    && mutex <= clients.Keys
  }

  ghost predicate Inv(p: Params, s: State)
    ensures Inv(p, s) ==> ValidParams(p) && Shaped(p, s)
  {
    && ValidParams(p) && Shaped(p, s) && MutexInv(s.clients, s.mutex)
    && (forall i :: i in s.owner ==> i < p.slots && s.owner[i] in s.clients)
    && (forall i: nat :: i < p.slots ==> s.reserved[i] == (i in s.owner))
    && (forall i: nat :: i < p.slots && i !in s.owner ==>
          FreeSlot(i, s.rows[i], s.manager, Claimed(s.clients, s.mutex, i)))
    && (forall i :: i in s.owner ==>
          TakenSlot(i, s.rows[i], s.manager, s.owner[i], s.clients[s.owner[i]], p.want[s.owner[i]]))
    && (forall x :: x in s.clients ==> ClientOk(p, s.rows, s.owner, s.mutex, x, s.clients[x]))
    && (forall id :: id in s.live ==> SegmentInv(p, s.rows, s.manager, s.owner, s.term, s.nextShmid, id, s.live[id]))
    && (forall i :: i in s.owner ==> PairInv(i, s.rows[i], s.manager, s.live, p.want[s.owner[i]].size))
  }

  lemma {:induction false} InitInv(p: Params)
    requires ValidParams(p)
    ensures Inv(p, Init(p))
  {
  }

  // ---------------------------------------------------------------------------------------
  // Client steps
  // ---------------------------------------------------------------------------------------

  /** A client that only changes its own position, and not its claim on a slot. */
  lemma {:induction false} ClientMoves(p: Params, s: State, x: Id, q': Client)
    requires Inv(p, s) && x in s.clients
    requires Shaped(p, s.(clients := s.clients[x := q'])) && ClientOk(p, s.rows, s.owner, s.mutex, x, q')
    requires
      var q := s.clients[x];
      && (q'.Writing? <==> q.Writing?) && (q.Writing? ==> q'.i == q.i)
      && (!Tenant(q') ==> x !in s.owner.Values)
      && (Tenant(q') ==> Tenant(q) && q'.i == q.i && q.Closed? == q'.Closed? && Attached(q) == Attached(q'))
      && (Tenant(q') && SawCreated(q') && !q.Closed? ==> s.rows[q.i].created)
    ensures Inv(p, s.(clients := s.clients[x := q']))
  {
    hide PairInv, SegmentInv, ClientOk, FreeSlot;
    var s' := s.(clients := s.clients[x := q']);
    forall i: nat
      ensures Claimed(s'.clients, s.mutex, i) == Claimed(s.clients, s.mutex, i)
    {
      if y :| y in s.mutex && y in s.clients && s.clients[y].Writing? && s.clients[y].i == i {
        assert s'.clients[y].Writing? && s'.clients[y].i == i;
      }
    }
    forall i | i in s.owner
      ensures TakenSlot(i, s.rows[i], s.manager, s.owner[i], s'.clients[s.owner[i]], p.want[s.owner[i]])
    {
      assert s.owner[i] in s.owner.Values;
    }
  }

  /** The client that holds the mutex is the only one that can be filling in a row. */
  lemma {:induction false} ClaimedByHolder(p: Params, s: State, x: Id, i: nat)
    requires Inv(p, s) && x in s.mutex
    ensures Claimed(s.clients, s.mutex, i) <==> s.clients[x].Writing? && s.clients[x].i == i
  {
    hide PairInv, SegmentInv, ClientOk, FreeSlot, TakenSlot;
    if s.clients[x].Writing? && s.clients[x].i == i {
      assert x in s.mutex && x in s.clients;
    }
  }

  /** What the invariant says about one client and the slot it owns. */
  lemma {:induction false} ClientFacts(p: Params, s: State, x: Id)
    requires Inv(p, s) && x in s.clients
    ensures ClientOk(p, s.rows, s.owner, s.mutex, x, s.clients[x])
    ensures
      var q := s.clients[x];
      Tenant(q) && !q.Closed? ==>
        && q.i in s.owner && s.owner[q.i] == x && s.reserved[q.i]
        && TakenSlot(q.i, s.rows[q.i], s.manager, x, q, p.want[x])
        && PairInv(q.i, s.rows[q.i], s.manager, s.live, p.want[x].size)
  {
    hide PairInv, SegmentInv, FreeSlot, TakenSlot;
  }

  lemma {:induction false} MutexFacts(p: Params, s: State)
    requires Inv(p, s)
    ensures MutexInv(s.clients, s.mutex)
    ensures forall i: nat :: i < p.slots ==> s.reserved[i] == (i in s.owner)
  {
    hide PairInv, SegmentInv, FreeSlot, TakenSlot, ClientOk;
  }

  lemma {:induction false} FreeFacts(p: Params, s: State, i: nat)
    requires Inv(p, s) && i < p.slots && i !in s.owner
    ensures FreeSlot(i, s.rows[i], s.manager, Claimed(s.clients, s.mutex, i)) && !s.reserved[i]
  {
    hide PairInv, SegmentInv, TakenSlot, ClientOk;
  }

  /** Client y has nothing at stake in slot i. */
  predicate Bystander(q: Client, i: nat) {
    HasSlot(q) && q.i == i ==> !q.Writing? && (Tenant(q) ==> q.Closed?)
  }

  lemma {:induction false} BystanderOk(p: Params, rows: seq<Row>, rows': seq<Row>, owner: map<nat, Id>,
                                       owner': map<nat, Id>, mutex: set<Id>, mutex': set<Id>, y: Id, q: Client,
                                       i: nat)
    requires |rows| == |rows'| == p.slots && y in p.want && (HasSlot(q) ==> q.i < p.slots)
    requires ClientOk(p, rows, owner, mutex, y, q) && Bystander(q, i) && (y in mutex <==> y in mutex')
    requires forall j: nat :: j < p.slots && j != i ==> rows'[j] == rows[j]
    requires forall j: nat :: j != i ==> (j in owner' <==> j in owner) && (j in owner ==> owner'[j] == owner[j])
    ensures ClientOk(p, rows', owner', mutex', y, q)
  {
  }

  /** s' differs from s only in client x, the mutex and slot i. */
  ghost predicate OnlySlot(p: Params, s: State, s': State, x: Id, q': Client, i: nat)
    requires Shaped(p, s) && Shaped(p, s') && i < p.slots
  {
    && s' == s.(rows := s'.rows, reserved := s'.reserved, owner := s'.owner, term := s'.term, mutex := s'.mutex,
                clients := s.clients[x := q'])
    && (forall j: nat :: j < p.slots && j != i ==>
          s'.rows[j] == s.rows[j] && s'.reserved[j] == s.reserved[j] && s'.term[j] == s.term[j])
    && (forall j: nat :: j != i ==> (j in s'.owner <==> j in s.owner) && (j in s.owner ==> s'.owner[j] == s.owner[j]))
    && (forall y :: y != x ==> (y in s.mutex <==> y in s'.mutex))
    && (i in s.owner ==> i in s'.owner && s'.owner[i] == s.owner[i] && s'.term[i] == s.term[i])
  }

  /** A step of client x that concerns slot i only. */
  lemma {:induction false} LocalStep(p: Params, s: State, s': State, x: Id, q': Client, i: nat)
    requires Inv(p, s) && x in s.clients && i < p.slots && Shaped(p, s')
    requires OnlySlot(p, s, s', x, q', i)
    requires forall j :: j in s.owner && j != i ==> s.owner[j] != x
    requires forall y :: y in s.clients && y != x ==> Bystander(s.clients[y], i)
    requires MutexInv(s'.clients, s'.mutex)
    requires forall j: nat :: j != i && j !in s.owner ==>
      Claimed(s'.clients, s'.mutex, j) == Claimed(s.clients, s.mutex, j)
    requires ClientOk(p, s'.rows, s'.owner, s'.mutex, x, q')
    requires s'.reserved[i] == (i in s'.owner)
    requires i !in s'.owner ==> FreeSlot(i, s'.rows[i], s.manager, Claimed(s'.clients, s'.mutex, i))
    requires i in s'.owner ==> s'.owner[i] == x && TakenSlot(i, s'.rows[i], s.manager, x, q', p.want[x])
    requires i in s'.owner ==> PairInv(i, s'.rows[i], s.manager, s.live, p.want[x].size)
    requires i in s.owner ==> Segments(s'.rows[i], s.manager, i) == Segments(s.rows[i], s.manager, i)
    ensures Inv(p, s')
  {
    hide PairInv, FreeSlot, TakenSlot, Claimed, Segments, MutexInv, ClientOk, SegmentInv, Bystander, ValidParams;
    forall j | j in s'.owner
      ensures j < p.slots && s'.owner[j] in s'.clients
      ensures TakenSlot(j, s'.rows[j], s'.manager, s'.owner[j], s'.clients[s'.owner[j]], p.want[s'.owner[j]])
      ensures PairInv(j, s'.rows[j], s'.manager, s'.live, p.want[s'.owner[j]].size)
    {
      if j != i {
        assert j in s.owner && s.owner[j] != x;
      }
    }
    LocalClients(p, s, s', x, q', i);
    LocalSegments(p, s, s', x, q', i);
  }

  lemma {:induction false} LocalClients(p: Params, s: State, s': State, x: Id, q': Client, i: nat)
    requires Inv(p, s) && x in s.clients && i < p.slots && Shaped(p, s') && OnlySlot(p, s, s', x, q', i)
    requires forall y :: y in s.clients && y != x ==> Bystander(s.clients[y], i)
    requires ClientOk(p, s'.rows, s'.owner, s'.mutex, x, q')
    ensures forall y :: y in s'.clients ==> ClientOk(p, s'.rows, s'.owner, s'.mutex, y, s'.clients[y])
  {
    hide PairInv, FreeSlot, TakenSlot, Claimed, Segments, MutexInv, ClientOk, SegmentInv, Bystander;
    forall y | y in s'.clients
      ensures ClientOk(p, s'.rows, s'.owner, s'.mutex, y, s'.clients[y])
    {
      if y != x {
        BystanderOk(p, s.rows, s'.rows, s.owner, s'.owner, s.mutex, s'.mutex, y, s.clients[y], i);
      }
    }
  }

  lemma {:induction false} LocalSegments(p: Params, s: State, s': State, x: Id, q': Client, i: nat)
    requires Inv(p, s) && i < p.slots && Shaped(p, s') && OnlySlot(p, s, s', x, q', i)
    requires i in s.owner ==> Segments(s'.rows[i], s.manager, i) == Segments(s.rows[i], s.manager, i)
    ensures forall id :: id in s'.live ==>
      SegmentInv(p, s'.rows, s'.manager, s'.owner, s'.term, s'.nextShmid, id, s'.live[id])
  {
    hide PairInv, FreeSlot, TakenSlot, Claimed, Segments, MutexInv, ClientOk;
    forall id | id in s'.live
      ensures SegmentInv(p, s'.rows, s'.manager, s'.owner, s'.term, s'.nextShmid, id, s'.live[id])
    {
      assert SegmentInv(p, s.rows, s.manager, s.owner, s.term, s.nextShmid, id, s.live[id]);
    }
  }

  /** Only its owner, and the client filling it in, have a stake in a slot. */
  lemma {:induction false} Bystanders(p: Params, s: State, x: Id, i: nat)
    requires Inv(p, s) && x in s.clients && i < p.slots
    requires i in s.owner ==> s.owner[i] == x
    requires i !in s.owner ==> x in s.mutex
    ensures forall y :: y in s.clients && y != x ==> Bystander(s.clients[y], i)
  {
    hide PairInv, SegmentInv, FreeSlot, TakenSlot;
    forall y | y in s.clients && y != x
      ensures Bystander(s.clients[y], i)
    {
      assert ClientOk(p, s.rows, s.owner, s.mutex, y, s.clients[y]);
    }
  }

  /** A client owns at most the slot it is concerned with. */
  lemma {:induction false} OwnsOne(p: Params, s: State, x: Id)
    requires Inv(p, s) && x in s.clients
    ensures forall j :: j in s.owner && s.owner[j] == x ==> Tenant(s.clients[x]) && s.clients[x].i == j
  {
    hide PairInv, SegmentInv, FreeSlot, ClientOk;
  }

  /** Another client is not concerned with x taking or giving back the mutex. */
  lemma {:induction false} MutexMoves(p: Params, s: State, x: Id, mutex: set<Id>, q': Client)
    requires Inv(p, s) && x in s.clients && Shaped(p, s.(clients := s.clients[x := q']))
    requires (s.mutex == {} && mutex == {x}) || (x in s.mutex && mutex == {})
    requires !s.clients[x].Writing? && !q'.Writing?
    requires ClientOk(p, s.rows, s.owner, mutex, x, q')
    requires forall j :: j in s.owner && s.owner[j] == x ==>
      TakenSlot(j, s.rows[j], s.manager, x, q', p.want[x])
    ensures Inv(p, s.(mutex := mutex, clients := s.clients[x := q']))
  {
    hide PairInv, SegmentInv, FreeSlot, TakenSlot, ClientOk, Claimed, ValidParams;
    var s' := s.(mutex := mutex, clients := s.clients[x := q']);
    forall i: nat
      ensures Claimed(s'.clients, mutex, i) == Claimed(s.clients, s.mutex, i) == false
    {
      NotClaimed(s.clients, s.mutex, x, i);
      NotClaimed(s'.clients, mutex, x, i);
    }
    forall y | y in s'.clients && y != x
      ensures ClientOk(p, s.rows, s.owner, mutex, y, s.clients[y])
    {
      SameHolding(p, s.rows, s.owner, s.mutex, mutex, y, s.clients[y]);
    }
  }

  lemma {:induction false} NotClaimed(clients: map<Id, Client>, mutex: set<Id>, x: Id, i: nat)
    requires x in clients && !clients[x].Writing? && forall y :: y in mutex ==> y == x
    ensures !Claimed(clients, mutex, i)
  {
  }

  lemma {:induction false} SameHolding(p: Params, rows: seq<Row>, owner: map<nat, Id>, mutex: set<Id>, mutex': set<Id>,
                                       y: Id, q: Client)
    requires |rows| == p.slots && y in p.want && (HasSlot(q) ==> q.i < p.slots)
    requires ClientOk(p, rows, owner, mutex, y, q) && (y in mutex <==> y in mutex')
    ensures ClientOk(p, rows, owner, mutex', y, q)
  {
  }

  /** Taking and giving back the mutex. */
  lemma {:induction false} LockKeeps(p: Params, s: State, x: Id)
    requires Inv(p, s) && Enabled(p, s, ClientMove(x))
    requires s.clients[x].Locking? || s.clients[x].Refused? || s.clients[x].Granted?
    ensures Inv(p, ClientStep(p, s, x))
  {
    hide Inv, PairInv, IsKeyOf;
    OwnsOne(p, s, x);
    ClientFacts(p, s, x);
    match s.clients[x]
    case Locking => MutexMoves(p, s, x, {x}, Scanning(0));
    case Refused => MutexMoves(p, s, x, {}, Locking);
    case Granted(i) => MutexMoves(p, s, x, {}, Polling(i));
  }

  /** Looking for a free slot. */
  lemma {:induction false} ScanKeeps(p: Params, s: State, x: Id)
    requires Inv(p, s) && Enabled(p, s, ClientMove(x)) && s.clients[x].Scanning?
    ensures Inv(p, ClientStep(p, s, x))
  {
    hide Inv;
    MutexFacts(p, s);
    OwnsOne(p, s, x);
    if s.clients[x].i in s.owner {
      ScanOn(p, s, x, ClientStep(p, s, x).clients[x]);
    } else {
      ScanStops(p, s, x);
    }
  }

  /** The slot is free: start filling in its row. */
  lemma {:induction false} ScanStops(p: Params, s: State, x: Id)
    requires Inv(p, s) && Enabled(p, s, ClientMove(x)) && s.clients[x].Scanning? && s.clients[x].i !in s.owner
    ensures Inv(p, s.(clients := s.clients[x := Writing(s.clients[x].i, 0)]))
  {
    hide Inv, IsKeyOf;
    var i, s' := s.clients[x].i, s.(clients := s.clients[x := Writing(s.clients[x].i, 0)]);
    ClientFacts(p, s, x);
    MutexFacts(p, s);
    FreeFacts(p, s, i);
    forall j: nat
      ensures Claimed(s'.clients, s.mutex, j) == (j == i) && !Claimed(s.clients, s.mutex, j)
    {
      ClaimedByHolder(p, s, x, j);
      if j == i {
        assert x in s.mutex && x in s'.clients && s'.clients[x].Writing? && s'.clients[x].i == j;
      }
    }
    Bystanders(p, s, x, i);
    OwnsOne(p, s, x);
    FreeIsBlank(i, s.rows[i], s.manager);
    LocalStep(p, s, s', x, Writing(i, 0), i);
  }

  /** The slot is taken: go on. */
  lemma {:induction false} ScanOn(p: Params, s: State, x: Id, q': Client)
    requires Inv(p, s) && x in s.clients && s.clients[x].Scanning? && x !in s.owner.Values
    requires (q'.Scanning? && q'.i < p.slots) || q'.Refused?
    ensures Inv(p, s.(clients := s.clients[x := q']))
  {
    hide PairInv, SegmentInv, FreeSlot;
    assert ClientOk(p, s.rows, s.owner, s.mutex, x, s.clients[x]);
    ClientMoves(p, s, x, q');
  }

  lemma {:induction false} FreeIsBlank(i: nat, row: Row, m: Manager)
    requires FreeSlot(i, row, m, false)
    ensures Same(row, BLANK) && FreeSlot(i, row, m, true)
  {
  }

  /** Filling in the row of a free slot. */
  lemma {:induction false} WriteKeeps(p: Params, s: State, x: Id)
    requires Inv(p, s) && Enabled(p, s, ClientMove(x)) && s.clients[x].Writing? && s.clients[x].k < 7
    ensures Inv(p, ClientStep(p, s, x))
  {
    hide Inv, IsKeyOf, Claimed, PairInv, TakenSlot, ServiceInv, Bystander, ClientStep;
    var q, s' := s.clients[x], ClientStep(p, s, x);
    WriteIs(p, s, x);
    ClientFacts(p, s, x);
    MutexFacts(p, s);
    FreeFacts(p, s, q.i);
    WriterClaims(p, s, x, Writing(q.i, q.k + 1));
    Bystanders(p, s, x, q.i);
    OwnsOne(p, s, x);
    LocalStep(p, s, s', x, Writing(q.i, q.k + 1), q.i);
  }

  lemma {:induction false} WriteIs(p: Params, s: State, x: Id)
    requires Shaped(p, s) && x in s.clients && s.clients[x].Writing?
    ensures
      var i, k := s.clients[x].i, s.clients[x].k;
      ClientStep(p, s, x) ==
        if k < 7 then
          s.(rows := s.rows[i := WriteField(s.rows[i], k, x, p.want[x])], clients := s.clients[x := Writing(i, k + 1)])
        else
          s.(reserved := s.reserved[i := true], owner := s.owner[i := x], term := s.term[i := s.term[i] + 1],
             clients := s.clients[x := Granted(i)])
  {
  }

  /** The slot a client is filling in is the one that is claimed. */
  lemma {:induction false} WriterClaims(p: Params, s: State, x: Id, q': Client)
    requires Inv(p, s) && x in s.clients && s.clients[x].Writing? && (q'.Writing? ==> q'.i == s.clients[x].i)
    ensures forall j: nat ::
      && Claimed(s.clients, s.mutex, j) == (j == s.clients[x].i)
      && Claimed(s.clients[x := q'], s.mutex, j) == (q'.Writing? && j == s.clients[x].i)
  {
    hide Inv, FreeSlot, TakenSlot, PairInv;
    ClientFacts(p, s, x);
    MutexFacts(p, s);
    forall j: nat
      ensures Claimed(s.clients, s.mutex, j) == (j == s.clients[x].i)
      ensures Claimed(s.clients[x := q'], s.mutex, j) == (q'.Writing? && j == s.clients[x].i)
    {
      ClaimedByHolder(p, s, x, j);
      if j == s.clients[x].i && q'.Writing? {
        assert x in s.mutex && s.clients[x := q'][x].Writing? && s.clients[x := q'][x].i == j;
      }
    }
  }

  /** The reservation. */
  lemma {:induction false} ReserveKeeps(p: Params, s: State, x: Id)
    requires Inv(p, s) && Enabled(p, s, ClientMove(x)) && s.clients[x].Writing? && s.clients[x].k >= 7
    ensures Inv(p, ClientStep(p, s, x))
  {
    hide Inv, IsKeyOf, Claimed, Bystander, ClientStep;
    var q, s' := s.clients[x], ClientStep(p, s, x);
    WriteIs(p, s, x);
    ClientFacts(p, s, x);
    MutexFacts(p, s);
    FreeFacts(p, s, q.i);
    WriterClaims(p, s, x, Granted(q.i));
    Bystanders(p, s, x, q.i);
    OwnsOne(p, s, x);
    LocalStep(p, s, s', x, Granted(q.i), q.i);
  }

  lemma {:induction false} OthersClaim(clients: map<Id, Client>, mutex: set<Id>, x: Id, q': Client)
    requires x in clients && !clients[x].Writing? && !q'.Writing?
    ensures forall j: nat :: Claimed(clients[x := q'], mutex, j) == Claimed(clients, mutex, j)
  {
    forall j: nat
      ensures Claimed(clients[x := q'], mutex, j) == Claimed(clients, mutex, j)
    {
      if y :| y in mutex && y in clients && clients[y].Writing? && clients[y].i == j {
        assert clients[x := q'][y].Writing? && clients[x := q'][y].i == j;
      }
    }
  }

  /** The owner raises its attach or its detach flag. */
  lemma {:induction false} FlagKeeps(p: Params, s: State, x: Id)
    requires Inv(p, s) && Enabled(p, s, ClientMove(x)) && (s.clients[x].SettingAttach? || s.clients[x].Detaching?)
    ensures Inv(p, ClientStep(p, s, x))
  {
    hide Inv, IsKeyOf, Claimed, FreeSlot, Bystander;
    var q, s' := s.clients[x], ClientStep(p, s, x);
    ClientFacts(p, s, x);
    MutexFacts(p, s);
    OthersClaim(s.clients, s.mutex, x, s'.clients[x]);
    Bystanders(p, s, x, q.i);
    OwnsOne(p, s, x);
    LocalStep(p, s, s', x, s'.clients[x], q.i);
  }

  /** client_close looks at one row: it stops at the client's own row, and no earlier. */
  lemma {:induction false} SearchKeeps(p: Params, s: State, x: Id)
    requires Inv(p, s) && Enabled(p, s, ClientMove(x)) && s.clients[x].Searching?
    ensures Inv(p, ClientStep(p, s, x))
  {
    hide Inv, PairInv, IsKeyOf;
    var q := s.clients[x];
    ClientFacts(p, s, x);
    OwnsOne(p, s, x);
    if s.rows[q.j].id == x {
      RowNames(p, s, q.j, x);
    }
    ClientMoves(p, s, x, ClientStep(p, s, x).clients[x]);
  }

  /** A row that names an idle tenant is that tenant's. */
  lemma {:induction false} RowNames(p: Params, s: State, j: nat, x: Id)
    requires Inv(p, s) && j < p.slots && x in s.clients && x !in s.mutex && s.rows[j].id == x
    ensures j in s.owner && s.owner[j] == x
  {
    hide PairInv, SegmentInv, ClientOk;
    assert j in s.owner || Claimed(s.clients, s.mutex, j);
    forall y | y in s.mutex && y in s.clients && s.clients[y].Writing? && s.clients[y].i == j
      ensures j in s.owner || s.rows[j].id == 0 || s.rows[j].id == y
    {
      assert ClientOk(p, s.rows, s.owner, s.mutex, y, s.clients[y]);
      WriterNames(p, s.rows, s.owner, s.mutex, y, s.clients[y]);
    }
  }

  lemma {:induction false} WriterNames(p: Params, rows: seq<Row>, owner: map<nat, Id>, mutex: set<Id>, y: Id, q: Client)
    requires |rows| == p.slots && y in p.want && q.Writing? && q.i < p.slots
    requires ClientOk(p, rows, owner, mutex, y, q)
    ensures rows[q.i].id == 0 || rows[q.i].id == y
  {
  }

  /** A tenant that only reads. */
  lemma {:induction false} Reads(p: Params, s: State, x: Id, q': Client)
    requires Inv(p, s) && x in s.clients
    requires
      var q := s.clients[x];
      && Tenant(q) && !Attached(q) && Tenant(q') && !Attached(q') && q'.i == q.i
      && (SawCreated(q') ==> s.rows[q.i].created)
      && ClientOk(p, s.rows, s.owner, s.mutex, x, q')
    ensures Inv(p, s.(clients := s.clients[x := q']))
  {
    hide Inv, PairInv, ClientOk, TakenSlot;
    ClientMoves(p, s, x, q');
  }

  /** The steps in which a client only reads. */
  lemma {:induction false} ReadKeeps(p: Params, s: State, x: Id)
    requires Inv(p, s) && Enabled(p, s, ClientMove(x))
    requires
      var q := s.clients[x];
      q.Polling? || q.Checking? || q.CopyingRequest? || q.CopyingResponse? || q.Identifying? || q.TestingAttach?
    ensures Inv(p, ClientStep(p, s, x))
  {
    hide Inv, PairInv, IsKeyOf;
    ClientFacts(p, s, x);
    match s.clients[x]
    case Polling(i) => if s.rows[i].created { Reads(p, s, x, Checking(i, false, 0)); }
    case Checking(i, again, id) => Reads(p, s, x, CopyingRequest(i, again, id));
    case CopyingRequest(i, again, id) => Reads(p, s, x, CopyingResponse(i, s.rows[i].request, again, id));
    case CopyingResponse(i, request, again, id) =>
      Reads(p, s, x, Identifying(i, request, s.rows[i].response, again, id));
    case Identifying(i, request, response, _, _) => Reads(p, s, x, TestingAttach(i, request, response, x));
    case TestingAttach(i, request, response, id) => Reads(p, s, x, SettingAttach(i, request, response, id));
  }

  lemma {:induction false} ClientKeeps(p: Params, s: State, x: Id)
    requires Inv(p, s) && Enabled(p, s, ClientMove(x))
    ensures Inv(p, ClientStep(p, s, x))
  {
    hide Inv, ClientStep;
    var q := s.clients[x];
    if q.Locking? || q.Refused? || q.Granted? {
      LockKeeps(p, s, x);
    } else if q.Scanning? {
      ScanKeeps(p, s, x);
    } else if q.Writing? && q.k < 7 {
      WriteKeeps(p, s, x);
    } else if q.Writing? {
      ReserveKeeps(p, s, x);
    } else if q.SettingAttach? || q.Detaching? {
      FlagKeeps(p, s, x);
    } else if q.Searching? {
      SearchKeeps(p, s, x);
    } else {
      ReadKeeps(p, s, x);
    }
  }

  /** The two calls. */
  lemma {:induction false} CallKeeps(p: Params, s: State, a: Action)
    requires Inv(p, s) && Enabled(p, s, a) && (a.OpenCall? || a.CloseCall?)
    ensures Inv(p, Step(p, s, a))
  {
    hide Inv, PairInv, IsKeyOf;
    ClientFacts(p, s, a.x);
    OwnsOne(p, s, a.x);
    ClientMoves(p, s, a.x, Step(p, s, a).clients[a.x]);
  }
}
