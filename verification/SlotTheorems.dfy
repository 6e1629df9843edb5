/** What the slot protocol guarantees over whole runs, for any number of slots and clients. */
module SlotTheorems {
  import opened Slots
  import opened SlotProtocol
  import opened SlotInvariant
  import opened SlotManager

  lemma {:induction false} AcceptInRange(slots: nat, rows: seq<Row>, reserved: seq<bool>, term: seq<nat>,
                                         live: map<int, Segment>, c: Accept)
    requires |rows| == |reserved| == |term| == slots && InRange(c, slots)
    ensures InRange(AcceptNext(slots, rows, reserved, term, live, c), slots)
  {
    hide CoordOps.NextSlot;
  }

  /** The invariant of the slots has nothing to do with the accepting thread. */
  lemma {:induction false} AcceptIrrelevant(p: Params, s: State, c: Accept)
    requires Inv(p, s) && InRange(c, p.slots)
    ensures Inv(p, s.(accept := c))
  {
    hide FreeSlot, TakenSlot, Claimed, ClientOk, PairInv, Segments, SegmentInv, MutexInv, ValidParams;
  }

  lemma {:induction false} AcceptKeeps(p: Params, s: State)
    requires Inv(p, s)
    ensures Inv(p, AcceptStep(p, s))
  {
    hide Inv, AcceptNext;
    AcceptInRange(p.slots, s.rows, s.reserved, s.term, s.live, s.accept);
    AcceptIrrelevant(p, s, AcceptStep(p, s).accept);
    if s.accept.pc.StoreFlag? {
      FlagRaised(p, s.(accept := AcceptStep(p, s).accept), s.accept.pc.i);
    }
  }

  /** The accepting thread raises its flag in some row. */
  lemma {:induction false} FlagRaised(p: Params, s: State, i: nat)
    requires Inv(p, s) && i < p.slots
    ensures Inv(p, s.(rows := s.rows[i := s.rows[i].(serverAttached := true)]))
  {
    hide Inv, IsKeyOf, Claimed, ValidParams, MutexInv;
    var rows' := s.rows[i := s.rows[i].(serverAttached := true)];
    forall j: nat | j < p.slots
      ensures j in s.owner ==>
        && s.owner[j] in s.clients && s.owner[j] in p.want
        && TakenSlot(j, rows'[j], s.manager, s.owner[j], s.clients[s.owner[j]], p.want[s.owner[j]])
        && PairInv(j, rows'[j], s.manager, s.live, p.want[s.owner[j]].size)
      ensures j !in s.owner ==> FreeSlot(j, rows'[j], s.manager, Claimed(s.clients, s.mutex, j))
      ensures Segments(rows'[j], s.manager, j) == Segments(s.rows[j], s.manager, j)
    {
      SlotFacts(p, s, j);
    }
    SlotFacts(p, s, i);
    forall y | y in s.clients
      ensures ClientOk(p, rows', s.owner, s.mutex, y, s.clients[y])
    {
      assert ClientOk(p, s.rows, s.owner, s.mutex, y, s.clients[y]);
    }
    SwapRows(p, s, rows');
  }

  lemma {:induction false} SwapRows(p: Params, s: State, rows': seq<Row>)
    requires Inv(p, s) && |rows'| == p.slots
    requires forall j: nat :: j < p.slots ==> Segments(rows'[j], s.manager, j) == Segments(s.rows[j], s.manager, j)
    requires forall j: nat :: j < p.slots && j !in s.owner ==>
      FreeSlot(j, rows'[j], s.manager, Claimed(s.clients, s.mutex, j))
    requires forall j: nat :: j < p.slots && j in s.owner ==>
      && s.owner[j] in s.clients && s.owner[j] in p.want
      && TakenSlot(j, rows'[j], s.manager, s.owner[j], s.clients[s.owner[j]], p.want[s.owner[j]])
      && PairInv(j, rows'[j], s.manager, s.live, p.want[s.owner[j]].size)
    requires forall y :: y in s.clients ==> ClientOk(p, rows', s.owner, s.mutex, y, s.clients[y])
    ensures Inv(p, s.(rows := rows'))
  {
    hide FreeSlot, TakenSlot, Claimed, ClientOk, PairInv, Segments, MutexInv, ValidParams;
    forall id | id in s.live
      ensures SegmentInv(p, rows', s.manager, s.owner, s.term, s.nextShmid, id, s.live[id])
    {
      assert SegmentInv(p, s.rows, s.manager, s.owner, s.term, s.nextShmid, id, s.live[id]);
    }
  }

  lemma {:induction false} StepInv(p: Params, s: State, a: Action)
    requires Inv(p, s) && Enabled(p, s, a)
    ensures Inv(p, Step(p, s, a))
  {
    hide Inv, ClientStep, ManagerStep, AcceptStep;
    match a
    case OpenCall(_) => CallKeeps(p, s, a);
    case CloseCall(_) => CallKeeps(p, s, a);
    case ClientMove(x) => ClientKeeps(p, s, x);
    case ManagerMove => ManagerKeeps(p, s);
    case AcceptCall => AcceptIrrelevant(p, s, Step(p, s, a).accept);
    case AcceptMove => AcceptKeeps(p, s);
  }

  /** `t` is reached from `s` by performing `acts` in order. */
  ghost predicate Reaches(p: Params, s: State, acts: seq<Action>, t: State)
    decreases |acts|
  {
    if acts == [] then s == t
    else
      && Shaped(p, s) && Enabled(p, s, acts[0])
      && Reaches(p, Step(p, s, acts[0]), acts[1..], t)
  }

  lemma {:induction false} RunInv(p: Params, s: State, acts: seq<Action>, t: State)
    requires Inv(p, s) && Reaches(p, s, acts, t)
    ensures Inv(p, t)
    decreases |acts|
  {
    hide Inv, Step;
    if acts != [] {
      StepInv(p, s, acts[0]);
      RunInv(p, Step(p, s, acts[0]), acts[1..], t);
    }
  }

  lemma {:induction false} ReachableInv(p: Params, acts: seq<Action>, s: State)
    requires ValidParams(p) && Reaches(p, Init(p), acts, s)
    ensures Inv(p, s)
  {
    hide Inv, Init;
    InitInv(p);
    RunInv(p, Init(p), acts, s);
  }

  lemma {:induction false} ReachesThen(p: Params, s: State, acts: seq<Action>, t: State, a: Action)
    requires Reaches(p, s, acts, t) && Shaped(p, t) && Enabled(p, t, a)
    ensures Reaches(p, s, acts + [a], Step(p, t, a))
    decreases |acts|
  {
    hide Step, Enabled, Shaped;
    var all := acts + [a];
    if acts == [] {
      assert Reaches(p, Step(p, t, a), all[1..], Step(p, t, a));
    } else {
      ReachesThen(p, Step(p, s, acts[0]), acts[1..], t, a);
      assert all[1..] == acts[1..] + [a];
    }
  }

  // ---------------------------------------------------------------------------------------
  // Tenancy
  // ---------------------------------------------------------------------------------------

  /** No slot is held by two clients at once: not by two clients that have been granted it and have
      not closed, and not by such a client and one that is filling in its row. */
  lemma {:induction false} TenancyExclusive(p: Params, acts: seq<Action>, s: State, x: Id, y: Id)
    requires ValidParams(p) && Reaches(p, Init(p), acts, s)
    requires x in s.clients && y in s.clients && x != y
    requires
      var q, r := s.clients[x], s.clients[y];
      HasSlot(q) && HasSlot(r) && !q.Scanning? && !r.Scanning? && !q.Closed? && !r.Closed?
    ensures s.clients[x].i != s.clients[y].i
  {
    hide Inv, Reaches, Init;
    ReachableInv(p, acts, s);
    ClientFacts(p, s, x);
    ClientFacts(p, s, y);
    MutexFacts(p, s);
  }

  /** What a step from s to s' may do to slot i. */
  ghost predicate Guarded(p: Params, s: State, a: Action, s': State, i: nat)
    requires Shaped(p, s) && Shaped(p, s') && i < p.slots
  {
    // reserved only by the client that has filled in the whole row, and only a slot nobody holds
    && (!s.reserved[i] && s'.reserved[i] ==>
          && a.ClientMove? && a.x in p.want && s.mutex == {a.x}
          && Same(s.rows[i], Partial(a.x, p.want[a.x], 7))
          && (forall y :: y in s.clients && Tenant(s.clients[y]) && s.clients[y].i == i ==> s.clients[y].Closed?))
    // released only by the manager, when the row has been wiped and its owner has detached
    && (s.reserved[i] && !s'.reserved[i] ==>
          && a.ManagerMove? && Same(s.rows[i], BLANK)
          && i in s.owner && s.owner[i] in s.clients && s.clients[s.owner[i]] == Closed(i))
    // a client overwrites a row only while it is unreserved, under the mutex, and afterwards raises
    // its own two flags only in its own row
    && (a.ClientMove? && s'.rows[i] != s.rows[i] ==>
          if !s.reserved[i] then s.mutex == {a.x}
          else
            && i in s.owner && s.owner[i] == a.x
            && s'.rows[i] == s.rows[i].(clientAttached := s'.rows[i].clientAttached, detach := s'.rows[i].detach))
    // the manager writes only to reserved rows: the pair before it is published, and zeros after the detach
    && (a.ManagerMove? && s'.rows[i] != s.rows[i] ==>
          && s.reserved[i] && i in s.owner && s.owner[i] in s.clients
          && (if s.clients[s.owner[i]].Closed? && Wiping(s.manager, i) then true
              else
                && !s.rows[i].created
                && s'.rows[i] == s.rows[i].(request := s'.rows[i].request, response := s'.rows[i].response,
                                            created := s'.rows[i].created)))
    // the accepting thread writes nothing but its flag
    && (!a.ClientMove? && !a.ManagerMove? ==>
          s'.reserved == s.reserved && s'.rows[i] == s.rows[i].(serverAttached := s'.rows[i].serverAttached))
  }

  lemma {:induction false} HolderAlone(clients: map<Id, Client>, mutex: set<Id>, x: Id)
    requires MutexInv(clients, mutex) && x in mutex
    ensures mutex == {x}
  {
    forall y
      ensures y in mutex <==> y in {x}
    {
    }
  }

  lemma {:induction false} ClientGuards(p: Params, s: State, x: Id, i: nat)
    requires Inv(p, s) && Enabled(p, s, ClientMove(x)) && i < p.slots && Shaped(p, ClientStep(p, s, x))
    ensures Guarded(p, s, ClientMove(x), ClientStep(p, s, x), i)
  {
    hide Inv, PairInv, FreeSlot, Claimed, IsKeyOf, ServiceInv;
    ClientFacts(p, s, x);
    MutexFacts(p, s);
    if s.clients[x].Writing? {
      HolderAlone(s.clients, s.mutex, x);
      Bystanders(p, s, x, s.clients[x].i);
    }
  }

  lemma {:induction false} ManagerGuards(p: Params, s: State, i: nat)
    requires Inv(p, s) && i < p.slots && Shaped(p, ManagerStep(p, s))
    ensures Guarded(p, s, ManagerMove, ManagerStep(p, s), i)
  {
    hide Inv, PairInv, Claimed, IsKeyOf, ServiceInv, ClientOk, SegmentInv;
    SlotFacts(p, s, i);
  }

  /** Every step of every run respects the slots. */
  lemma {:induction false} SlotsGuarded(p: Params, acts: seq<Action>, s: State, a: Action, i: nat)
    requires ValidParams(p) && Reaches(p, Init(p), acts, s) && Shaped(p, s) && Enabled(p, s, a) && i < p.slots
    ensures Shaped(p, Step(p, s, a)) && Guarded(p, s, a, Step(p, s, a), i)
  {
    hide Inv, Reaches, Init, ClientStep, ManagerStep, AcceptNext;
    ReachableInv(p, acts, s);
    StepInv(p, s, a);
    match a
    case ClientMove(x) => ClientGuards(p, s, x, i);
    case ManagerMove => ManagerGuards(p, s, i);
    case _ =>
  }

  // ---------------------------------------------------------------------------------------
  // Publication
  // ---------------------------------------------------------------------------------------

  /** The pair `info` names was made for client x in the present tenancy of slot i. */
  ghost predicate MadeFor(p: Params, s: State, info: Info, i: nat, x: Id)
    requires Shaped(p, s) && x in p.want && i < p.slots
  {
    && info.key != 0 && IsKeyOf(info.key, x)
    && LaidOut(s.live, info, i, p.want[x].size)
    && s.live[info.shmid].term == s.term[i]
  }

  /** A client that has found shm_created set reads the pair that was made for it in this tenancy from
      its own id and message size, and its own id; it keeps both until it closes, and it is always the
      first to attach, so the addresses it returns are never NULL. */
  lemma {:induction false} PublicationSafe(p: Params, acts: seq<Action>, s: State, x: Id)
    requires ValidParams(p) && Reaches(p, Init(p), acts, s) && Shaped(p, s) && x in s.clients
    ensures
      var q := s.clients[x];
      SawCreated(q) && !q.Closed? ==>
        && s.rows[q.i].created && q.i in s.owner && s.owner[q.i] == x
        && s.rows[q.i].request.shmid != s.rows[q.i].response.shmid
        && MadeFor(p, s, s.rows[q.i].request, q.i, x) && MadeFor(p, s, s.rows[q.i].response, q.i, x)
        && (q.CopyingResponse? ==> q.request == s.rows[q.i].request)
        && (q.Identifying? || q.TestingAttach? || q.SettingAttach? || q.Open? ==>
              q.request == s.rows[q.i].request && q.response == s.rows[q.i].response)
        && (q.TestingAttach? || q.SettingAttach? || q.Open? ==> q.id == x)
        && (q.TestingAttach? ==> !s.rows[q.i].clientAttached)
  {
    hide Inv, Reaches, Init, IsKeyOf;
    ReachableInv(p, acts, s);
    ClientFacts(p, s, x);
    SlotFacts(p, s, s.manager.i);
  }

  /** client_close always finds the client's row, and no other client's, so it returns 0. */
  lemma {:induction false} CloseFindsItsSlot(p: Params, acts: seq<Action>, s: State, x: Id)
    requires ValidParams(p) && Reaches(p, Init(p), acts, s) && Shaped(p, s) && x in s.clients
    ensures
      var q := s.clients[x];
      && (q.Searching? ==> !ClientStep(p, s, x).clients[x].Closed?)
      && (q.Searching? && s.rows[q.j].id == x ==> q.j == q.i)
      && (q.Detaching? ==>
        q.j == q.i && q.i in s.owner && s.owner[q.i] == x && s.rows[q.i].id == x && !s.rows[q.i].detach)
  {
    hide Inv, Reaches, Init, IsKeyOf, PairInv;
    ReachableInv(p, acts, s);
    ClientFacts(p, s, x);
    if s.clients[x].Searching? && s.rows[s.clients[x].j].id == x {
      RowNames(p, s, s.clients[x].j, x);
      OwnsOne(p, s, x);
    }
  }

  // ---------------------------------------------------------------------------------------
  // Segments
  // ---------------------------------------------------------------------------------------

  /** The live segments are exactly those some slot answers for, and no two slots answer for the same
      one; so none is leaked and none is removed while another slot needs it. */
  lemma {:induction false} SegmentsAccounted(p: Params, acts: seq<Action>, s: State, id: int)
    requires ValidParams(p) && Reaches(p, Init(p), acts, s) && Shaped(p, s)
    ensures id in s.live ==>
      && s.live[id].slot < p.slots && s.reserved[s.live[id].slot]
      && id in Segments(s.rows[s.live[id].slot], s.manager, s.live[id].slot)
    ensures forall i: nat :: i < p.slots && id in Segments(s.rows[i], s.manager, i) ==>
      id in s.live && s.live[id].slot == i
  {
    hide Inv, Reaches, Init, IsKeyOf;
    ReachableInv(p, acts, s);
    forall i: nat | i < p.slots && id in Segments(s.rows[i], s.manager, i)
      ensures id in s.live && s.live[id].slot == i
    {
      SlotFacts(p, s, i);
    }
    if id in s.live {
      SlotFacts(p, s, s.manager.i);
      assert SegmentInv(p, s.rows, s.manager, s.owner, s.term, s.nextShmid, id, s.live[id]);
      MutexFacts(p, s);
    }
  }

  /** Once every slot has been given up, no segment is left. */
  lemma {:induction false} NothingLeft(p: Params, acts: seq<Action>, s: State)
    requires ValidParams(p) && Reaches(p, Init(p), acts, s) && Shaped(p, s)
    requires forall i: nat :: i < p.slots ==> !s.reserved[i]
    ensures s.live == map[]
  {
    hide Segments;
    forall id
      ensures id !in s.live
    {
      SegmentsAccounted(p, acts, s, id);
    }
  }
}
