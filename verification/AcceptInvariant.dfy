/** What the accepting thread knows about the slot it has picked, at every step and whatever the manager and
    the clients do to the slot meanwhile. */
module AcceptInvariant {
  import opened Slots
  import opened SlotProtocol
  import opened SlotInvariant
  import opened SlotManager
  import opened SlotTheorems

  /** accept has picked a slot. */
  predicate HasPicked(pc: Acceptor) {
    AtSlot(pc) && !pc.LookDetach? && !pc.LookReserved? && !pc.LookCreated?
  }

  /** accept is out of its loop: it has a pair, whose keys are not 0, and an id. */
  predicate HasId(pc: Acceptor) {
    pc.CheckFlag? || pc.LoadFlag? || pc.CheckSet? || pc.StoreFlag? || pc.AttachRequest? || pc.AttachResponse?
  }

  predicate HasPair(pc: Acceptor) {
    pc.CheckId? || pc.LoadId? || HasId(pc)
  }

  /** `info` names no segment, or one that was made before now, and that is of slot i if it is still live. */
  predicate Known(info: Info, i: nat, live: map<int, Segment>, next: int) {
    info.key == 0 || (info.shmid < next && (info.shmid in live ==> live[info.shmid].slot == i))
  }

  predicate RowKnown(row: Row, i: nat, live: map<int, Segment>, next: int) {
    Known(row.request, i, live, next) && Known(row.response, i, live, next)
  }

  /** Tenancy t of slot i goes on: it has not been followed by another, and its row has not been touched by
      the clearing. */
  predicate GoesOn(t: nat, held: bool, m: Manager, i: nat, term: nat) {
    t == term && held && !Wiping(m, i)
  }

  /** What has been copied is what the row says, and the flag is as accept left it. */
  predicate ViewOk(pc: Acceptor, row: Row) {
    && row.created
    && (pc.LoadResponse? ==> pc.request == row.request)
    && (HasPair(pc) ==> pc.request == row.request && pc.response == row.response)
    && (pc.CheckSet? || pc.StoreFlag? ==> !row.serverAttached)
    && (pc.AttachRequest? || pc.AttachResponse? ==> row.serverAttached)
  }

  /** The loop was left the first time round, so the id and the queue type are the row's as well. */
  predicate FirstOk(pc: Acceptor, kind: QueueType, row: Row) {
    && (pc.CheckCreated? || pc.LoadRequest? || pc.LoadResponse? ==> !pc.again)
    && (HasId(pc) ==> pc.id == row.id)
    && (!pc.Advancing? && !pc.Unlocking? && !pc.LoadType? ==> kind == row.kind)
  }

  predicate PairKnown(pc: Acceptor, i: nat, live: map<int, Segment>, next: int) {
    && (pc.LoadResponse? ==> Known(pc.request, i, live, next))
    && (HasPair(pc) ==> Known(pc.request, i, live, next) && Known(pc.response, i, live, next))
    && (HasId(pc) ==> pc.request.key != 0 && pc.response.key != 0)
  }

  predicate AcceptOk(c: Accept, row: Row, m: Manager, held: bool, term: nat, live: map<int, Segment>, next: int)
    requires HasPicked(c.pc)
  {
    && c.picked <= c.seen <= term
    && (GoesOn(c.seen, held, m, c.pc.i, term) ==> ViewOk(c.pc, row))
    && (GoesOn(c.picked, held, m, c.pc.i, term) ==> FirstOk(c.pc, c.kind, row))
    && PairKnown(c.pc, c.pc.i, live, next)
    && (c.pc.AttachResponse? ==> c.gained <= term)
  }

  ghost predicate AcceptInv(p: Params, s: State)
    ensures AcceptInv(p, s) ==> Inv(p, s)
  {
    && Inv(p, s)
    && (AcceptHolds(s.accept.pc) ==> s.mutex == {})
    && (HasPicked(s.accept.pc) ==>
          var i := s.accept.pc.i;
          AcceptOk(s.accept, s.rows[i], s.manager, i in s.owner, s.term[i], s.live, s.nextShmid))
    && (forall i: nat :: i < p.slots ==> RowKnown(s.rows[i], i, s.live, s.nextShmid))
    && (forall i: nat, t: nat :: s.accept.handed[(i, t)] > 0 ==> i < p.slots && t <= s.term[i])
  }

  lemma {:induction false} InitAccept(p: Params)
    requires ValidParams(p)
    ensures AcceptInv(p, Init(p))
  {
    hide Inv;
    InitInv(p);
  }

  // ---------------------------------------------------------------------------------------
  // The clients and the manager
  // ---------------------------------------------------------------------------------------

  /** Segments made from now on get new numbers, and those there are do not change slots. */
  ghost predicate Fades(live: map<int, Segment>, live': map<int, Segment>, next: int) {
    forall id :: id in live' && id < next ==> id in live && live'[id].slot == live[id].slot
  }

  /** The fields accept reads after its pick. */
  predicate SameView(a: Row, b: Row) {
    a.(clientAttached := false, detach := false, size := 0) == b.(clientAttached := false, detach := false, size := 0)
  }

  /** What a step of somebody else may do to slot i, as accept sees it. */
  ghost predicate Spares(p: Params, s: State, s': State, i: nat)
    requires Shaped(p, s) && Shaped(p, s') && i < p.slots
  {
    && s.term[i] <= s'.term[i]
    && (RowKnown(s.rows[i], i, s'.live, s'.nextShmid) ==> RowKnown(s'.rows[i], i, s'.live, s'.nextShmid))
    && (s'.term[i] == s.term[i] && i in s'.owner && !Wiping(s'.manager, i) ==>
          i in s.owner && !Wiping(s.manager, i) && (s.rows[i].created ==> SameView(s.rows[i], s'.rows[i])))
  }

  lemma {:induction false} KnownStays(info: Info, i: nat, live: map<int, Segment>, live': map<int, Segment>,
                                      next: int, next': int)
    requires Known(info, i, live, next) && Fades(live, live', next) && next <= next'
    ensures Known(info, i, live', next')
  {
  }

  lemma {:induction false} ViewStays(pc: Acceptor, row: Row, row': Row)
    requires ViewOk(pc, row) && (row.created ==> SameView(row, row'))
    ensures row.created && ViewOk(pc, row')
  {
  }

  lemma {:induction false} FirstStays(pc: Acceptor, kind: QueueType, row: Row, row': Row)
    requires FirstOk(pc, kind, row) && SameView(row, row')
    ensures FirstOk(pc, kind, row')
  {
  }

  lemma {:induction false} PairStays(pc: Acceptor, i: nat, live: map<int, Segment>, live': map<int, Segment>,
                                     next: int, next': int)
    requires PairKnown(pc, i, live, next) && Fades(live, live', next) && next <= next'
    ensures PairKnown(pc, i, live', next')
  {
    hide Known, Fades;
    if pc.LoadResponse? || HasPair(pc) {
      KnownStays(pc.request, i, live, live', next, next');
    }
    if HasPair(pc) {
      KnownStays(pc.response, i, live, live', next, next');
    }
  }

  lemma {:induction false} AcceptStays(c: Accept, row: Row, row': Row, m: Manager, m': Manager, held: bool, held': bool,
                                       term: nat, term': nat, live: map<int, Segment>, live': map<int, Segment>,
                                       next: int, next': int)
    requires HasPicked(c.pc) && AcceptOk(c, row, m, held, term, live, next)
    requires term <= term' && Fades(live, live', next) && next <= next'
    requires term' == term && held' && !Wiping(m', c.pc.i) ==>
      held && !Wiping(m, c.pc.i) && (row.created ==> SameView(row, row'))
    ensures AcceptOk(c, row', m', held', term', live', next')
  {
    hide ViewOk, FirstOk, PairKnown, SameView, Fades, Wiping;
    PairStays(c.pc, c.pc.i, live, live', next, next');
    if GoesOn(c.seen, held', m', c.pc.i, term') {
      ViewStays(c.pc, row, row');
      if c.picked == c.seen {
        FirstStays(c.pc, c.kind, row, row');
      }
    }
  }

  /** A step of somebody else keeps what accept knows. */
  lemma {:induction false} OthersKeep(p: Params, s: State, s': State)
    requires AcceptInv(p, s) && Inv(p, s') && s'.accept == s.accept
    requires s.nextShmid <= s'.nextShmid && Fades(s.live, s'.live, s.nextShmid)
    requires AcceptHolds(s.accept.pc) ==> s'.mutex == {}
    requires forall i: nat :: i < p.slots ==> Spares(p, s, s', i)
    ensures AcceptInv(p, s')
  {
    hide Inv, AcceptOk, RowKnown, Fades;
    forall i: nat | i < p.slots
      ensures RowKnown(s'.rows[i], i, s'.live, s'.nextShmid)
    {
      assert Spares(p, s, s', i);
      RowStays(s.rows[i], i, s.live, s'.live, s.nextShmid, s'.nextShmid);
    }
    if HasPicked(s.accept.pc) {
      var i := s.accept.pc.i;
      assert Spares(p, s, s', i);
      AcceptStays(s.accept, s.rows[i], s'.rows[i], s.manager, s'.manager, i in s.owner, i in s'.owner,
                  s.term[i], s'.term[i], s.live, s'.live, s.nextShmid, s'.nextShmid);
    }
    forall i: nat, t: nat | s'.accept.handed[(i, t)] > 0
      ensures i < p.slots && t <= s'.term[i]
    {
      assert Spares(p, s, s', i);
    }
  }

  lemma {:induction false} RowStays(row: Row, i: nat, live: map<int, Segment>, live': map<int, Segment>, next: int,
                                    next': int)
    requires RowKnown(row, i, live, next) && Fades(live, live', next) && next <= next'
    ensures RowKnown(row, i, live', next')
  {
  }

  lemma {:induction false} ClientSpares(p: Params, s: State, x: Id, i: nat)
    requires Inv(p, s) && Enabled(p, s, ClientMove(x)) && i < p.slots && Shaped(p, ClientStep(p, s, x))
    ensures Spares(p, s, ClientStep(p, s, x), i)
  {
    hide Inv, PairInv, FreeSlot, Claimed, IsKeyOf, ServiceInv, Known;
    ClientFacts(p, s, x);
    MutexFacts(p, s);
  }

  lemma {:induction false} ClientFrames(p: Params, s: State, x: Id)
    requires Inv(p, s) && Enabled(p, s, ClientMove(x))
    ensures
      var s' := ClientStep(p, s, x);
      && s'.accept == s.accept && s'.live == s.live && s'.nextShmid == s.nextShmid
      && (AcceptHolds(s.accept.pc) && s.mutex == {} ==> s'.mutex == {})
  {
    hide Inv, WriteField;
  }

  lemma {:induction false} ManagerSpares(p: Params, s: State, i: nat)
    requires Inv(p, s) && i < p.slots && Shaped(p, ManagerStep(p, s))
    ensures Spares(p, s, ManagerStep(p, s), i)
  {
    hide Inv, Claimed, IsKeyOf, ClientOk, SegmentInv, ShmCreate, Format, RequestKey, ResponseKey, Fades;
    SlotFacts(p, s, i);
    LiveIsOld(p, s);
    var m := s.manager;
    if m.MakeRequest? {
      CreateFades(s, RequestKey(m.kind, m.id), m.kind, m.i);
    } else if m.MakeResponse? {
      CreateFades(s, ResponseKey(m.kind, m.id), m.kind, m.i);
    }
  }

  lemma {:induction false} LiveIsOld(p: Params, s: State)
    requires Inv(p, s)
    ensures forall id :: id in s.live ==> id < s.nextShmid
  {
    hide PairInv, FreeSlot, TakenSlot, Claimed, Segments, MutexInv, ClientOk, ValidParams, IsKeyOf;
  }

  lemma {:induction false} CreateFades(s: State, key: int, kind: QueueType, i: nat)
    requires i < |s.term|
    ensures
      var s' := ShmCreate(s, key, kind, i).0;
      && s' == s.(live := s'.live, nextShmid := s'.nextShmid)
      && s.nextShmid <= s'.nextShmid && Fades(s.live, s'.live, s.nextShmid)
  {
  }

  lemma {:induction false} FormatFades(live: map<int, Segment>, shmid: int, size: int, next: int)
    ensures Fades(live, Format(live, shmid, size), next)
  {
  }

  lemma {:induction false} ManagerFrames(p: Params, s: State)
    requires Inv(p, s)
    ensures
      var s' := ManagerStep(p, s);
      && s'.accept == s.accept && s'.mutex == s.mutex && s.nextShmid <= s'.nextShmid
      && Fades(s.live, s'.live, s.nextShmid)
  {
    hide Inv, ShmCreate, Format, Fades, RequestKey, ResponseKey, WipeField;
    var m := s.manager;
    assert Fades(s.live, s.live, s.nextShmid) by { FadesRefl(s.live, s.nextShmid); }
    if m.MakeRequest? {
      CreateFades(s, RequestKey(m.kind, m.id), m.kind, m.i);
    } else if m.MakeResponse? {
      CreateFades(s, ResponseKey(m.kind, m.id), m.kind, m.i);
    } else if m.FormatRequest? {
      FormatFades(s.live, m.request.shmid, m.size, s.nextShmid);
    } else if m.FormatResponse? {
      FormatFades(s.live, m.response.shmid, m.size, s.nextShmid);
    } else if m.RemoveRequest? {
      RemoveFades(s.live, s.rows[m.i].request.shmid, s.nextShmid);
    } else if m.RemoveResponse? {
      RemoveFades(s.live, s.rows[m.i].response.shmid, s.nextShmid);
    }
  }

  lemma {:induction false} RemoveFades(live: map<int, Segment>, shmid: int, next: int)
    ensures Fades(live, live - {shmid}, next)
  {
  }

  lemma {:induction false} OtherStepKeeps(p: Params, s: State, a: Action)
    requires AcceptInv(p, s) && Enabled(p, s, a) && !a.AcceptCall? && !a.AcceptMove?
    ensures AcceptInv(p, Step(p, s, a))
  {
    hide Inv, ClientStep, ManagerStep, RowKnown, Wiping, AcceptOk, Fades;
    var s' := Step(p, s, a);
    StepInv(p, s, a);
    assert Fades(s.live, s.live, s.nextShmid) by { FadesRefl(s.live, s.nextShmid); }
    if a.ClientMove? {
      ClientFrames(p, s, a.x);
    } else if a.ManagerMove? {
      ManagerFrames(p, s);
    }
    forall i: nat | i < p.slots
      ensures Spares(p, s, s', i)
    {
      if a.ClientMove? {
        ClientSpares(p, s, a.x, i);
      } else if a.ManagerMove? {
        ManagerSpares(p, s, i);
      }
    }
    OthersKeep(p, s, s');
  }

  lemma {:induction false} FadesRefl(live: map<int, Segment>, next: int)
    ensures Fades(live, live, next)
  {
  }

  // ---------------------------------------------------------------------------------------
  // accept
  // ---------------------------------------------------------------------------------------

  /** What the slots' invariant says about the row accept is looking at. */
  lemma {:induction false} RowFacts(p: Params, s: State, i: nat)
    requires Inv(p, s) && i < p.slots
    ensures s.rows[i].created ==> i in s.owner
    ensures i in s.owner && !Wiping(s.manager, i) && s.rows[i].created ==>
      s.rows[i].request.key != 0 && s.rows[i].response.key != 0 && s.rows[i].id == s.owner[i]
    ensures forall id :: id in s.live && s.live[id].slot == i ==> s.live[id].term == s.term[i]
  {
    hide Inv, IsKeyOf, ClientOk, Claimed, PairInv;
    SlotFacts(p, s, i);
  }

  /** The four parts of what accept knows, after its own next step. */
  lemma {:induction false} NextPair(slots: nat, rows: seq<Row>, reserved: seq<bool>, term: seq<nat>,
                                    live: map<int, Segment>, c: Accept, next: int)
    requires |rows| == |reserved| == |term| == slots && InRange(c, slots) && AtSlot(c.pc)
    requires HasPicked(c.pc) ==> PairKnown(c.pc, c.pc.i, live, next)
    requires RowKnown(rows[c.pc.i], c.pc.i, live, next)
    ensures
      var c' := AcceptNext(slots, rows, reserved, term, live, c);
      HasPicked(c'.pc) ==> c'.pc.i == c.pc.i && PairKnown(c'.pc, c.pc.i, live, next)
  {
    hide CoordOps.NextSlot;
  }

  lemma {:induction false} NextView(slots: nat, rows: seq<Row>, reserved: seq<bool>, term: seq<nat>,
                                    live: map<int, Segment>, c: Accept, stays: bool)
    requires |rows| == |reserved| == |term| == slots && InRange(c, slots) && AtSlot(c.pc)
    requires HasPicked(c.pc) ==>
      && c.picked <= c.seen <= term[c.pc.i]
      && (stays && c.seen == term[c.pc.i] ==> ViewOk(c.pc, rows[c.pc.i]))
    ensures
      var c' := AcceptNext(slots, rows, reserved, term, live, c);
      var row' := if c.pc.StoreFlag? then rows[c.pc.i].(serverAttached := true) else rows[c.pc.i];
      HasPicked(c'.pc) ==>
        && c'.picked <= c'.seen <= term[c.pc.i]
        && (stays && c'.seen == term[c.pc.i] ==> ViewOk(c'.pc, row'))
  {
    hide CoordOps.NextSlot;
  }

  lemma {:induction false} NextFirst(slots: nat, rows: seq<Row>, reserved: seq<bool>, term: seq<nat>,
                                     live: map<int, Segment>, c: Accept, stays: bool)
    requires |rows| == |reserved| == |term| == slots && InRange(c, slots) && AtSlot(c.pc)
    requires HasPicked(c.pc) && stays && c.picked == term[c.pc.i] ==>
      FirstOk(c.pc, c.kind, rows[c.pc.i]) && ViewOk(c.pc, rows[c.pc.i])
    requires
      var row := rows[c.pc.i];
      stays && row.created ==> row.request.key != 0 && row.response.key != 0
    ensures
      var c' := AcceptNext(slots, rows, reserved, term, live, c);
      var row' := if c.pc.StoreFlag? then rows[c.pc.i].(serverAttached := true) else rows[c.pc.i];
      HasPicked(c'.pc) && stays && c'.picked == term[c.pc.i] ==> FirstOk(c'.pc, c'.kind, row')
  {
    hide CoordOps.NextSlot;
  }

  lemma {:induction false} NextGained(slots: nat, rows: seq<Row>, reserved: seq<bool>, term: seq<nat>,
                                      live: map<int, Segment>, c: Accept, next: int)
    requires |rows| == |reserved| == |term| == slots && InRange(c, slots) && AtSlot(c.pc)
    requires HasPicked(c.pc) ==> PairKnown(c.pc, c.pc.i, live, next)
    requires forall id :: id in live && live[id].slot == c.pc.i ==> live[id].term == term[c.pc.i]
    ensures
      var c' := AcceptNext(slots, rows, reserved, term, live, c);
      c'.pc.AttachResponse? ==> c'.gained <= term[c.pc.i]
  {
    hide CoordOps.NextSlot;
  }

  lemma {:induction false} AcceptNextOk(slots: nat, rows: seq<Row>, reserved: seq<bool>, term: seq<nat>,
                                        live: map<int, Segment>, c: Accept, m: Manager, held: bool, next: int)
    requires |rows| == |reserved| == |term| == slots && InRange(c, slots) && AtSlot(c.pc)
    requires HasPicked(c.pc) ==> AcceptOk(c, rows[c.pc.i], m, held, term[c.pc.i], live, next)
    requires
      var row := rows[c.pc.i];
      && RowKnown(row, c.pc.i, live, next)
      && (held && !Wiping(m, c.pc.i) && row.created ==> row.request.key != 0 && row.response.key != 0)
    requires forall id :: id in live && live[id].slot == c.pc.i ==> live[id].term == term[c.pc.i]
    ensures
      var c' := AcceptNext(slots, rows, reserved, term, live, c);
      var row' := if c.pc.StoreFlag? then rows[c.pc.i].(serverAttached := true) else rows[c.pc.i];
      HasPicked(c'.pc) ==> c'.pc.i == c.pc.i && AcceptOk(c', row', m, held, term[c.pc.i], live, next)
  {
    hide AcceptNext, ViewOk, FirstOk, PairKnown, RowKnown, Wiping;
    NextPair(slots, rows, reserved, term, live, c, next);
    NextView(slots, rows, reserved, term, live, c, held && !Wiping(m, c.pc.i));
    NextFirst(slots, rows, reserved, term, live, c, held && !Wiping(m, c.pc.i));
    NextGained(slots, rows, reserved, term, live, c, next);
  }

  lemma {:induction false} AcceptMoveKeeps(p: Params, s: State)
    requires AcceptInv(p, s) && Enabled(p, s, AcceptMove)
    ensures AcceptInv(p, AcceptStep(p, s))
  {
    hide Inv, AcceptNext, AcceptOk, RowKnown, Wiping;
    var c, s' := s.accept, AcceptStep(p, s);
    AcceptKeeps(p, s);
    AcceptEffects(p.slots, s.rows, s.reserved, s.term, s.live, c);
    if AtSlot(c.pc) {
      RowFacts(p, s, c.pc.i);
      AcceptNextOk(p.slots, s.rows, s.reserved, s.term, s.live, c, s.manager, c.pc.i in s.owner, s.nextShmid);
    }
    forall i: nat | i < p.slots
      ensures RowKnown(s'.rows[i], i, s.live, s.nextShmid)
    {
      FlagKnown(s.rows[i], i, s.live, s.nextShmid);
    }
  }

  lemma {:induction false} FlagKnown(row: Row, i: nat, live: map<int, Segment>, next: int)
    requires RowKnown(row, i, live, next)
    ensures RowKnown(row.(serverAttached := true), i, live, next)
  {
  }

  lemma {:induction false} AcceptEffects(slots: nat, rows: seq<Row>, reserved: seq<bool>, term: seq<nat>,
                                         live: map<int, Segment>, c: Accept)
    requires |rows| == |reserved| == |term| == slots && InRange(c, slots)
    ensures
      var c' := AcceptNext(slots, rows, reserved, term, live, c);
      && (AcceptHolds(c'.pc) ==> AcceptHolds(c.pc) || c.pc.Calling?)
      && (!AtSlot(c.pc) ==> !HasPicked(c'.pc))
      && (forall i: nat, t: nat :: c'.handed[(i, t)] == c.handed[(i, t)] +
            if (&& c.pc.AttachResponse? && c.pc.i == i && c.pc.response.shmid in live
                && live[c.pc.response.shmid].slot == i && live[c.pc.response.shmid].term == c.gained == t)
            then 1 else 0)
  {
    hide CoordOps.NextSlot;
  }

  lemma {:induction false} StepAccept(p: Params, s: State, a: Action)
    requires AcceptInv(p, s) && Enabled(p, s, a)
    ensures AcceptInv(p, Step(p, s, a))
  {
    hide Inv, AcceptNext, AcceptOk, RowKnown, Wiping;
    if a.AcceptMove? {
      AcceptMoveKeeps(p, s);
    } else if a.AcceptCall? {
      StepInv(p, s, a);
    } else {
      OtherStepKeeps(p, s, a);
    }
  }

  lemma {:induction false} RunAccept(p: Params, s: State, acts: seq<Action>, t: State)
    requires AcceptInv(p, s) && Reaches(p, s, acts, t)
    ensures AcceptInv(p, t)
    decreases |acts|
  {
    hide AcceptInv, Inv, Step;
    if acts != [] {
      StepAccept(p, s, acts[0]);
      RunAccept(p, Step(p, s, acts[0]), acts[1..], t);
    }
  }

  lemma {:induction false} ReachableAccept(p: Params, acts: seq<Action>, s: State)
    requires ValidParams(p) && Reaches(p, Init(p), acts, s)
    ensures AcceptInv(p, s)
  {
    hide AcceptInv, Inv, Init;
    InitAccept(p);
    RunAccept(p, Init(p), acts, s);
  }
}
