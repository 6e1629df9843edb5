/** The slot protocol at the grain of single loads and stores: clients that reserve slots under a
    mutex, the manager thread that services and clears slots without it, and the accepting thread, which
    picks a slot under the mutex and reads it without. */
module SlotProtocol {
  import opened Slots
  import CoordOps

  /** A live segment, the message size its ring was laid out for (0 before that), the queue type it
      was made for, and the slot and tenancy it was made in. */
  datatype Segment = Segment(key: int, format: int, kind: QueueType, slot: nat, term: nat)

  /** Where a client is; `i` is the slot it is concerned with. */
  datatype Client =
    | Out
    | Locking
    | Scanning(i: nat)                                   // holds the mutex
    | Writing(i: nat, k: nat)                            // holds the mutex, k fields written
    | Refused                                            // holds the mutex, no slot was free
    | Granted(i: nat)                                    // holds the mutex, slot reserved
    | Polling(i: nat)                                    // waits for shm_created
    | Checking(i: nat, again: bool, id: Id)              // check_slot tests shm_created; `again` once the id is read
    | CopyingRequest(i: nat, again: bool, id: Id)
    | CopyingResponse(i: nat, request: Info, again: bool, id: Id)
    | Identifying(i: nat, request: Info, response: Info, again: bool, id: Id)
    | TestingAttach(i: nat, request: Info, response: Info, id: Id)
    | SettingAttach(i: nat, request: Info, response: Info, id: Id)
    | Open(i: nat, request: Info, response: Info, id: Id)
    | Searching(i: nat, j: nat)                          // client_close looks at row j
    | Detaching(i: nat, j: nat)                          // client_close found its id in row j
    | Closed(i: nat)

  /** Where the manager is, in the iteration for slot `i`. */
  datatype Manager =
    | ReadType(i: nat)
    | TestReserved(i: nat, kind: QueueType)
    | TestCreated(i: nat, kind: QueueType)
    | ReadSize(i: nat, kind: QueueType)
    | ReadId(i: nat, kind: QueueType, size: int)
    | MakeRequest(i: nat, kind: QueueType, size: int, id: Id)
    | MakeResponse(i: nat, kind: QueueType, size: int, id: Id, request: Info)
    | FormatRequest(i: nat, size: int, request: Info, response: Info)
    | FormatResponse(i: nat, size: int, request: Info, response: Info)
    | WriteRequest(i: nat, request: Info, response: Info)
    | WriteResponse(i: nat, request: Info, response: Info)
    | Publish(i: nat, request: Info, response: Info)
    | TestDetach(i: nat)
    | TestSegments(i: nat)
    | RemoveRequest(i: nat)
    | RemoveResponse(i: nat)
    | Wipe(i: nat, k: nat)
    | Release(i: nat)

  /** Where the accepting thread is; `i` is the slot it is concerned with. */
  datatype Acceptor =
    | Resting
    | Calling(at: nat)                                   // has read accept_slot
    | LookDetach(i: nat, left: nat)                      // holds the mutex, `left` slots still to look at
    | LookReserved(i: nat, left: nat)                    // holds the mutex
    | LookCreated(i: nat, left: nat)                     // holds the mutex
    | GivingUp                                           // holds the mutex, no slot will do
    | Advancing(i: nat)                                  // holds the mutex, slot i picked
    | Unlocking(i: nat)                                  // holds the mutex
    | LoadType(i: nat)
    | CheckCreated(i: nat, again: bool, id: Id)          // check_slot tests shm_created; `again` once the id is read
    | LoadRequest(i: nat, again: bool, id: Id)
    | LoadResponse(i: nat, request: Info, again: bool, id: Id)
    | CheckId(i: nat, request: Info, response: Info)     // get_client_id tests shm_created
    | LoadId(i: nat, request: Info, response: Info)
    | CheckFlag(i: nat, request: Info, response: Info, id: Id)   // get_server_attach_state tests shm_created
    | LoadFlag(i: nat, request: Info, response: Info, id: Id)
    | CheckSet(i: nat, request: Info, response: Info, id: Id)    // set_server_attach_state tests shm_created
    | StoreFlag(i: nat, request: Info, response: Info, id: Id)
    | AttachRequest(i: nat, request: Info, response: Info, id: Id)
    | AttachResponse(i: nat, request: Info, response: Info, id: Id)

  /** The accepting thread. */
  datatype Accept = Accept(
    pc: Acceptor,
    slot: nat,                        // accept_slot
    kind: QueueType,                  // the queue type it has read
    // history
    picked: nat,                      // the tenancy in which it picked its slot
    seen: nat,                        // the tenancy in which it last found its slot created
    gained: int,                      // the tenancy whose request segment it attached to, or -1
    handed: multiset<(nat, nat)>      // the slots and tenancies both of whose segments it attached to
  )

  datatype State = State(
    rows: seq<Row>,
    reserved: seq<bool>,
    mutex: set<Id>,                   // the client holding the mutex, if any
    clients: map<Id, Client>,
    manager: Manager,
    accept: Accept,
    live: map<int, Segment>,          // live segments by shmid
    nextShmid: int,
    // history
    owner: map<nat, Id>,              // who reserved a reserved slot
    term: seq<nat>                    // how often a slot has been reserved
  )

  datatype Action =
    | OpenCall(x: Id) | CloseCall(x: Id) | ClientMove(x: Id) | ManagerMove | AcceptCall | AcceptMove

  function Init(p: Params): (s: State) {
    State(seq(p.slots, i => BLANK), seq(p.slots, i => false), {}, map x | x in p.want :: Out, ReadType(0),
          Accept(Resting, 0, POLL, 0, 0, -1, multiset{}), map[], 1, map[], seq(p.slots, i => 0))
  }

  /** The seven stores of request_slot before the reservation itself. */
  function WriteField(row: Row, k: nat, x: Id, want: Want): (r: Row) {
    if k == 0 then row.(id := x)
    else if k == 1 then row.(size := want.size)
    else if k == 2 then row.(detach := false)
    else if k == 3 then row.(kind := want.kind)
    else if k == 4 then row.(clientAttached := false)
    else if k == 5 then row.(serverAttached := false)
    else row.(created := false)
  }

  /** Zeroing a row, field by field in the order of the struct. */
  function WipeField(row: Row, k: nat): (r: Row) {
    if k == 0 then row.(id := 0)
    else if k == 1 then row.(size := 0)
    else if k == 2 then row.(kind := POLL)
    else if k == 3 then row.(created := false)
    else if k == 4 then row.(clientAttached := false)
    else if k == 5 then row.(serverAttached := false)
    else if k == 6 then row.(request := Info(0, 0), response := Info(0, 0))
    else row.(detach := false)
  }

  ghost predicate HasKey(live: map<int, Segment>, key: int, id: int) {
    id in live && live[id].key == key
  }

  /** shm_create: the segment with this key, made if there is none. */
  ghost function ShmCreate(s: State, key: int, kind: QueueType, i: nat): (r: (State, Info))
    requires i < |s.term|
  {
    if exists id :: HasKey(s.live, key, id) then
      var id :| HasKey(s.live, key, id);
      (s, Info(key, id))
    else
      (s.(live := s.live[s.nextShmid := Segment(key, 0, kind, i, s.term[i])], nextShmid := s.nextShmid + 1),
       Info(key, s.nextShmid))
  }

  /** queue_create writes the header of the segment. */
  function Format(live: map<int, Segment>, shmid: int, size: int): (r: map<int, Segment>) {
    if shmid in live then live[shmid := live[shmid].(format := size)] else live
  }

  predicate HasSlot(q: Client) {
    !q.Out? && !q.Locking? && !q.Refused?
  }

  /** The accepting thread is concerned with a slot. */
  predicate AtSlot(r: Acceptor) {
    !r.Resting? && !r.Calling? && !r.GivingUp?
  }

  /** The accepting thread holds the mutex. */
  predicate AcceptHolds(r: Acceptor) {
    r.LookDetach? || r.LookReserved? || r.LookCreated? || r.GivingUp? || r.Advancing? || r.Unlocking?
  }

  predicate InRange(c: Accept, slots: nat) {
    c.slot < slots && (AtSlot(c.pc) ==> c.pc.i < slots) && (c.pc.Calling? ==> c.pc.at < slots)
  }

  ghost predicate Shaped(p: Params, s: State) {
    && |s.rows| == |s.reserved| == |s.term| == p.slots
    && s.clients.Keys == p.want.Keys
    && s.manager.i < p.slots && InRange(s.accept, p.slots)
    && (forall x :: x in s.clients && HasSlot(s.clients[x]) ==> s.clients[x].i < p.slots)
    && (forall x :: x in s.clients && (s.clients[x].Searching? || s.clients[x].Detaching?) ==> s.clients[x].j < p.slots)
  }

  ghost predicate Enabled(p: Params, s: State, a: Action)
    requires Shaped(p, s)
  {
    match a
    case OpenCall(x) =>
      // a client comes back only after its last slot has been given up (EarlyReopen: what if it does not)
      x in s.clients && (s.clients[x].Out? || (s.clients[x].Closed? && x !in s.owner.Values))
    case CloseCall(x) => x in s.clients && s.clients[x].Open?
    case ClientMove(x) =>
      && x in s.clients && !s.clients[x].Out? && !s.clients[x].Open? && !s.clients[x].Closed?
      && (s.clients[x].Locking? ==> s.mutex == {} && !AcceptHolds(s.accept.pc))
    case ManagerMove => true
    case AcceptCall => s.accept.pc.Resting?
    case AcceptMove => !s.accept.pc.Resting? && (s.accept.pc.Calling? ==> s.mutex == {})
  }

  /** One load or store of client x. */
  function ClientStep(p: Params, s: State, x: Id): (s': State)
    requires Shaped(p, s) && x in s.clients && x in p.want
  {
    var q := s.clients[x];
    match q
    case Locking => s.(mutex := {x}, clients := s.clients[x := Scanning(0)])
    case Scanning(i) =>
      s.(clients := s.clients[x :=
        if !s.reserved[i] then Writing(i, 0) else if i + 1 < p.slots then Scanning(i + 1) else Refused])
    case Writing(i, k) =>
      if k < 7 then
        s.(rows := s.rows[i := WriteField(s.rows[i], k, x, p.want[x])], clients := s.clients[x := Writing(i, k + 1)])
      else
        s.(reserved := s.reserved[i := true], owner := s.owner[i := x], term := s.term[i := s.term[i] + 1],
           clients := s.clients[x := Granted(i)])
    case Refused => s.(mutex := {}, clients := s.clients[x := Locking])
    case Granted(i) => s.(mutex := {}, clients := s.clients[x := Polling(i)])
    case Polling(i) => if s.rows[i].created then s.(clients := s.clients[x := Checking(i, false, 0)]) else s
    case Checking(i, again, id) =>
      s.(clients := s.clients[x :=
        if s.rows[i].created then CopyingRequest(i, again, id) else Identifying(i, Info(0, 0), Info(0, 0), again, id)])
    case CopyingRequest(i, again, id) => s.(clients := s.clients[x := CopyingResponse(i, s.rows[i].request, again, id)])
    case CopyingResponse(i, request, again, id) =>
      s.(clients := s.clients[x := Identifying(i, request, s.rows[i].response, again, id)])
    case Identifying(i, request, response, again, id) =>
      // the id is read after the first look; a key of 0 means "not ready": look again
      var id' := if again then id else if s.rows[i].created then s.rows[i].id else 0;
      s.(clients := s.clients[x :=
        if request.key == 0 || response.key == 0 then Checking(i, true, id')
        else TestingAttach(i, request, response, id')])
    case TestingAttach(i, request, response, id) =>
      s.(clients := s.clients[x :=
        if s.rows[i].created && s.rows[i].clientAttached then Open(i, Info(0, 0), Info(0, 0), id)
        else SettingAttach(i, request, response, id)])
    case SettingAttach(i, request, response, id) =>
      s.(rows := if s.rows[i].created then s.rows[i := s.rows[i].(clientAttached := true)] else s.rows,
         clients := s.clients[x := Open(i, request, response, id)])
    case Searching(i, j) =>
      s.(clients := s.clients[x :=
        if s.rows[j].id == x then Detaching(i, j) else if j + 1 < p.slots then Searching(i, j + 1) else Closed(i)])
    case Detaching(i, j) =>
      s.(rows := s.rows[j := s.rows[j].(detach := true)], clients := s.clients[x := Closed(i)])
    case _ => s
  }

  function NextSlot(p: Params, i: nat): (m: Manager) {
    ReadType(if i + 1 < p.slots then i + 1 else 0)
  }

  /** One load, store or system call of the manager. */
  ghost function ManagerStep(p: Params, s: State): (s': State)
    requires Shaped(p, s)
  {
    var m := s.manager;
    var row := s.rows[m.i];
    match m
    case ReadType(i) => s.(manager := TestReserved(i, row.kind))
    case TestReserved(i, kind) => s.(manager := if s.reserved[i] then TestCreated(i, kind) else TestDetach(i))
    case TestCreated(i, kind) => s.(manager := if row.created then TestDetach(i) else ReadSize(i, kind))
    case ReadSize(i, kind) => s.(manager := ReadId(i, kind, row.size))
    case ReadId(i, kind, size) => s.(manager := MakeRequest(i, kind, size, row.id))
    case MakeRequest(i, kind, size, id) =>
      var (s', request) := ShmCreate(s, RequestKey(kind, id), kind, i);
      s'.(manager := MakeResponse(i, kind, size, id, request))
    case MakeResponse(i, kind, size, id, request) =>
      var (s', response) := ShmCreate(s, ResponseKey(kind, id), kind, i);
      s'.(manager := FormatRequest(i, size, request, response))
    case FormatRequest(i, size, request, response) =>
      s.(live := Format(s.live, request.shmid, size), manager := FormatResponse(i, size, request, response))
    case FormatResponse(i, size, request, response) =>
      s.(live := Format(s.live, response.shmid, size), manager := WriteRequest(i, request, response))
    case WriteRequest(i, request, response) =>
      s.(rows := s.rows[i := row.(request := request)], manager := WriteResponse(i, request, response))
    case WriteResponse(i, request, response) =>
      s.(rows := s.rows[i := row.(response := response)], manager := Publish(i, request, response))
    case Publish(i, _, _) => s.(rows := s.rows[i := row.(created := true)], manager := TestDetach(i))
    case TestDetach(i) => s.(manager := if row.detach then TestSegments(i) else NextSlot(p, i))
    case TestSegments(i) => s.(manager := if row.created then RemoveRequest(i) else Wipe(i, 0))
    case RemoveRequest(i) => s.(live := s.live - {row.request.shmid}, manager := RemoveResponse(i))
    case RemoveResponse(i) => s.(live := s.live - {row.response.shmid}, manager := Wipe(i, 0))
    case Wipe(i, k) =>
      s.(rows := s.rows[i := WipeField(row, k)], manager := if k < 7 then Wipe(i, k + 1) else Release(i))
    case Release(i) => s.(reserved := s.reserved[i := false], owner := s.owner - {i}, manager := NextSlot(p, i))
  }

  /** The loop of accept goes to the next slot. */
  function LookOn(slots: nat, i: nat, left: nat): (r: Acceptor)
    requires i < slots
  {
    if left > 1 then LookDetach(CoordOps.NextSlot(i, slots), left - 1) else GivingUp
  }

  /** A key of 0 means "not ready": look again. */
  function Ready(i: nat, request: Info, response: Info, id: Id): (r: Acceptor) {
    if request.key == 0 || response.key == 0 then CheckCreated(i, true, id) else CheckFlag(i, request, response, id)
  }

  /** Where one load, store or system call takes the accepting thread. */
  function AcceptNext(slots: nat, rows: seq<Row>, reserved: seq<bool>, term: seq<nat>, live: map<int, Segment>,
                      c: Accept): (c': Accept)
    requires |rows| == |reserved| == |term| == slots && InRange(c, slots)
  {
    match c.pc
    case Resting => c
    case Calling(at) => c.(pc := LookDetach(at, slots))
    case GivingUp => c.(pc := Resting)
    case LookDetach(i, left) => c.(pc := if rows[i].detach then LookOn(slots, i, left) else LookReserved(i, left))
    case LookReserved(i, left) => c.(pc := if reserved[i] then LookCreated(i, left) else LookOn(slots, i, left))
    case LookCreated(i, left) =>
      if rows[i].created then c.(pc := Advancing(i), picked := term[i], seen := term[i])
      else c.(pc := LookOn(slots, i, left))
    case Advancing(i) => c.(slot := CoordOps.NextSlot(i, slots), pc := Unlocking(i))
    case Unlocking(i) => c.(pc := LoadType(i))
    case LoadType(i) => c.(kind := rows[i].kind, pc := CheckCreated(i, false, 0))
    case CheckCreated(i, again, id) =>
      if rows[i].created then c.(pc := LoadRequest(i, again, id), seen := term[i])
      else if again then c
      else c.(pc := CheckId(i, Info(0, 0), Info(0, 0)))
    case LoadRequest(i, again, id) => c.(pc := LoadResponse(i, rows[i].request, again, id))
    case LoadResponse(i, request, again, id) =>
      c.(pc := if again then Ready(i, request, rows[i].response, id) else CheckId(i, request, rows[i].response))
    case CheckId(i, request, response) =>
      c.(pc := if rows[i].created then LoadId(i, request, response) else Ready(i, request, response, 0))
    case LoadId(i, request, response) => c.(pc := Ready(i, request, response, rows[i].id))
    case CheckFlag(i, request, response, id) =>
      c.(pc := if rows[i].created then LoadFlag(i, request, response, id) else CheckSet(i, request, response, id))
    case LoadFlag(i, request, response, id) =>
      // NULL addresses if the flag is up
      c.(pc := if rows[i].serverAttached then Resting else CheckSet(i, request, response, id))
    case CheckSet(i, request, response, id) =>
      c.(pc := if rows[i].created then StoreFlag(i, request, response, id) else AttachRequest(i, request, response, id))
    case StoreFlag(i, request, response, id) => c.(pc := AttachRequest(i, request, response, id))
    case AttachRequest(i, request, response, id) =>
      c.(gained := if request.shmid in live then live[request.shmid].term else -1,
         pc := AttachResponse(i, request, response, id))
    case AttachResponse(i, _, response, _) =>
      if response.shmid in live && live[response.shmid].slot == i && live[response.shmid].term == c.gained then
        c.(handed := c.handed + multiset{(i, live[response.shmid].term)}, pc := Resting)
      else c.(pc := Resting)
  }

  function AcceptStep(p: Params, s: State): (s': State)
    requires Shaped(p, s)
  {
    var pc := s.accept.pc;
    s.(accept := AcceptNext(p.slots, s.rows, s.reserved, s.term, s.live, s.accept),
       rows := if pc.StoreFlag? then s.rows[pc.i := s.rows[pc.i].(serverAttached := true)] else s.rows)
  }

  ghost function Step(p: Params, s: State, a: Action): (s': State)
    requires Shaped(p, s) && Enabled(p, s, a)
  {
    match a
    case OpenCall(x) => s.(clients := s.clients[x := Locking])
    case CloseCall(x) => s.(clients := s.clients[x := Searching(s.clients[x].i, 0)])
    case ClientMove(x) => ClientStep(p, s, x)
    case ManagerMove => ManagerStep(p, s)
    case AcceptCall => s.(accept := s.accept.(pc := Calling(s.accept.slot)))
    case AcceptMove => AcceptStep(p, s)
  }
}
