/** The coordination region and the kernel objects behind it, as values, and what each call of the
    coordinator does to them. A slot iteration of manage_pool is one call here. */
module CoordOps {
  import opened Slots

  /** A live segment: its key, the ring laid out in it, the semaphores its header names, and the slot it
      was made for. */
  datatype Shm = Shm(key: int, kind: QueueType, size: int, sems: seq<int>, slot: nat)

  datatype Kernel = Kernel(
    keys: map<int, int>,          // shmid by key
    live: map<int, Shm>,          // live segments by shmid
    next: nat,                    // next shmid
    sems: map<int, int>,          // live semaphores, with the segment whose header names them
    nextSem: nat,
    // history
    removed: multiset<int>,       // segments removed
    destroyed: multiset<int>,     // semaphores removed
    faults: nat                   // calls that named something that was not live
  )

  const COLD: Kernel := Kernel(map[], map[], 0, map[], 0, multiset{}, multiset{}, 0)

  datatype Pool = Pool(rows: seq<Row>, reserved: seq<bool>, accept: nat, kernel: Kernel)

  predicate Sized(g: Pool, slots: nat) {
    |g.rows| == |g.reserved| == slots && g.accept < slots
  }

  // ---------------------------------------------------------------------------------------
  // Kernel calls
  // ---------------------------------------------------------------------------------------

  /** shm_create: the segment with this key, made if there is none. */
  function ShmCreate(k: Kernel, key: int, slot: nat): (r: (Kernel, int)) {
    if key in k.keys then (k, k.keys[key])
    else
      (k.(keys := k.keys[key := k.next], live := k.live[k.next := Shm(key, POLL, 0, [], slot)], next := k.next + 1),
        k.next)
  }

  /** queue_create: lay out a ring; a SEM ring gets three semaphores. */
  function QueueCreate(k: Kernel, id: int, kind: QueueType, size: int): (r: Kernel) {
    if id !in k.live then k.(faults := k.faults + 1)
    else if kind != SEM || k.live[id].sems != [] then k.(live := k.live[id := k.live[id].(kind := kind, size := size)])
    else
      var n := k.nextSem;
      k.(live := k.live[id := k.live[id].(kind := kind, size := size, sems := [n, n + 1, n + 2])],
         sems := k.sems[n := id][n + 1 := id][n + 2 := id], nextSem := n + 3)
  }

  /** The allocators: two segments with keys made from the client id, each holding a ring. */
  function Allocate(k: Kernel, kind: QueueType, size: int, x: Id, slot: nat): (r: (Kernel, Info, Info))
  {
    var a := ShmCreate(k, RequestKey(kind, x), slot);
    var b := ShmCreate(a.0, ResponseKey(kind, x), slot);
    var k' := QueueCreate(QueueCreate(b.0, a.1, kind, size), b.1, kind, size);
    (k', Info(RequestKey(kind, x), a.1), Info(ResponseKey(kind, x), b.1))
  }

  /** shm_remove */
  function ShmRemove(k: Kernel, id: int): (r: Kernel) {
    if id in k.live then
      k.(keys := k.keys - {k.live[id].key}, live := k.live - {id}, removed := k.removed + multiset{id})
    else k.(faults := k.faults + 1)
  }

  function SemRemove(k: Kernel, sem: int): (r: Kernel) {
    if sem in k.sems then k.(sems := k.sems - {sem}, destroyed := k.destroyed + multiset{sem})
    else k.(faults := k.faults + 1)
  }

  /** Remove the semaphores the header of segment id names. */
  function DestroyRing(k: Kernel, id: int): (r: Kernel) {
    if id in k.live && |k.live[id].sems| == 3 then
      var s := k.live[id].sems;
      SemRemove(SemRemove(SemRemove(k, s[0]), s[1]), s[2])
    else k.(faults := k.faults + 1)
  }

  // ---------------------------------------------------------------------------------------
  // Slots
  // ---------------------------------------------------------------------------------------

  /** The first slot from i on that is not reserved, or the number of slots. */
  function FirstFree(reserved: seq<bool>, i: nat): (f: nat)
    requires i <= |reserved|
    ensures i <= f <= |reserved|
    ensures forall j :: i <= j < f ==> reserved[j]
    ensures f < |reserved| ==> !reserved[f]
    decreases |reserved| - i
  {
    if i == |reserved| || !reserved[i] then i else FirstFree(reserved, i + 1)
  }

  function Requested(row: Row, x: Id, want: Want): (r: Row) {
    row.(id := x, size := want.size, detach := false, kind := want.kind, clientAttached := false,
         serverAttached := false, created := false)
  }

  function RequestSlot(g: Pool, x: Id, want: Want): (r: (Pool, int))
    requires |g.rows| == |g.reserved|
  {
    var i: int := FirstFree(g.reserved, 0);
    if i == |g.reserved| then (g, -1)
    else (g.(rows := g.rows[i := Requested(g.rows[i], x, want)], reserved := g.reserved[i := true]), i)
  }

  function ServiceSlot(g: Pool, i: nat, kind: QueueType): (r: (Pool, int))
    requires i < |g.rows| == |g.reserved|
  {
    if g.reserved[i] && !g.rows[i].created then
      var a := Allocate(g.kernel, kind, g.rows[i].size, g.rows[i].id, i);
      (g.(kernel := a.0, rows := g.rows[i := g.rows[i].(request := a.1, response := a.2, created := true)]),
        g.rows[i].id)
    else (g, -1)
  }

  /** clean_up_queue_resources */
  function CleanUp(g: Pool, i: nat): (r: Pool)
    requires i < |g.rows| == |g.reserved|
  {
    if g.reserved[i] && g.rows[i].detach && g.rows[i].kind == SEM then
      g.(kernel := DestroyRing(DestroyRing(g.kernel, g.rows[i].request.shmid), g.rows[i].response.shmid))
    else g
  }

  function ForceClear(g: Pool, i: nat): (r: Pool)
    requires i < |g.rows| == |g.reserved|
  {
    var k := if g.rows[i].created then ShmRemove(ShmRemove(g.kernel, g.rows[i].request.shmid), g.rows[i].response.shmid)
             else g.kernel;
    g.(kernel := k, rows := g.rows[i := BLANK], reserved := g.reserved[i := false])
  }

  function ClearSlot(g: Pool, i: nat): (r: Pool)
    requires i < |g.rows| == |g.reserved|
  {
    if g.rows[i].detach then ForceClear(g, i) else g
  }

  /** One slot iteration of manage_pool. */
  function Iterate(g: Pool, i: nat): (r: Pool)
    requires i < |g.rows| == |g.reserved|
    ensures |r.rows| == |r.reserved| == |g.rows| && r.accept == g.accept
  {
    ClearSlot(CleanUp(ServiceSlot(g, i, g.rows[i].kind).0, i), i)
  }

  /** manage_pool from slot i on. */
  function Passed(g: Pool, i: nat): (r: Pool)
    requires i <= |g.rows| == |g.reserved|
    decreases |g.rows| - i
  {
    if i == |g.rows| then g
    else Passed(Iterate(g, i), i + 1)
  }

  /** coord_shutdown: ask for every slot to be given up. */
  function DetachAll(g: Pool): (r: Pool) {
    g.(rows := seq(|g.rows|, i requires 0 <= i < |g.rows| => g.rows[i].(detach := true)))
  }

  /** The first row from i on with this client id, or the number of rows. */
  function FirstRow(rows: seq<Row>, x: Id, i: nat): (f: nat)
    requires i <= |rows|
    ensures i <= f <= |rows|
    ensures forall j :: i <= j < f ==> rows[j].id != x
    ensures f < |rows| ==> rows[f].id == x
    decreases |rows| - i
  {
    if i == |rows| || rows[i].id == x then i else FirstRow(rows, x, i + 1)
  }

  /** client_close */
  function Close(g: Pool, x: Id): (r: (Pool, int)) {
    var i := FirstRow(g.rows, x, 0);
    if i == |g.rows| then (g, -1) else (g.(rows := g.rows[i := g.rows[i].(detach := true)]), 0)
  }

  // ---------------------------------------------------------------------------------------
  // accept
  // ---------------------------------------------------------------------------------------

  predicate Eligible(g: Pool, i: nat)
    requires i < |g.rows| == |g.reserved|
  {
    !g.rows[i].detach && g.reserved[i] && g.rows[i].created
  }

  function NextSlot(i: nat, slots: nat): (r: nat)
    requires slots > 0
    ensures r < slots
  {
    (i + 1) % slots
  }

  /** The slot accept settles on when it looks at n slots from `at` on; the number of slots if none. */
  function Pick(g: Pool, at: nat, n: nat): (r: nat)
    requires at < |g.rows| == |g.reserved|
    ensures r <= |g.rows|
    ensures r < |g.rows| ==> Eligible(g, r)
    decreases n
  {
    if n == 0 then |g.rows|
    else if Eligible(g, at) then at
    else Pick(g, NextSlot(at, |g.rows|), n - 1)
  }

  /** What accept hands to the caller: a slot and, the first time, the pair to attach to. */
  datatype Accepted = Nothing | Pair(slot: nat, id: Id, request: Info, response: Info) | Null(slot: nat, id: Id)

  function Accept(g: Pool): (r: (Pool, Accepted))
    requires |g.rows| == |g.reserved| && g.accept < |g.rows|
    ensures Sized(r.0, |g.rows|)
  {
    var i := Pick(g, g.accept, |g.rows|);
    if i == |g.rows| then (g, Nothing)
    else
      var g' := g.(accept := NextSlot(i, |g.rows|));
      if g.rows[i].serverAttached then (g', Null(i, g.rows[i].id))
      else
        (g'.(rows := g.rows[i := g.rows[i].(serverAttached := true)]),
         Pair(i, g.rows[i].id, g.rows[i].request, g.rows[i].response))
  }
}
