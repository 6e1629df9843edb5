/** The coordination region: slot rows, reservation flags and the segments the kernel holds. */
module Slots {

  type Id = int

  datatype QueueType = POLL | BOOST | SEM

  /** Key and id of a shared memory segment. */
  datatype Info = Info(key: int, shmid: int)

  datatype Row = Row(
    id: Id,
    size: int,
    kind: QueueType,
    created: bool,
    clientAttached: bool,
    serverAttached: bool,
    request: Info,
    response: Info,
    detach: bool)

  /** A zeroed row: POLL is the first queue type. */
  const BLANK: Row := Row(0, 0, POLL, false, false, false, Info(0, 0), Info(0, 0), false)

  /** What a client asks for. */
  datatype Want = Want(size: int, kind: QueueType)

  /** Integer division as C does it, towards zero. */
  function TruncDiv(a: int, b: nat): (q: int)
    requires b > 0
    ensures a >= 0 ==> q == a / b
    ensures a < 0 ==> q == -((-a) / b)
  {
    if a >= 0 then a / b else -((-a) / b)
  }

  /** The keys an allocator derives from a client id. */
  function RequestKey(t: QueueType, id: Id): (key: int) {
    if t == SEM then TruncDiv(id, 2) else id
  }

  function ResponseKey(t: QueueType, id: Id): (key: int) {
    if t == SEM then TruncDiv(id, 3) else id + 1
  }

  predicate IsKeyOf(key: int, id: Id) {
    || key == RequestKey(POLL, id) || key == ResponseKey(POLL, id)
    || key == RequestKey(SEM, id) || key == ResponseKey(SEM, id)
  }

  /** Clients whose keys can be told apart: no key is 0, no client's two keys are equal, and no key
      belongs to two clients. */
  ghost predicate KeysApart(ids: set<Id>) {
    && 0 !in ids
    && (forall x :: x in ids ==> !IsKeyOf(0, x))
    && (forall x, t: QueueType :: x in ids ==> RequestKey(t, x) != ResponseKey(t, x))
    && (forall x, y, key :: x in ids && y in ids && x != y && IsKeyOf(key, x) ==> !IsKeyOf(key, y))
  }

  /** Who may come, and what they want. */
  datatype Params = Params(slots: nat, want: map<Id, Want>)

  ghost predicate ValidParams(p: Params) {
    p.slots >= 1 && KeysApart(p.want.Keys)
  }
}
