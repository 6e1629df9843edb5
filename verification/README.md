# A verified model of the notnets shared-memory RPC library

notnets connects RPC clients and servers of one machine through shared memory. A server owns a *coordination
region* of slots. A client reserves a slot; the server's manager thread makes a pair of rings for it (one for requests,
one for responses) and publishes them in the slot's row; both sides attach, exchange fixed-size messages, and give the
slot back by raising a detach flag. This project models those parts in Dafny and proves what they guarantee over every
run and every interleaving.

Run `dafny verify dfyconfig.toml` in this directory to check everything.

## How the model is built

| files | part of the system |
|---|---|
| `Bytes`, `Cells`, `Fifo` | byte strings, the cell layout of the message array and what a cell holds after any pushes, the abstract byte-stream queue |
| `PollMachine`, `PollTheorems` | the lock-free ring, one load, store or byte copy at a time; an acquire load of the other side's index returns any value not older than the one seen before (C11, sections 5.1.2.4 and 7.17.3) |
| `SemMachine`, `SemTheorems`, `SemLostWakeUp` | the semaphore ring at the same grain; semaphores are counters (`semop`, section 2.7 of the POSIX System Interfaces) |
| `QueueOps`, `PollQueue`, `SemQueue`, `PartialReads`, `CallSequences` | whole `push` and `pop` calls of both rings on their headers and bytes, in place; partial reads; sequences of calls |
| `PollCalls`, `SemCalls` | such a call is a run of the ring's machine in which one thread moves alone |
| `RpcChannel`, `Pipelining` | a request ring, a response ring, a client thread and a receive-then-send server thread together |
| `Slots`, `SlotProtocol`, `SlotInvariant`, `SlotManager`, `SlotTheorems`, `SlotProgress`, `ClientProgress`, `QueueTypeRace` | clients under the mutex, the manager without it and the accepting thread, which drops it, one load, store or system call at a time, for any number of slots and clients |
| `AcceptInvariant`, `AcceptScan`, `AcceptRuns`, `AcceptRace`, `AcceptAstray`, `AcceptNames` | `accept` in that machine: what it knows, what it hands out over whole runs and under which id, exactly when it goes astray, and runs in which it does |
| `CoordOps`, `CoordRegion`, `AcceptOrder` | the calls of the coordinator as whole calls, in place and on values; round-robin order of `accept` |
| `KernelObjects`, `Resources`, `ResourceRuns`, `EarlyReopen` | segments and semaphores over whole runs, with a slot iteration of the manager cut in two at its second test of the detach flag; a client that comes back too early |
| `ShutdownHandshake`, `ShutdownWork` | the runner thread and the thread that calls `shutdown`; what that thread does to the pool |
| `RunningStat`, `Hash` | Welford's recurrence over exact reals; the xor-and-rotate hash over 32-bit words |

Every machine has a state, an action type, `Enabled` and `Step`; `Reaches` says that a sequence of actions leads from
one state to another, and the main theorems quantify over all such sequences. Fields under "history" record what has
happened and are read by no step.

What is taken for granted: `message_size` is at least 1; there is at least one slot; a ring has one producer and one consumer; the coordination
region starts zeroed; client ids that are in use at the same time are different and their keys can be told apart
(`Slots.KeysApart`: no key is 0, and no key is derived from two ids, as ids 7 and 8 would share key 8); a client asks for a
slot only when it has none (`EarlyReopen` says what happens otherwise); there is one accepting thread; a fresh segment or
semaphore gets a number not used before; no `client_open` is in flight during `shutdown`. Loads and stores of the
coordination region and of `manage_pool_state` are sequentially consistent, and so are those of the SEM ring's header,
whose `is_full` and `is_empty` tests are also made without the lock. Only the POLL ring is modelled with weaker loads.

## Where the code and what it promises differ

- The SEM ring can lose a wake-up. `was_empty` is sampled before the lock is dropped, so a push that slept on a full ring
  may publish into a drained ring and post nothing; a pop that slept on an empty ring may take from a filled one and post
  nothing. `SemTheorems.ConsumerWakeUps` and `ProducerWakeUps` say exactly which runs lose a wake-up, and that it is then
  lost for good; `SemLostWakeUp.CanLoseExactly` says that there are such runs, for either side, if and only if the ring has
  at least two cells. As long as neither is lost the ring does not come to a standstill (`SemTheorems.AlwaysMoves`).
- `accept` is meant to hand out a client's queues once. It drops the mutex before it reads the slot it has picked, and the
  manager may clear the slot and service it for the next client meanwhile. So a client that stays connected can be handed
  out never (`AcceptAstray.NeverHanded`: a call left over from the slot's previous tenant puts up the new tenant's flag) or
  twice (`AcceptAstray.HandedTwice`: such a call copies the new pair before it is published, and then sets no flag), and a
  call can wait for ever (`AcceptAstray.WaitsForEver`). `AcceptRuns.PickedPairExactly` says exactly when a call has the live
  pair of the tenancy it picked, `AcceptRace.AddressesOnce` exactly which tenancies are safe, at the moment the slot is
  reserved, and `AcceptRuns.HandedExactlyOnce` exactly when a tenancy is handed out once. Of these `AddressesOnce` is the condition
  that can be read off the state; `HandedExactlyOnce` compares the flag with the number of hand-outs so far.
- `accept` reads the queue type and the id before it knows that the pair is there. A call left over from an earlier tenancy
  can return a client's pair with an id or a queue type that is not the client's (`AcceptNames.Misnamed`). A call picked
  in the tenancy always has the right ones (`AcceptRuns.PairInHand`); `AcceptNames.NamedExactly` says exactly which
  left-over calls, at the moment of the reservation, can go wrong.
- The manager tests the detach flag of a slot twice in one iteration, in `clean_up_queue_resources` and in `clear_slot`. A
  close of a SEM client between the two removes the segments and leaves their six semaphores live, with nothing that names
  them: for good, also after `shutdown` (`ResourceRuns.ShutdownLeavesOrphans`). There are exactly six for each such close
  (`ResourceRuns.ResourcesConserved`), and there are runs with such a close if and only if some client asks for SEM
  (`ResourceRuns.CanOrphanExactly`).
- A client that asks for a slot again before its old one has been given up, which it cannot observe, is left with a removed
  pair if and only if the manager comes to the new slot before the old one (`EarlyReopen.ReopenExactly`).
- A return value of 0 from `pop` means "record finished" except for a read of size 0 at the start of a record
  (`PartialReads.ZeroMeansFinished`).
- With the stop flag up, the POLL ring still cuts the caller's size, the SEM ring does not (`QueueOps.StopDiffers`).
- `manage_pool` reads the queue type before `service_slot` tests the reservation. A client that asks for anything but POLL
  can therefore be given rings laid out by the POLL allocator; POLL clients cannot (`QueueTypeRace.QueueTypeExactly`).
- Two different addresses can hash to one client id; `Hash.NeighboursCollideExactly` says when neighbouring bytes cancel.
- A ring of a single cell, which `queue_create` accepts, never lets a push through (`PollTheorems.SingleCellNeverSends`).

## Model

| member | source | states |
|---|---|---|
| `PollTheorems.DeliversPrefix` | libnotnets/src/queue.cpp:52-137 | in every interleaving, with any coherent stale index loads, the bytes delivered are a prefix of the records pushed, in order; the number of records in the ring is between 0 and queue_size - 1 |
| `PollTheorems.SimulatesFifo` | libnotnets/src/queue.cpp:52-137 | forward simulation by the abstract queue: the store to head appends one record, the store to tail is a read with the same bytes, size and return value, every other step is invisible |
| `PollTheorems.PushesAnswered` | libnotnets/src/queue.cpp:52-78 | over every run a push has returned 0 for each record published and -1 for each buffer that was too long, and nothing else |
| `PollTheorems.PopsAnswered` | libnotnets/src/queue.cpp:89-137 | a pop returns how far the oldest record has been read, or 0 if it found the stop flag up |
| `PollTheorems.StopExactly` | libnotnets/src/queue.cpp:89-101 | the stop flag is up if and only if somebody has put it up |
| `PollTheorems.StoppedReadsNothing` | libnotnets/src/queue.cpp:89-101 | with the flag up a consumer that has not got past the test reads nothing any more in any run, and all its pops return 0 |
| `PollTheorems.CopiesStayInCell` | libnotnets/src/queue.cpp:67-133 | every byte copied in or out, in every run, lies inside the one cell the index names |
| `PollTheorems.CopiesDisjoint` | libnotnets/src/queue.cpp:67-133 | race freedom: while both sides are inside their copies the byte ranges are disjoint |
| `PollTheorems.CopiesSynchronised` | libnotnets/src/queue.cpp:61-75 | before a side touches a cell it has loaded an index that was stored after the other side was done with that cell |
| `PollTheorems.ProducerWaits` | libnotnets/src/queue.cpp:61-69 | a load of tail, however stale, lets the producer through if and only if the records finished by then leave a cell; on a full ring none does, otherwise the newest does |
| `PollTheorems.ConsumerWaits` | libnotnets/src/queue.cpp:102-105 | a load of head lets the consumer through if and only if it shows a record not yet finished; on an empty ring none does, otherwise the newest does |
| `PollTheorems.SingleCellNeverSends` | libnotnets/src/queue.cpp:27-69 | with queue_size 1 no run ever publishes a record |
| `PollMachine.StepInv` | libnotnets/src/queue.cpp:52-137 | every micro-step keeps the invariant tying indices, counters, copied bytes and cell contents together |
| `Cells.ShortPush` | libnotnets/src/queue.cpp:73-75 | record k is its buffer followed by the leftover bytes of record k - queue_size, or of the initial array in the first lap |
| `Cells.RecordSurvives` | libnotnets/src/queue.cpp:61-75 | a record stays in its cell for the next queue_size - 1 pushes |
| `Cells.AddressesDiffer` | libnotnets/src/queue.cpp:73-117 | cells do not overlap |
| `PollQueue.CellsFit` | libnotnets/src/queue.cpp:26-42 | the cells are as many as fit behind the header, and header plus cells is the segment size less the leftover bytes |
| `PollQueue.QueueCreate` | libnotnets/src/queue.cpp:20-43 | no queue if header and one message do not fit; otherwise an empty one, and the value returned is header + queue_size * message_size, at most shm_size, with no room for one more cell |
| `PollQueue.Queue.constructor` | libnotnets/src/queue.cpp:20-43 | an empty queue with as many cells as fit in the segment behind the header |
| `PollQueue.Queue.Push` | libnotnets/src/queue.cpp:52-78 | returns -1 if and only if the buffer is too long, and then nothing has changed; otherwise 0, and the abstract queue has one record more, the buffer over what the cell held; header and bytes are those of the specification, the rest of the segment is left alone |
| `PollQueue.Queue.Pop` | libnotnets/src/queue.cpp:89-137 | bytes, size and value are those of a read of the abstract queue; header as the specification says, bytes left alone |
| `QueueOps.PollPushAppends` | libnotnets/src/queue.cpp:57-77 | an accepted push appends exactly one record, the buffer over what the cell held |
| `QueueOps.PollPopTakes` | libnotnets/src/queue.cpp:89-137 | a pop is a read of the abstract queue, wrap-around included |
| `QueueOps.PushAnswers` | libnotnets/src/queue.cpp:57-77 | 0 if and only if one record more, namely the buffer over the old cell; -1 if and only if the buffer is too long, and then nothing has changed |
| `QueueOps.SemPushAnswers` | libnotnets/src/sem_queue.cpp:281-306 | the same for sem_push; sem_empty goes up by one if and only if the record went into an empty queue, lock and sem_full stay, both counters count the record |
| `QueueOps.SemPopAnswers` | libnotnets/src/sem_queue.cpp:343-368 | a read of the abstract queue; sem_full goes up by one if and only if the queue was full, lock, sem_empty and total_count stay |
| `CallSequences.StreamConserved` | libnotnets/src/queue.cpp:52-137 | for every sequence of calls: what was pending and what has been appended is, byte for byte, what has been read and what is pending; as many records appended as pushes answered with 0, as many answers of -1 as buffers that were too long |
| `CallSequences.SemStreamConserved` | libnotnets/src/sem_queue.cpp:281-368 | the same for the semaphore ring, with total_count up by the pushes answered with 0 and the lock as before |
| `PollCalls.PushRuns` | libnotnets/src/queue.cpp:52-78 | from every state of the machine, whatever the consumer is doing: if there is room, or the buffer is too long, the producer moving alone gets through push, and header, bytes and return value are those of the whole call |
| `PollCalls.PopRuns` | libnotnets/src/queue.cpp:89-137 | the same for pop |
| `SemCalls.PushRuns` | libnotnets/src/sem_queue.cpp:281-306 | the same for sem_push, with counters and all three semaphores, whatever the consumer is doing outside the lock |
| `SemCalls.PopRuns` | libnotnets/src/sem_queue.cpp:343-368 | the same for sem_pop |
| `QueueOps.CallsAgree` | libnotnets/src/sem_queue.cpp:255-368 | POLL and SEM calls return without waiting in the same states and then do the same, compare-and-reset against modular wrap-around |
| `QueueOps.RingsAgree` | libnotnets/src/sem_queue.cpp:255-368 | any sequence of calls with any read sizes gets the same bytes, clamped sizes and return values from both rings |
| `QueueOps.StopDiffers` | libnotnets/src/sem_queue.cpp:347-349 | with the stop flag up the replies agree if and only if the read fits in the rest of the record |
| `PartialReads.TakeConserves` | libnotnets/src/queue.cpp:93-137 | a read moves bytes from the pending stream to the caller, none lost or repeated |
| `PartialReads.ChunksConserve` | libnotnets/src/queue.cpp:93-137 | the same for any sequence of read sizes |
| `PartialReads.ChunkingIrrelevant` | libnotnets/src/queue.cpp:93-137 | what is read does not depend on how the reads are cut |
| `PartialReads.ZeroMeansFinished` | libnotnets/src/rpc.cpp:213-227 | a return of 0 means "record finished" if and only if the call was not a read of size 0 at the start of a record; any other value is the bytes of it consumed so far |
| `PartialReads.ReadRecordExact` | libnotnets/src/rpc.cpp:213-227 | reading with a buffer of b > 0 bytes until 0 takes exactly ceil(message_size / b) calls and yields one record |
| `SemTheorems.Safety` | libnotnets/src/sem_queue.cpp:260-368 | lock value plus holders is 1; a record is never written into a full ring nor taken from an empty one although neither side tests again; current_count is (head - tail) mod queue_size whenever the lock is free |
| `SemTheorems.DeliversPrefix` | libnotnets/src/sem_queue.cpp:267-368 | delivery is first in, first out over every run |
| `SemTheorems.SimulatesFifo` | libnotnets/src/sem_queue.cpp:267-368 | forward simulation by the same abstract queue as the POLL ring |
| `SemTheorems.PushesAnswered` | libnotnets/src/sem_queue.cpp:281-306 | the same for sem_push: 0 for each record published, once the push has returned, and -1 for each buffer that was too long |
| `SemTheorems.PopsAnswered` | libnotnets/src/sem_queue.cpp:343-368 | the same for sem_pop |
| `SemTheorems.StopExactly` | libnotnets/src/sem_queue.cpp:343-349 | the same for the semaphore ring |
| `SemTheorems.StoppedReadsNothing` | libnotnets/src/sem_queue.cpp:343-349 | the same for the semaphore ring |
| `SemTheorems.CopiesStayInCell` | libnotnets/src/sem_queue.cpp:267-327 | every copy stays in its cell and the two sides are never copying at once |
| `SemTheorems.ConsumerLostExactly` | libnotnets/src/sem_queue.cpp:288-304 | a consumer wake-up is lost by a step if and only if a push that took the full branch publishes into a drained ring while the consumer is about to sleep without a token |
| `SemTheorems.ConsumerWakeUps` | libnotnets/src/sem_queue.cpp:281-306 | over whole runs: the consumer sleeps on a non-empty ring with no token and no post due if and only if the run contains such a push |
| `SemTheorems.ConsumerStaysLost` | libnotnets/src/sem_queue.cpp:353-359 | no later step of either side wakes it |
| `SemTheorems.ProducerLostExactly` | libnotnets/src/sem_queue.cpp:351-366 | the same for the producer: a pop that took the empty branch takes from a filled ring |
| `SemTheorems.ProducerWakeUps` | libnotnets/src/sem_queue.cpp:343-368 | over whole runs, if and only if, for the producer |
| `SemTheorems.ProducerStaysLost` | libnotnets/src/sem_queue.cpp:291-297 | no later step wakes the producer |
| `SemTheorems.AlwaysMoves` | libnotnets/src/sem_queue.cpp:281-368 | with at least two cells, two threads inside calls, neither of which has lost a wake-up, always have a step to take |
| `SemTheorems.StandstillAfterLoss` | libnotnets/src/sem_queue.cpp:281-368 | a run comes to a standstill inside two calls only if it contains a push or a pop that loses a wake-up |
| `SemLostWakeUp.ConsumerLoses` | libnotnets/src/sem_queue.cpp:289-304 | for every ring of at least two cells and whatever is pushed, a run that loses a wake-up of the consumer |
| `SemLostWakeUp.ProducerLoses` | libnotnets/src/sem_queue.cpp:351-366 | the same for the producer |
| `SemLostWakeUp.CanLoseExactly` | libnotnets/src/sem_queue.cpp:281-368 | for either side, some run loses a wake-up if and only if the ring has at least two cells |
| `SemMachine.StepInv` | libnotnets/src/sem_queue.cpp:255-368 | every micro-step keeps the invariant |
| `SemQueue.Queue.constructor` | libnotnets/src/sem_queue.cpp:201-253 | an empty ring; lock 1, full 1, empty 0 |
| `SemQueue.Queue.Enqueue` | libnotnets/src/sem_queue.cpp:267-278 | the in-place enqueue: bytes, both counters, head |
| `SemQueue.Queue.Push` | libnotnets/src/sem_queue.cpp:281-306 | as for the lock-free ring; besides sem_empty is posted if and only if the queue was empty, lock and sem_full are as before, total_count has gone up by one |
| `SemQueue.Queue.Dequeue` | libnotnets/src/sem_queue.cpp:311-340 | the in-place dequeue: clamped size, bytes, offset, tail, counter |
| `SemQueue.Queue.Pop` | libnotnets/src/sem_queue.cpp:343-368 | a read of the abstract queue; besides sem_full is posted if and only if the queue was full, lock and sem_empty are as before |
| `RpcChannel.ResponsesAnswerRequests` | bench_rpc/src/bench_utils.cpp:60-97 | for every server function and every interleaving of client, server and both rings, what the client has received is a prefix of the answers to its requests, in order |
| `RpcChannel.IthResponse` | bench_rpc/src/bench_utils.cpp:60-97 | the i-th whole response is the server function of the i-th request |
| `RpcChannel.StepKeepsInv` | libnotnets/src/rpc.cpp:595-606 | every move of the composed channel keeps both rings' invariants and the tie between them |
| `Pipelining.SendsNeverComplete` | libnotnets/src/queue.cpp:61-77 | with K >= 2 * queue_size requests to send before reading, no run completes the sends; 2 * queue_size - 1 is the most that is ever sent |
| `Pipelining.NeverStuck` | test/src/rpc/RPCTest.cpp:162-176 | with queue_size >= 2 and K <= 2 * queue_size - 1, every reachable state is finished or has a move other than spinning |
| `Pipelining.ProgressBounded` | test/src/rpc/RPCTest.cpp:162-176 | no run makes more than 4(K + 1)(message_size + 6) moves besides spinning |
| `Pipelining.Occupancy` | libnotnets/src/queue.cpp:61-133 | both rings' fill levels and the request in the server's hands account for all requests |
| `SlotTheorems.StepInv` | libnotnets/src/coord.cpp:109-291 | every step of every client, of the manager and of the accepting thread keeps the slot invariant |
| `SlotTheorems.TenancyExclusive` | libnotnets/src/coord.cpp:109-135 | no slot is held, or held and filled in, by two clients at once |
| `SlotTheorems.SlotsGuarded` | libnotnets/src/coord.cpp:109-291 | every step of every run: a slot is reserved only when nobody holds it and its row is complete, released only when its row is wiped and its owner has detached; a client overwrites a row only while it is unreserved and under the mutex; the manager writes only to reserved rows; the accepting thread writes nothing but its flag |
| `SlotTheorems.PublicationSafe` | libnotnets/src/rpc.cpp:54-80 | a client that has seen shm_created reads a pair made in this tenancy from its own id and message size, both segments live and laid out; its copies agree with the row, and it is the first to attach, so its addresses are not NULL |
| `SlotTheorems.CloseFindsItsSlot` | libnotnets/src/rpc.cpp:246-266 | client_close raises the flag in its own row only, and never comes back with -1 |
| `SlotTheorems.SegmentsAccounted` | libnotnets/src/coord.cpp:246-283 | at every moment the live segments are exactly those a slot answers for, and no two slots answer for the same one |
| `SlotTheorems.NothingLeft` | libnotnets/src/coord.cpp:270-283 | when all slots are free no segment is left |
| `SlotProgress.ReservationServiced` | libnotnets/src/rpc.cpp:413-433 | a reservation is serviced for the client that made it within 32(slots + 1) steps of the manager, whatever the clients do |
| `SlotProgress.DetachedSlotReleased` | libnotnets/src/rpc.cpp:413-433 | a slot whose client has closed is given up within 32(slots + 1) steps of the manager |
| `ClientProgress.ScanExactly` | libnotnets/src/coord.cpp:109-135 | under the mutex a client looks at the slots in order, and settles on slot i if and only if i is the first it found free when it looked; it is refused if and only if it found every slot reserved |
| `ClientProgress.RequestGranted` | libnotnets/src/coord.cpp:109-135 | a client that has the mutex while some slot is free is granted a slot no later than that one within slots + 9 of its own steps, whatever manager, acceptor and other clients do |
| `ClientProgress.MutexGivenBack` | libnotnets/src/rpc.cpp:172-180 | granted or refused, a client gives the mutex back within slots + 9 of its own steps, and one that was refused asks again |
| `ClientProgress.ClientConnects` | libnotnets/src/rpc.cpp:54-80 | a client whose pair has been published is connected within 8 of its own steps |
| `ClientProgress.CloseEnds` | libnotnets/src/rpc.cpp:246-266 | client_close ends within slots + 9 of the client's steps with the flag in the client's own row up |
| `QueueTypeRace.QueueTypeExactly` | libnotnets/src/rpc.cpp:416-429 | over all runs a client's rings are of the type it asked for if and only if it asked for POLL |
| `QueueTypeRace.WrongTypePossible` | libnotnets/src/rpc.cpp:416-429 | for any other type, with any slots and clients, there is a run that connects the client to POLL rings |
| `AcceptInvariant.StepAccept` | libnotnets/src/rpc.cpp:499-534 | every step of every thread keeps what the accepting thread knows: mutex, picked tenancy, copies, id, queue type and flag are those of the row for as long as the tenancy goes on, and the segments it names are of its slot or gone |
| `AcceptScan.PicksExactly` | libnotnets/src/rpc.cpp:503-520 | under the mutex accept tests the slots in turn from accept_slot on; it picks a slot if and only if it passed all three tests when they were made, every slot before it having failed one, and comes back with nothing if and only if every slot failed one |
| `AcceptRuns.PairInHand` | libnotnets/src/rpc.cpp:84-108 | at every moment between the key test and the attachment the call has the live pair of the tenancy it picked if and only if that tenancy has not been cleared, and then also its client's id, message size and queue type |
| `AcceptRuns.PickedPairExactly` | libnotnets/src/rpc.cpp:515-525 | over whole runs from the pick: it has that pair if and only if no step since has removed the slot's first segment (and none had before) |
| `AcceptRuns.AttachesExactly` | libnotnets/src/rpc.cpp:103-108 | the two shm_attach calls succeed on the tenancy picked exactly as long as its segments have not been removed |
| `AcceptRuns.AccountRun` | libnotnets/src/rpc.cpp:97-108 | for as long as a tenancy stands, addresses handed out or about to be, less the flag, stay the same, unless a call gone astray is under way |
| `AcceptRuns.HandedExactly` | libnotnets/src/rpc.cpp:84-114 | fairness and uniqueness in every interleaving: after as many calls of accept as there are slots, a tenancy that stayed eligible has been handed out once more than before if its flag was down, and not again if it was up |
| `AcceptRuns.HandedExactlyOnce` | libnotnets/src/rpc.cpp:84-114 | so it has been handed out exactly once if and only if at the start it had been handed out as often as its flag says |
| `AcceptRuns.CallReturns` | libnotnets/src/rpc.cpp:499-534 | a call returns within 3 * slots + 20 of its own steps unless the row of the slot it picked is wiped under it |
| `AcceptRuns.WaitsForPair` | libnotnets/src/rpc.cpp:88-90 | a call that looks again waits for as long as the slot has no pair |
| `AcceptRace.AddressesOnce` | libnotnets/src/rpc.cpp:84-114 | at the moment of a reservation: in every continuation the tenancy is handed out as often as its flag says, at most once, for as long as it stands, if and only if no call left over from an earlier tenancy has put up the flag or is at a point from which it can still go astray |
| `AcceptNames.NamedExactly` | libnotnets/src/rpc.cpp:84-114 | at the moment of a reservation: in every continuation the tenant's pair is returned with the tenant's id and queue type, for as long as the tenancy stands, if and only if no call left over from an earlier tenancy has read others or has yet to read the id while there is none |
| `AcceptNames.ClearIsNamed` | libnotnets/src/rpc.cpp:84-114 | a call picked in the tenancy, or settled on the right names, returns the tenant's id and queue type |
| `AcceptNames.RunLowered` | libnotnets/src/rpc.cpp:97-103 | once the tenancy a call was picked for has been wiped, the slot's flag is down until that call puts it up |
| `AcceptNames.Misnamed` | libnotnets/src/rpc.cpp:84-114 | for any slots and clients, a run to a call that is about to return a client's live pair with an id or a queue type that is not the client's |
| `AcceptAstray.NeverHanded` | libnotnets/src/rpc.cpp:84-114 | for any slots and clients, a run to a state with an eligible slot that no continuation hands out |
| `AcceptAstray.HandedTwice` | libnotnets/src/rpc.cpp:84-114 | for any slots and clients, a run that hands out a tenancy twice |
| `AcceptAstray.WaitsForEver` | libnotnets/src/rpc.cpp:88-90 | for any slots and clients, a call that returns in no continuation without a new publication of the slot |
| `CoordOps.FirstFree` | libnotnets/src/coord.cpp:113-114 | the first slot that is not reserved |
| `CoordOps.FirstRow` | libnotnets/src/rpc.cpp:251-252 | the first row with this client id |
| `CoordRegion.Coord.constructor` | libnotnets/src/coord.cpp:201-230 | all rows blank, no slot reserved, accept_slot at 0 |
| `CoordRegion.Coord.RequestSlot` | libnotnets/src/coord.cpp:109-135 | returns the first free slot, now reserved in the caller's name by the seven stores, or -1 and no change if and only if all are reserved |
| `CoordRegion.Coord.SetServerAttachState` | libnotnets/src/coord.cpp:189-198 | writes the flag of a created slot only and reports it |
| `CoordRegion.Coord.ClientClose` | libnotnets/src/rpc.cpp:246-266 | marks the first row that names the client, -1 if there is none |
| `CoordRegion.Coord.ServiceSlot` | libnotnets/src/coord.cpp:232-261 | makes and publishes the pair of a reserved slot that has none and returns the client's id; otherwise -1 and no change |
| `CoordRegion.Coord.CleanUpQueueResources` | libnotnets/src/rpc.cpp:373-397 | destroys the semaphores of a detached SEM slot |
| `CoordRegion.Coord.ForceClearSlot` | libnotnets/src/coord.cpp:270-283 | removes the segments, zeroes the row, frees the slot |
| `CoordRegion.Coord.ClearSlot` | libnotnets/src/coord.cpp:285-291 | the same for a detached slot only |
| `CoordRegion.Coord.ManageSlot` | libnotnets/src/rpc.cpp:416-432 | one iteration, with nothing happening meanwhile; from a pool in order to a pool in order, a detached slot blank and free, a reserved one serviced, no semaphore orphaned |
| `CoordRegion.Coord.ManagePool` | libnotnets/src/rpc.cpp:413-433 | one pass is one iteration for each slot in turn |
| `CoordRegion.Coord.Shutdown` | libnotnets/src/coord.cpp:293-299 | raises every detach flag, changes nothing else |
| `CoordRegion.Coord.FinishShutdown` | libnotnets/src/rpc.cpp:588-589 | from every pool a run can reach between two slot iterations: all slots free and blank, no segment live, the live semaphores exactly those orphaned before, everything else removed exactly once |
| `CoordRegion.Coord.CreateServerQueuePair` | libnotnets/src/rpc.cpp:84-114 | addresses the first time a slot is asked for, NULL later |
| `CoordRegion.Coord.Accept` | libnotnets/src/rpc.cpp:499-534 | the first eligible slot from accept_slot on, going round, and accept_slot moved just past it; nothing if and only if no slot is reserved, created and undetached; the slot's own id, and its own pair if and only if the flag was down |
| `Resources.IterateKeeps` | libnotnets/src/rpc.cpp:416-432 | a whole slot iteration keeps the pool invariant, services a reserved slot and blanks a detached one, touches no other slot and orphans no semaphore |
| `Resources.SweptKeeps` | libnotnets/src/coord.cpp:285-291 | clear_slot after a clean-up that found the flag up: segments removed, no semaphore orphaned |
| `Resources.UnsweptKeeps` | libnotnets/src/coord.cpp:285-291 | clear_slot after a clean-up that found the flag down: six semaphores orphaned if the flag of a created SEM row has come up since, none otherwise |
| `Resources.CloseKeeps` | libnotnets/src/rpc.cpp:246-266 | a close marks exactly the caller's row, and returns 0 if and only if the caller has one |
| `Resources.RequestAnswers` | libnotnets/src/coord.cpp:109-135 | the slot returned is the first that was free, is now reserved, and its row names the caller and what it wants with all flags down; -1 if and only if there is none |
| `Resources.ServiceAnswers` | libnotnets/src/coord.cpp:232-261 | the client's id if there was a reservation to service, which now has its pair; otherwise -1 and no change |
| `Resources.LastPassClears` | libnotnets/src/rpc.cpp:588-590 | the last pass of shutdown leaves the orphans there were, and nothing else |
| `ResourceRuns.StepInv` | libnotnets/src/rpc.cpp:413-534 | every request, close and attach, the two parts of a slot iteration and the two stores of accept keep the invariant, in any interleaving of these; six semaphores are forfeited by a close of a SEM client between the two tests of its slot, and by nothing else |
| `ResourceRuns.RunForfeits` | libnotnets/src/rpc.cpp:413-433 | over whole runs: orphans there are or are about to be grow by six for each such close; orphans stay orphans |
| `ResourceRuns.FlagsExactly` | libnotnets/src/coord.cpp:137-198 | over every run the attach flags of a slot are up if and only if they have been put up since the slot was last requested or cleared, and accept_slot is what accept last stored |
| `ResourceRuns.ResourcesConserved` | libnotnets/src/rpc.cpp:373-433 | over every run, a slot iteration being two steps (type load, service and clean-up; clear): live segments are exactly those of created rows, rings have the type and size asked for, every object made is live or was removed exactly once, no removal failed; live semaphores are those of created SEM rows not yet cleaned up, and the orphans, six for each close between the two |
| `ResourceRuns.SemaphoresNamedExactly` | libnotnets/src/rpc.cpp:373-433 | between iterations the live semaphores are exactly those of created SEM rows if and only if no close came between the two tests of its slot |
| `ResourceRuns.ShutdownLeavesOrphans` | libnotnets/src/rpc.cpp:588-590 | after the last pass all slots are free, also those reserved but never serviced, no segment is live, and exactly the orphans are left, six for each such close |
| `ResourceRuns.CanOrphanExactly` | libnotnets/src/rpc.cpp:373-397 | some run orphans semaphores if and only if some client asks for SEM |
| `EarlyReopen.RequestExactly` | libnotnets/src/rpc.cpp:172-180 | a request never spoils rows, segments or semaphores; it gives a client two slots if and only if it is granted to a client that has one |
| `EarlyReopen.ReopenExactly` | libnotnets/src/coord.cpp:246-283 | for every pool, client, old slot and order of slot iterations: the pair the client is given is live if and only if the manager came to the old slot before the new one; then all is in order, otherwise both segments are gone |
| `EarlyReopen.NewFirst` | libnotnets/src/coord.cpp:246-255 | serviced first, the new slot is given the old segments with the semaphores they have; none are made |
| `KernelObjects.DestroyKeeps` | libnotnets/src/sem_queue.cpp:19-42 | destroying the semaphores of a ring removes its three, once, and no other |
| `AcceptOrder.WithinOneRound` | libnotnets/src/rpc.cpp:499-534 | a slot that stays reserved, created and undetached is returned within as many calls of accept as there are slots, whatever the other slots do, and none of these calls returns NULL |
| `AcceptOrder.WithinDistance` | libnotnets/src/rpc.cpp:503-517 | sharper: within the cyclic distance from accept_slot |
| `AcceptOrder.InTurn` | libnotnets/src/rpc.cpp:503-517 | when all slots are eligible they are returned in turn, so the bound is attained |
| `AcceptOrder.PicksFirst` | libnotnets/src/rpc.cpp:507-526 | accept settles on the nearest eligible slot |
| `AcceptOrder.AcceptAnswers` | libnotnets/src/rpc.cpp:499-534 | what a call answers, field by field: nothing if and only if no slot is eligible, else the slot's own id and, if and only if its flag was down, its own pair; it changes accept_slot and that flag only |
| `AcceptOrder.PairOnce` | libnotnets/src/rpc.cpp:84-114 | in a round of whole calls or more in which a slot stays eligible and keeps its tenant its pair is handed out exactly once if its flag was down, and not at all if it was up |
| `ShutdownHandshake.HandshakeSafe` | libnotnets/src/rpc.cpp:120-140 | in every interleaving two passes never overlap, the runner starts at most one pass after the signal, and after NOT_RUNNING has been seen it touches neither region nor context; after the join it is gone |
| `ShutdownHandshake.SignalStays` | libnotnets/src/rpc.cpp:569-586 | the signal is never overwritten except by the runner's answer, and the answer stays |
| `ShutdownHandshake.RunnerKeepsOut` | libnotnets/src/rpc.cpp:577-592 | the same over every continuation of a run in which NOT_RUNNING has been seen |
| `ShutdownHandshake.RunnerAnswers` | libnotnets/src/rpc.cpp:123-137 | after the signal the runner can always move and takes at most slots + 6 steps, so shutdown does not wait for ever |
| `ShutdownHandshake.WholePasses` | libnotnets/src/rpc.cpp:120-140 | in every run the runner services slot after slot, beginning with the first, and ends a pass only after the last |
| `ShutdownHandshake.RunnerServes` | libnotnets/src/rpc.cpp:120-140 | until it is told to stop the runner comes to every slot within slots + 3 of its steps |
| `ShutdownHandshake.WorkDone` | libnotnets/src/rpc.cpp:577-592 | when the caller deletes the region it has detached every row once and then iterated every slot once, in order, all after the join |
| `ShutdownHandshake.ShutdownEnds` | libnotnets/src/rpc.cpp:569-592 | once the runner has exited the caller can always move and returns within 2 * slots + 8 of its own steps |
| `ShutdownWork.ShutdownClears` | libnotnets/src/rpc.cpp:577-592 | in every interleaving, from any pool in order the runner left: what the caller has done by the time it deletes the region is coord_shutdown and one pass of manage_pool, so all slots are free and nothing is live but the semaphores orphaned before |
| `ShutdownHandshake.StepInv` | libnotnets/src/rpc.cpp:457-592 | every step of either thread keeps the invariant |
| `RunningStats.WelfordIsTwoPass` | experiments/include/notnets/util/RunningStat.h:15-49 | after any pushes and clears the mean is the average of the values since the last clear, the variance their two-pass sample variance, never negative, whatever the unset fields held |
| `RunningStats.OneMore` | experiments/include/notnets/util/RunningStat.h:27-33 | the recurrence gives the average and the squared deviations of one value more |
| `RunningStats.RunningStat.constructor` | experiments/include/notnets/util/RunningStat.h:11-13 | only the count is set |
| `RunningStats.RunningStat.Clear` | experiments/include/notnets/util/RunningStat.h:15-18 | only the count is reset |
| `RunningStats.RunningStat.Push` | experiments/include/notnets/util/RunningStat.h:20-34 | if the fields stood for v they stand for v followed by x |
| `RunningStats.RunningStat.Mean` | experiments/include/notnets/util/RunningStat.h:41-44 | the average of the values the fields stand for |
| `RunningStats.RunningStat.Variance` | experiments/include/notnets/util/RunningStat.h:46-49 | their two-pass sample variance |
| `Hash.ComputeHash` | libnotnets/src/coord.cpp:68-77 | the loop hashes the bytes before the first NUL |
| `Hash.Bijection` | libnotnets/src/coord.cpp:66-77 | for every text, hashing it is a bijection of the 32-bit state |
| `Hash.Linear` | libnotnets/src/coord.cpp:66-77 | hashing is linear over xor on texts of equal length |
| `Hash.CollideExactly` | libnotnets/src/coord.cpp:66-77 | texts of equal length collide if and only if their difference hashes to 0 from state 0 |
| `Hash.SuffixIrrelevant` | libnotnets/src/coord.cpp:71-74 | a common suffix neither creates nor removes a collision |
| `Hash.OneByteNeverCollides` | libnotnets/src/coord.cpp:71-74 | texts that differ in exactly one byte never collide |
| `Hash.NeighboursCollideExactly` | libnotnets/src/coord.cpp:71-74 | exactly when two neighbouring bytes cancel |
| `Hash.DifferentTextsCanCollide` | libnotnets/src/coord.cpp:71-74 | two addresses with one client id |
| `Hash.KnownValues` | libnotnets/src/coord.cpp:68-77 | the hash of the empty text, of one byte and of two |

## Left out

- PollQueue.Queue.Push: modelled as one call where it does not wait for room; the wait is modelled in PollMachine.
- PollQueue.Queue.Pop: modelled as one call where it does not wait for a record; the wait is modelled in PollMachine.
- SemQueue.Queue.Push: modelled as one call where it does not sleep; sleeping is modelled in SemMachine.
- SemQueue.Queue.Pop: modelled as one call where it does not sleep; sleeping is modelled in SemMachine.
- CoordRegion.Coord.CreateServerQueuePair: has no loop that waits for non-zero keys, because a row that stays created never has a zero key; SlotProtocol has that loop, for client and acceptor.
- CoordRegion.Coord.Accept: modelled as one call with nothing happening meanwhile; the interleavings are in SlotProtocol and the Accept modules.
- AcceptOrder.WithinOneRound: about whole calls, all of which return; AcceptRuns.HandedExactly is the fine-grained form, AcceptRuns.CallReturns and AcceptAstray.WaitsForEver say which calls return.
- AcceptOrder.WithinDistance: the same.
- ResourceRuns.StepInv: a slot iteration of the manager is two steps; SlotProtocol has its single loads and stores. The type load is one step with service_slot.
- ResourceRuns.ResourcesConserved: that rings have the type asked for is at that grain; QueueTypeRace.QueueTypeExactly says what a request between the type load and service_slot does. What `destroy_semaphores` finds in the header of a ring of the wrong type is not modelled.
- EarlyReopen.ReopenExactly: at the grain of whole slot iterations, with no other calls meanwhile.
- SlotTheorems.StepInv: the fine-grained machine has no semaphore clean-up and no return value of service_slot; semaphores are covered in ResourceRuns. In a client, which holds its slot throughout, a test of shm_created directly before a load or store of an attach flag, or before the load of the id, is one step with it; in accept they are separate steps.
- RpcChannel.ResponsesAnswerRequests: the client and server loops are control states of the channel, and the buffers they reuse are values.
- The Boost queue itself (libnotnets/src/boost_queue.cpp) and its segments' inner layout; its allocator is treated like the others.
- System calls (libnotnets/src/mem.cpp, `_initsem`): replaced by maps of live segments and semaphores with fresh numbers; retries, failures and exit paths are not modelled.
- Semaphore keys derived by division, which can coincide: each SEM ring is given three semaphores of its own.
- Wrap-around of `int` and `size_t`: sizes, counters and `total_count` are unbounded.
- Opens that race with `shutdown`, several acceptors, several producers or consumers on one ring.
- The fake and random allocators, `peek`, the unused queue helpers and the print functions.
- Rounding and `sqrt` in the running statistics; benchmark timing, TCP and Boost benchmarks, plots and scripts.
