# Hyperion utilities: a verified model

A Dafny model of five components of the Hyperion C++ utility library, with proofs about their
whole runs and histories:

- `LockFreeQueue`, the multi-producer, single-consumer queue, as a step system with one step per
  atomic access (`LockFreeQueue.dfy`, `LockFreeQueueOrder.dfy`, `LockFreeQueueAtomic.dfy`,
  `LockFreeQueueCalls.dfy`, `LockFreeQueueLimits.dfy`) and as an object whose uninterrupted calls are runs of that step system
  (`LockFreeQueueObject.dfy`);
- `RingBuffer`, the bounded deque over a circular array with one lifetime flag per slot
  (`Deque.dfy`, `RingBufferLayout.dfy`, `RingBuffer.dfy`);
- the asynchronous loggers, with their logging thread, queue, semaphore and stop protocol, beside the
  synchronous one (`LogSinks.dfy`, `Logger.dfy`, `LoggerShutdown.dfy`, `LoggerWakeups.dfy`, `LoggerCalls.dfy`), first over
  an atomic queue and then over the real one: by refinement where callers publish by ticket
  (`LoggerQueue.dfy`), and with concurrent callers in whatever order (`LoggerTickets.dfy`,
  `LoggerRaces.dfy`, `LoggerQueueShutdown.dfy`, `LoggerQueueCalls.dfy`);
- `Enum`, the tagged union with a valueless state (`Enum.dfy`);
- `parse_literal`, the parser behind the integer literals (`Literal.dfy`).

`dafny verify dfyconfig.toml` checks the whole project.

## How the model reads the code

- Concurrency is sequentially consistent interleaving of atomic steps. A race is a state in which two
  threads' next accesses are to the same slot and one of them is a store.
- `u32` counters of the queue wrap. The guarantees hold for up to 2^32 - 2 tickets and fewer than
  2^32 - capacity producers; `WrappedCheckPops` shows the first bound is exact.
- Storage from `allocate_unique<T[]>` is raw. A slot is without an object, live, or live with its value
  moved out, and every construction, destruction, assignment and move has a precondition that says the
  slot must be in the right one of these states. Verifying a caller shows no object is destroyed twice,
  read after destruction, or built over.
- `hide` statements only shorten proofs: they withhold a definition from the verifier.
- The logger is first modelled over an atomic first-in, first-out queue that may turn a push down
  (`Logger`), then over the accesses of `LockFreeQueue` itself, which is what `logging::Queue` wraps
  (`LoggerQueue`). `RefinesAtomicLogger` carries the results over if callers publish in the order of
  their tickets, as one caller always does (`OneCallerByTicket`). For concurrent callers in any order,
  what is proved holds until the run races, and `RaceReachableIff` says exactly when it can. Publishing
  out of order does no harm by itself: entries then reach the sinks in the order of the tickets
  (`NothingLostInTicketOrder`, `JoinedInTicketOrderIff`).

## Where the code and its documentation part

- Several producers: `m_max_read` counts completed stores, so the consumer can be sent to a slot whose
  store has not happened (`OutOfOrderPublicationRaces`); `RaceReachableIffPrefixPassed` says exactly when.
- Concurrent calls of an asynchronous `log` inherit this: the logging thread can read a slot in which
  nothing was stored (`ConcurrentCallersReadNothing`, condition in `RaceReachableIff`).
- `LockFreeQueue::clear` and the initializer-list constructor leave raw storage, into which values are
  then assigned as if objects were there (`Clear`, `FromValues`, `TryPushBack`).
- `try_push_back` promises false only on a full queue; it also refuses an empty one while another
  producer has its increment to undo (`EmptyQueueRefuses`, condition in `RefusedIff`).
- `RingBuffer::insert` on a full buffer is documented to drop the last element. It does so for the
  first position; at the last one it drops the front; in between it leaves a position without an
  object; and it indexes past the array when the position is in the last slot (`Insert`).
- Range `erase` moves nothing, or puts the end index one slot too far back, in some wrapped buffers
  (`EraseRange`).
- Objects can outlive the `RingBuffer`: a push into a full buffer and the erasure of the last element
  leave an object alive outside the sequence, and the destructor visits only the sequence
  (`Finalize`, `OverflowOutlivesDestruction`).
- `RingBuffer::reserve` keeps the sequence only of a full buffer, does nothing for n equal to
  `capacity() + 1`, allocates one flag too few, and frees the old storage with the moved-from
  elements undestroyed (`Reserve`).
- The MultiThreadedAsync `log` never signals its thread: at most one entry leaves the queue before
  destruction, and a blocking logger gets stuck (`MultiThreadedAcceptsLittle`, `MultiThreadedCanClog`).
- The SingleThreadedAsync `log` signals before it pushes, so an entry can wait for the next call
  (`WakeupLost`, `EntriesLeftAsleep`).
- `Enum` assignment to an alternative that is neither constructible from the value nor by default
  assigns to an object that does not exist, unless a throwing assignment left one (`AssignValue`);
  copying can change the alternative (`CopyKeepsAlternativeIff`).
- `OutOfRange` is never returned for an unsigned literal: too large a numeral is reduced (`ParseLiteral`).

## Model

| member | source | states |
|---|---|---|
| LockFreeQueue.StepCounted | include/Hyperion/LockFreeQueue.h:218-437 | every atomic access, with any number of producers and in any order, keeps the balance of the four counters and the uniqueness of the tickets in flight |
| LockFreeQueue.InitCounted | include/Hyperion/LockFreeQueue.h:52-102 | both kinds of constructor establish that balance |
| LockFreeQueueOrder.CountersInEveryState | include/Hyperion/LockFreeQueue.h:421-437 | in every state of every run `m_size` is the unreleased reservations plus the pending undos, reservations never exceed the capacity, and `m_read <= m_max_read <= m_write <=` reservations made |
| LockFreeQueueOrder.QuiescentCountersAreExact | include/Hyperion/LockFreeQueue.h:141-157 | with no call in progress, `size`, `empty` and `full` are exact and every published ticket is stored |
| LockFreeQueueOrder.RaceIsOnTheTakenTicket | include/Hyperion/LockFreeQueue.h:227-231 | before any race, two producers never meet at a slot; the only possible race is between the consumer and the producer holding the very ticket it is taking |
| LockFreeQueueOrder.StepOrdered | include/Hyperion/LockFreeQueue.h:223-231 | a step from a race-free state keeps every stored, unpopped ticket in its slot and what was popped a prefix of what was pushed |
| LockFreeQueueOrder.FifoWhenPublishedInOrder | include/Hyperion/LockFreeQueue.h:218-232 | any number of producers, every interleaving in which `m_max_read` never passes the stored prefix: no race, pops are a prefix of pushes in ticket order, and the published rest is in slots `m_read % cap` to `(m_max_read - 1) % cap` |
| LockFreeQueueAtomic.FifoWhenPublishedByTicket | include/Hyperion/LockFreeQueue.h:231-231 | producers that publish in the order of their tickets meet that condition, however many they are |
| LockFreeQueueAtomic.OneProducerPublishesByTicket | include/Hyperion/LockFreeQueue.h:227-231 | one producer cannot but publish in the order of its tickets |
| LockFreeQueueAtomic.FifoWithOneProducer | include/Hyperion/LockFreeQueue.h:223-231 | with one producer the same holds in every interleaving, without condition |
| LockFreeQueueAtomic.AtomicWhenPublishedByTicket | include/Hyperion/LockFreeQueue.h:357-369 | any number of producers publishing by ticket: each call takes effect at one instant on the published, unreleased values; publication appends the value, the release of `m_size` removes the front, which is the value moved out, and a pop finds nothing only when nothing is there |
| LockFreeQueueAtomic.RefusedByHeld | include/Hyperion/LockFreeQueue.h:428-437 | a push is refused exactly when the held values and the pushes in progress, undone ones included, reach the capacity |
| LockFreeQueueAtomic.OneProducerRefusedIffFull | include/Hyperion/LockFreeQueue.h:240-248 | one producer is refused exactly when the queue is full |
| LockFreeQueueOrder.ConsumerReachesPending | include/Hyperion/LockFreeQueue.h:357-368 | a published but unstored ticket can be run into by the consumer alone |
| LockFreeQueueOrder.RaceReachableIffPrefixPassed | include/Hyperion/LockFreeQueue.h:231-231 | after any race-free run the consumer alone can reach a race if and only if `m_max_read` has passed the stored prefix |
| LockFreeQueueOrder.RacePopsNoValue | include/Hyperion/LockFreeQueue.h:364-368 | a race costs the order: if the consumer moves first it pops a slot that holds no value, and what was popped stops being a prefix of what was pushed |
| LockFreeQueueCalls.CallReturns | include/Hyperion/LockFreeQueue.h:218-255 | in every run a call returns at the step that publishes a ticket issued to it for its own value, or, only if it does not block, by undoing a refused reservation |
| LockFreeQueueCalls.CallsAccountedFor | include/Hyperion/LockFreeQueue.h:218-255 | in every state of every run, for every choice of values: the initial values and those of the calls so far are those with a ticket, those of calls still without one, and those of calls refused |
| LockFreeQueueCalls.EveryReturnPublishes | include/Hyperion/LockFreeQueue.h:223-231 | in numbers: calls and initial values are published values, calls in progress and refusals; if all calls block there are no refusals |
| LockFreeQueueCalls.ProducerNeverStuck | include/Hyperion/LockFreeQueue.h:218-232 | a producer inside a call always has a next access to make |
| LockFreeQueueCalls.SpinChangesNothing | include/Hyperion/LockFreeQueue.h:223-225 | while there is no room, two accesses of a blocking push bring the queue back to where it was |
| LockFreeQueueCalls.PushCompletes | include/Hyperion/LockFreeQueue.h:227-231 | once there is room, four accesses of its own complete a push, whatever the others are in the middle of |
| LockFreeQueueLimits.OutOfOrderPublicationRaces | include/Hyperion/LockFreeQueue.h:227-231 | two producers that publish out of ticket order reach a race |
| LockFreeQueueLimits.RefusedIff | include/Hyperion/LockFreeQueue.h:428-437 | a push is refused exactly when unreleased reservations plus pending undos reach the capacity; with no undo pending, exactly when the queue is full |
| LockFreeQueueLimits.EmptyQueueRefuses | include/Hyperion/LockFreeQueue.h:234-248 | a run in which a push is refused while nothing is stored |
| LockFreeQueueLimits.WrappedCheckPops | include/Hyperion/LockFreeQueue.h:360-362 | after 2^32 - 1 pushes and pops the check of `pop_front` passes on an empty, quiescent queue |
| LockFreeQueueLimits.CheckIsExact | include/Hyperion/LockFreeQueue.h:360-362 | before that, the check passes exactly when a published value is left |
| LockFreeQueueObject.Queue.constructor | include/Hyperion/LockFreeQueue.h:62-69 | an empty queue of the given capacity, an object in every slot |
| LockFreeQueueObject.Queue.FromValues | include/Hyperion/LockFreeQueue.h:90-102 | a full queue holding the given values in order, each assigned to raw storage |
| LockFreeQueueObject.Queue.IncrementSize | include/Hyperion/LockFreeQueue.h:428-437 | a reservation succeeds exactly below capacity and is undone otherwise, as one or two steps of the step system |
| LockFreeQueueObject.Queue.TryPushBack | include/Hyperion/LockFreeQueue.h:240-255 | uninterrupted, appends exactly when there is room, and is the five-step run of the step system; the assignment goes to storage without an object exactly if none were constructed |
| LockFreeQueueObject.Queue.PopFront | include/Hyperion/LockFreeQueue.h:357-369 | uninterrupted, removes and returns the front, or None when empty, and is the four-step run |
| LockFreeQueueObject.Queue.Clear | include/Hyperion/LockFreeQueue.h:207-211 | leaves an empty, valid queue of the same capacity, with no object in any slot |
| LockFreeQueueObject.Queue.Size | include/Hyperion/LockFreeQueue.h:155-157 | the number of stored elements |
| LockFreeQueueObject.Queue.Full | include/Hyperion/LockFreeQueue.h:148-150 | whether the stored elements fill the capacity |
| RingBufferLayout.RotateIsModulo | include/Hyperion/RingBuffer.h:1151-1155 | the reduced index is the position counted from the start around the array |
| RingBuffers.RingBuffer.constructor | include/Hyperion/RingBuffer.h:409-415 | an empty buffer with one slot more than asked for |
| RingBuffers.RingBuffer.FromValues | include/Hyperion/RingBuffer.h:446-467 | a full buffer holding the values, every flag in step with its slot |
| RingBuffers.RingBuffer.Size | include/Hyperion/RingBuffer.h:575-578 | the length of the sequence in wrapped and unwrapped layouts |
| RingBuffers.RingBuffer.EmplaceBack | include/Hyperion/RingBuffer.h:689-713 | appends, dropping the front at capacity but leaving its object alive in the spacer slot; changes that one slot, destroys an object only if one was there, and returns the slot (`push_back` is the same) |
| RingBuffers.RingBuffer.PopBack | include/Hyperion/RingBuffer.h:919-936 | removes and returns the last element, or None; its slot, and no other, loses its object, destroyed once |
| RingBuffers.RingBuffer.PopFront | include/Hyperion/RingBuffer.h:941-957 | removes and returns the first element, or None; its slot, and no other, loses its object, destroyed once |
| RingBuffers.RingBuffer.MoveCell | include/Hyperion/RingBuffer.h:1230-1270 | one iteration of a shifting loop moves one logical position to another by construction or assignment and leaves the source without an object, at any rotation |
| RingBuffers.RingBuffer.ShiftBack | include/Hyperion/RingBuffer.h:1230-1270 | the whole backward loop, across the array end, for both distances the code uses |
| RingBuffers.RingBuffer.Insert | include/Hyperion/RingBuffer.h:1209-1283 | non-full: the sequence becomes s[..i] + [v] + s[i..] and the slots beyond it are untouched; full: when the code goes past the array, what every slot holds otherwise, and that the documented result comes out if and only if i is 0 or i is last and dropping either end is the same; one destruction per element moved |
| RingBuffers.RingBuffer.InsertEmplace | include/Hyperion/RingBuffer.h:1293-1369 | the same, the slot returned holds the new element, and exactly when one more object is destroyed to make room for it |
| RingBuffers.RingBuffer.Erase | include/Hyperion/RingBuffer.h:1378-1436 | the sequence becomes s[..i] + s[i+1..] at any rotation, the iterator returned is at position i, what every slot holds, and one destruction per element moved; so the slot given up holds an object exactly when the last element was erased |
| RingBuffers.RingBuffer.DecrementWriteN | include/Hyperion/RingBuffer.h:1190-1200 | `write` goes back n slots around the array if and only if n is at most `write` |
| RingBuffers.RingBuffer.EraseRange | include/Hyperion/RingBuffer.h:1447-1519 | the array holds s[..first] + s[last..] afterwards if and only if `RangeErasureHolds`: the array index of `last` and the number removed are at most `m_write_index`, or nothing is moved and the cut-off sequence and end index happen to be the right ones; in every case what each slot holds, the end index and the iterator returned |
| RingBufferLayout.UnwrappedErasureIsExact | include/Hyperion/RingBuffer.h:1453-1472 | every unwrapped buffer meets that condition |
| RingBuffers.RingBuffer.Step | include/Hyperion/RingBuffer.h:121-131 | `++` goes from a position of the sequence to the next, is `end()` exactly at the size, and from the last position of the capacity or beyond stays at the capacity, in the slot `m_write_index` |
| RingBuffers.RingBuffer.Collect | include/Hyperion/RingBuffer.h:963-981 | stepping from `begin()` to `end()` terminates and visits exactly the sequence, in order, at every rotation and size |
| RingBuffers.RingBuffer.Reserve | include/Hyperion/RingBuffer.h:603-636 | growth moves every element to its own position, leaves every old slot of the sequence with a moved-from object and puts the end index at the old `capacity()` at every size; the buffer then represents the old sequence if and only if it was full |
| RingBuffers.SizeAfterGrowth | include/Hyperion/RingBuffer.h:575-636 | after growth `size()` is the old `capacity()`, whatever the size was, and the positions it counts beyond the sequence hold no object |
| RingBuffers.RingBuffer.Finalize | include/Hyperion/RingBuffer.h:504-515 | the destructor ends the lifetime of every element once, and makes no other destructor call; an object outlives it if and only if a slot outside the sequence holds one |
| RingBuffers.OverflowOutlivesDestruction | include/Hyperion/RingBuffer.h:656-680 | for every full buffer, at every rotation, one push more and the destructor leaves the old front alive |
| RingBuffers.RingBuffer.Perform | include/Hyperion/RingBuffer.h:656-957 | over every history of pushes, pops, non-full insertions and erasures the buffer refines the bounded deque, flags stay in step with objects, and no lifetime rule is broken |
| Deque.NeverLongerThanCapacity | include/Hyperion/RingBuffer.h:568-594 | no such history exceeds the capacity |
| Deque.PushesKeepTheLast | include/Hyperion/RingBuffer.h:652-680 | any number of pushes leaves the last `capacity()` of all elements in order |
| LogSinks.Sinks.Deliver | src/logging/Sink.cpp:93-158 | every sink is handed the entry, and writes it exactly if the level reaches its own |
| LogSinks.Sinks.Log | include/Hyperion/Logger.h:705-716 | the synchronous `log` hands over exactly the entries above the minimum level |
| LogSinks.Sinks.LogAll | include/Hyperion/Logger.h:704-731 | a history of synchronous calls hands every sink the filtered history in order |
| LogSinks.Sinks.Flush | include/Hyperion/Logger.h:870-878 | the flush loop hands over the whole queue in order and empties it |
| Logger.InvInEveryState | include/Hyperion/Logger.h:771-879 | conservation, hand-over and stop-protocol invariants in every state of every run over an atomic queue, for both asynchronous loggers and both full-queue policies |
| LoggerShutdown.NothingLostOrReordered | include/Hyperion/Logger.h:860-868 | over an atomic queue, delivered, in hand and queued make up exactly what was accepted, in order, at every step |
| LoggerShutdown.JoinedEqualsSynchronousIff | include/Hyperion/Logger.h:762-765 | after `join` each sink was handed what the synchronous logger would hand it for the same calls if and only if no entry was accepted after the flush loop ended; then it wrote exactly the entries above the minimum level and at least its own, in order and once each |
| LoggerShutdown.JoinedEqualsSynchronous | include/Hyperion/Logger.h:762-765 | in particular if no `log` overlaps destruction |
| LoggerShutdown.ShutdownNeverStuck | include/Hyperion/Logger.h:836-843 | once the stop flag is set some step is possible until the destructor returns; the thread never waits on a semaphore at zero after the final release |
| LoggerShutdown.ShutdownIsBounded | include/Hyperion/Logger.h:852-879 | after the stop flag, in every schedule, callers included, thread and destructor take no more steps than the queue length, the number of sinks and the entries accepted meanwhile account for |
| LoggerShutdown.QuietShutdownIsBounded | include/Hyperion/Logger.h:870-878 | with no caller in the way every schedule is over within a bound set by queue length and sinks |
| LoggerShutdown.ShutdownReachesJoined | include/Hyperion/Logger.h:762-765 | from every stopping state the destructor returns |
| LoggerShutdown.AcquiresAtMostOnceMore | include/Hyperion/Logger.h:868-869 | after the stop flag is set, in every schedule, callers included, the thread acquires at most once more, and not at all once out of the main loop |
| LoggerWakeups.MultiThreadedAcceptsLittle | include/Hyperion/Logger.h:970-988 | before its destructor starts, a MultiThreadedAsync logger takes at most one entry off the queue and accepts at most `QUEUE_SIZE + 1` |
| LoggerWakeups.CloggedUntilDestroyed | include/Hyperion/Logger.h:975-984 | with the thread asleep and a blocking queue full, nothing but the destructor lets any caller get on |
| LoggerWakeups.MultiThreadedCanClog | include/Hyperion/Logger.h:1050-1067 | every blocking MultiThreadedAsync configuration reaches that state with one caller |
| LoggerWakeups.SemaphoreBalanced | include/Hyperion/Logger.h:771-869 | in every state of every run of either logger, shutdown included: the semaphore and the acquisitions so far are the releases, one by each call past it where calls release at all, and one by the destructor |
| LoggerWakeups.EntriesLeftAsleep | include/Hyperion/Logger.h:775-786 | in a SingleThreadedAsync logger at rest, the entries left waiting are the failed reads less one and less the rejected calls; none exactly when those balance |
| LoggerWakeups.WakeupLost | include/Hyperion/Logger.h:776-778 | a run that leaves an accepted entry queued with the thread asleep |
| LoggerWakeups.OverlapLosesEntry | include/Hyperion/Logger.h:870-878 | a `log` overlapping destruction can be accepted and never reach a sink |
| LoggerCalls.LogCallsAccountedFor | include/Hyperion/Logger.h:771-807 | over an atomic queue, for every choice of entries: the calls of `log` are those that returned Ok, those in progress and those turned down, and the rejected calls are the last |
| LoggerCalls.LowCallsReturnAtOnce | include/Hyperion/Logger.h:775-788 | a call with an entry not above the minimum level is always possible, returns Ok at once and changes nothing else |
| LoggerQueue.RefinesAtomicLogger | include/Hyperion/logging/Queue.h:112-192 | every run of the logger over the accesses of the real queue, with callers publishing by ticket, refines a run over the atomic queue: a push happens at publication, a read when it claims its entry |
| LoggerQueue.NothingLostOverQueue | include/Hyperion/Logger.h:845-868 | over the real queue, with callers publishing by ticket: delivered, in hand or claimed, and visible in the queue make up exactly what was accepted, in order, in every state |
| LoggerQueue.JoinedOverQueueIff | include/Hyperion/Logger.h:762-765 | over the real queue, with callers publishing by ticket: after `join` the sinks hold what the synchronous logger would hand them if and only if nothing was accepted after the flush |
| LoggerQueue.OneCallerByTicket | include/Hyperion/logging/Queue.h:167-173 | one caller always publishes by ticket, so these hold of it without condition |
| LoggerQueue.ConcurrentCallersReadNothing | include/Hyperion/logging/Queue.h:112-192 | two concurrent callers, the second publishing first, have the logging thread take an entry out of a slot in which none was ever stored |
| LoggerTickets.NothingLostInTicketOrder | include/Hyperion/Logger.h:845-868 | any number of concurrent callers, publishing in any order, in every state of a run that has not raced: delivered, in hand or claimed, and visible are the first `m_max_read` entries in ticket order, each sink has got the delivered part and at most the entry in hand, and the entries accepted together with those of the pushes on their way are those that got tickets |
| LoggerTickets.StoredPrefixIsRaceFree | include/Hyperion/logging/Queue.h:112-192 | a run in which `m_max_read` never passes the stored prefix does not race |
| LoggerTickets.ByTicketIsRaceFree | include/Hyperion/logging/Queue.h:112-192 | nor does one in which callers publish by ticket |
| LoggerTickets.JoinedInTicketOrderIff | include/Hyperion/Logger.h:762-765 | any number of concurrent callers, publishing in any order, no race: after `join` each sink was handed the first `m_max_read` entries in ticket order if and only if nothing was accepted after the flush; with no call in progress that is, under the same condition, a rearrangement of what the synchronous logger would hand it |
| LoggerRaces.RaceReachableIff | include/Hyperion/logging/Queue.h:186-192 | after any run that has not raced, thread and destructor can reach a race if and only if `m_max_read` has passed the stored prefix and the flush loop has not ended |
| LoggerRaces.ReachesRace | include/Hyperion/Logger.h:836-879 | from a published but unstored ticket, through the main loop, the stop request and the flush loop, the thread gets to that very slot |
| LoggerRaces.RaceReadsNothing | include/Hyperion/logging/Queue.h:186-192 | if the thread moves first in a race, what it takes out of the queue holds no entry |
| LoggerQueueShutdown.ShutdownNeverStuckOverQueue | include/Hyperion/Logger.h:836-869 | over the real queue, any number of callers: until the run races, shutdown always has a step to take until the destructor returns |
| LoggerQueueShutdown.ShutdownIsBoundedOverQueue | include/Hyperion/Logger.h:852-879 | over the real queue, in every schedule that does not race, callers included: after the stop flag, thread and destructor take no more queue accesses and steps than the published entries, the sinks and the entries accepted meanwhile account for |
| LoggerQueueShutdown.ShutdownReachesJoinedOverQueue | include/Hyperion/Logger.h:762-765 | over the real queue, the destructor returns from every stopping state in which no pending ticket counts as published |
| LoggerQueueShutdown.AcquiresAtMostOnceMoreOverQueue | include/Hyperion/Logger.h:868-869 | over the real queue, in every schedule, racing or not, the thread acquires at most once after the stop flag |
| LoggerQueueShutdown.ThreadWaitsForSemaphoreOnly | include/Hyperion/Logger.h:852-879 | over the real queue, until the run races, the thread can step exactly if it is not done and not waiting for a semaphore at zero |
| LoggerQueueCalls.CallIsShort | include/Hyperion/logging/Queue.h:112-121 | over the real queue, in every run, racing or not: a call of `log` pushes once, each access takes the push further except to undo a refused try, and under DropWhenFull a call in progress has undone none and made at most four accesses |
| LoggerQueueCalls.CallReturns | include/Hyperion/Logger.h:771-788 | a call that returns has its entry accepted and is Ok, after five accesses and two for each refused try, or, under DropWhenFull only, is an error counted as rejected, after three |
| LoggerQueueCalls.CallerNeverStuck | include/Hyperion/Logger.h:771-788 | a caller inside `log` always has a step to take |
| LoggerQueueCalls.RejectedIsRefusals | include/Hyperion/logging/Queue.h:118-120 | the rejected calls are the steps that give up a refused try |
| LoggerQueueCalls.LogCallsAccountedFor | include/Hyperion/Logger.h:771-807 | over the real queue, in every run, racing or not, for every choice of entries: the calls of `log` are those that returned Ok, those in progress and those turned down |
| LoggerQueueCalls.LowCallsReturnAtOnce | include/Hyperion/Logger.h:775-788 | over the real queue, a call with an entry not above the minimum level returns Ok at once and changes nothing else |
| Enum.FirstFitIsLeast | include/Hyperion/Enum.h:275-319 | the search returns the least fitting alternative reachable before a later None stops it, and fails only if there is none |
| Enum.CopyKeepsAlternativeIff | include/Hyperion/Enum.h:402-415 | a copy keeps the active alternative if and only if no None precedes it and no earlier alternative is constructible from its type |
| Enum.Enum.Copy | include/Hyperion/Enum.h:402-415 | the copy constructor makes the least reachable alternative constructible from the active type, one object and no more, and keeps the index under the stated condition; a valueless source gives a valueless copy |
| Enum.Enum.Destruct | include/Hyperion/Enum.h:1433-1483 | destroys the named member once, if its type asks for it, and leaves the Enum valueless |
| Enum.Enum.Construct | include/Hyperion/Enum.h:1485-1517 | a new live member, or a valueless Enum when the constructor throws; the old member is destroyed once |
| Enum.Enum.Emplace | include/Hyperion/Enum.h:635-648 | the same for `emplace` |
| Enum.Enum.AssignValue | include/Hyperion/Enum.h:1536-1579 | when it throws and the index afterwards; assignment to the active alternative keeps the object and makes and destroys none; any other retires the active object if its type asks for it and makes one exactly if the target is constructible from the value or by default and the constructor does not throw; nothing dead is touched if and only if the target can be made so or is the alternative of the object in storage, active or left by a throwing assignment; an object is orphaned if and only if the assignment itself throws |
| Enum.Enum.Perform | include/Hyperion/Enum.h:1485-1595 | over every history of throwing and non-throwing calls, each meeting that condition in the state it finds: index, object, objects made and objects destroyed are the fold of what each call does, an index below SIZE names a live member and no object is destroyed twice; without throwing assignments no object is orphaned |
| Enum.Enum.Finish | include/Hyperion/Enum.h:461-489 | the destructor then leaves every object destroyed exactly once |
| Literal.ParseLiteral | include/Hyperion/BasicTypes.h:150-205 | valid exactly when all characters are digits or separators, never OutOfRange, and the value is the place-value sum of the digits modulo 2^width |
| Literal.Digits | include/Hyperion/BasicTypes.h:170-188 | the digits are the ten decimal ones, each with its own value |
| Literal.Moduli | include/Hyperion/BasicTypes.h:188-188 | the moduli of the unsigned types are 256, 65536, 2^32 and 2^64 |
| Literal.DenotesAppend | include/Hyperion/BasicTypes.h:187-189 | the step of the loop agrees with the place-value sum |
| Literal.RoundTrip | include/Hyperion/BasicTypes.h:163-203 | printing n, with separators anywhere, and parsing gives n if and only if n is below 2^width |

## Left out

- Logger.InvInEveryState: the queue is atomic here; for concurrent callers over the real queue see `LoggerTickets.NothingLostInTicketOrder`.
- LoggerShutdown.NothingLostOrReordered: the same.
- C++ memory orderings, `m_prevent_optimization`, allocation failure and the widths of `usize`: steps are sequentially consistent and indices unbounded.
- LockFreeQueueObject.Queue.TryPushBack: the spin loop of `push_back` is in the step system only, since an uninterrupted call on a full queue never returns.
- `LockFreeQueue::reserve`, `front`, the force pushes, the constructor from a default value, copying and moving: they reset or reuse counters without regard to the read position, or do not compile.
- RingBuffers.RingBuffer.Insert: in a full buffer with the position in the last slot, the model stops where the code goes past the array; what that access does is undefined.
- `RingBuffer` for trivially destructible elements: the flag test is constantly false there, so the shifting loops move nothing.
- `RingBuffer::emplace(position)`, `clear`, copying and moving, and operations after `reserve`, which leaves a flag array too short.
- The public `erase` overloads and the accessors around `erase_internal`: one-branch wrappers.
- The OverwriteWhenFull policy, the maximum count of the semaphore, formatting, timestamps, files and terminals: I/O or a library precondition.
- `StderrSink`: its `sink` is declared in include/Hyperion/logging/Sink.h:283-330 and defined nowhere.
- `Enum` destructors that throw, moves, copy and move assignment, `match`, `get` and the inspection macros.
- Signed and floating-point literals.
- `Option`, `Result`, `Error`, `Span`, `ChangeDetector`, `UniquePtr`, panics, platform macros and error domains: thin wrappers or finite tables.
