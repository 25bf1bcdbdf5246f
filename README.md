# Cooperative thread library and SSTF disk queue, modelled in Dafny

This project models two parts of a small user-level thread library for Linux.

**The scheduler's bookkeeping (thread.cc).** The library runs many logical threads on one OS thread. It keeps these globals:

- the running thread `current`;
- a FIFO `ready` queue;
- a lock table: key → owner and FIFO queue of blocked threads;
- a condition table: key → FIFO queue of waiters;
- the `init` flag;
- the `id` counter that numbers new threads.

Every public call (`thread_libinit`, `thread_create`, `thread_yield`, `thread_lock`, `thread_unlock`, `thread_wait`, `thread_signal`, `thread_broadcast`) is a guarded transition that moves thread ids between these queues. So is each pass of the scheduler loop.

**The request-queue helpers of the disk-scheduling client (disk.cc).** `sendRequest` appends a request and re-sorts the queue by seek distance from the last serviced track (Shortest Seek Time First). `serviceRequest` takes the front request. `isdiskQfull` compares the queue's size with its bound.

Layout:

- `thread_spec.dfy`, module `ThreadSpec`. The globals become a `State` value. Each call becomes a function returning the new state and the C return code (`Step`). There is also an alphabet of transitions (`Op`) and traces (`Run`, `Reachable`).
- `thread_safety.dfy`, module `ThreadSafety`. The invariant `Inv` says:
  - every live thread is in exactly one place: running, ready, blocked on one lock, or waiting on one condition;
  - no queue holds a thread twice;
  - a lock's owner is never among its own waiters, and a lock with waiters has an owner;
  - only the current thread can be finished;
  - every live id was issued by the counter.

  Each transition is proved to preserve `Inv`, so every reachable state satisfies it.
- `thread_properties.dfy`, module `ThreadProperties`. What each call does, stated against the invariant, plus FIFO lemmas over every transition:
  - a lock's queue only grows at the back or loses its front; a condition's queue does the same or is moved whole, in order, to `ready`;
  - a waiter ahead of another in a lock's queue cannot be overtaken by it.
- `thread_lib.dfy`, module `ThreadLib`. Class `Scheduler` holds the globals as fields. Its methods update the fields in place, as the C code does. Each method that stands for a public call or a scheduler step is proved to take exactly the transition `ThreadSpec` defines and to keep `Inv`. The helper `DeleteCurrentThread` states its whole effect on the fields instead. `Broadcast` moves waiters one at a time in a loop, as the C code does.
- `disk_queue.dfy`, module `DiskQueue`. Class `Disk` holds `diskQ`, `serviced`, `lasttrack` and `diskQmax`. The comparator `Closer` (`mysort`) and the seek-order predicate are module-level functions. The sort has its own specification: the result is sorted and is a permutation of the input.

Modelling conventions:

- **Context switches.** Switching into the scheduler's context (`swapcontext(..., scheduler)`) is modelled as `current := None`: the suspended thread then lives only in the queue it was pushed onto.
- **Thread exit.** A thread whose function returned stays `current` with its `finished` flag set, until the next scheduler pass reclaims it.
- **Allocation.** An allocation that can throw `bad_alloc` becomes a parameter `allocFails`.
- **The scheduler loop.** `Dispatch` is one iteration of the loop at thread.cc:73-80. `Shutdown` is what follows the loop.
- **Re-locking after `thread_wait`.** This is an ordinary `Lock` call, made after the thread has been dispatched again.

Where the code cannot compile as written, the model follows the evident intent:

- the lock table maps a key to a `Lock*` (thread.cc:33);
- `unlock_without_interrupts` compares the owner with the current thread (thread.cc:203);
- the scheduler loop reads `ready` (thread.cc:73, 77);
- `thread_create` prepares the new thread's context, not `current`'s (thread.cc:113-116; contexts are not modelled anyway).

In these places the model follows the code's own behaviour:

- `thread_create` returns 0, not the new id.
- `thread_wait` returns 0 when its release of the lock fails.
- When creating a new condition queue throws `bad_alloc`, `thread_wait` returns -1 with the lock already released (no rollback).
- `std::sort` is not stable, so no order among requests at equal seek distance is promised.

## Model

| member | source | states |
|---|---|---|
| `ThreadSpec.Create` | thread.cc:101-134 | returns -1 exactly before initialisation or when allocation fails, and then changes nothing |
| `ThreadSpec.LibInit` | thread.cc:49-59 | a second call returns -1 and changes nothing; a call sets the `init` flag; only a failed thread creation makes the first call fail (the resulting states are in `LibInitBootstraps`) |
| `ThreadSpec.Yield` | thread.cc:136-145 | returns -1 exactly before initialisation, and then changes nothing (the success effect is in `YieldMovesOnlyCaller`) |
| `ThreadSpec.Lock` | thread.cc:147-187 | returns -1 exactly when: uninitialised; or the key is unknown and allocation fails; or the caller already owns the lock. It then changes nothing; in no case does it touch `ready`, the conditions, the thread records, the id counter or `init` |
| `ThreadSpec.ReleaseLock` | thread.cc:189-217 | fails exactly for an unknown key or when the caller is not the owner (a free lock included), and then changes nothing; otherwise only locks and `ready` change, and no key is added |
| `ThreadSpec.Unlock` | thread.cc:219-227 | returns -1 exactly when uninitialised, the key is unknown, or the caller is not the owner; failure changes nothing |
| `ThreadSpec.Wait` | thread.cc:229-261 | returns -1 exactly when uninitialised, or when the release succeeded but creating the new condition queue failed; returns 0 with nothing changed when the release fails (for either outcome of allocation); when the new condition queue cannot be allocated it returns -1 with the lock already released; it never touches the thread records, the id counter or `init` |
| `ThreadSpec.Signal` | thread.cc:263-282 | returns -1 exactly before initialisation; never touches locks, `current`, thread records, the id counter or `init` |
| `ThreadSpec.Broadcast` | thread.cc:284-303 | returns -1 exactly before initialisation; never touches locks, `current`, thread records, the id counter or `init` |
| `ThreadSpec.Finish` | thread.cc:94-97 | the running thread stays `current` with its `finished` flag set, control is back in the scheduler's context, and no other flag, queue, lock, condition or the counter changes |
| `ThreadSpec.Reclaim` | thread.cc:38-47 | when the current thread has finished, it leaves no current thread and removes exactly that record; otherwise it changes nothing; it never touches `ready`, locks, conditions or the counter |
| `ThreadSpec.Dispatch` | thread.cc:73-80 | the scheduler runs the front of `ready` and removes it from the queue; locks, conditions and the counter are unchanged and the library stays initialised |
| `ThreadSpec.Shutdown` | thread.cc:82-83 | after the loop no thread is current; the record of a remaining (finished) current thread is removed and nothing else changes: with no current thread the state is untouched |
| `ThreadSafety.InitialInv` | thread.cc:28-36 | the globals at program start satisfy the invariant |
| `ThreadSafety.InitializingKeepsInv` | thread.cc:50-52 | before initialisation no thread is queued or current, and setting `init` keeps the invariant |
| `ThreadSafety.MoveOne` | thread.cc:123 | moving a single thread to one new place, or removing it, keeps "each live thread in exactly one place" |
| `ThreadSafety.CreatePreservesInv` | thread.cc:120-123 | creating a thread keeps the invariant |
| `ThreadSafety.LibInitPreservesInv` | thread.cc:49-59 | initialisation keeps the invariant |
| `ThreadSafety.YieldPreservesInv` | thread.cc:141-142 | yielding keeps the invariant |
| `ThreadSafety.LockPreservesInv` | thread.cc:154-181 | every branch of `thread_lock` keeps the invariant; in particular a blocked caller is never the owner it waits on |
| `ThreadSafety.ReleaseLockPreservesInv` | thread.cc:204-210 | the hand-off to the front waiter, or freeing the lock, keeps the invariant |
| `ThreadSafety.UnlockPreservesInv` | thread.cc:219-226 | `thread_unlock` keeps the invariant |
| `ThreadSafety.WaitPreservesInv` | thread.cc:234-255 | release-then-enqueue keeps the invariant |
| `ThreadSafety.SignalPreservesInv` | thread.cc:268-277 | moving the oldest waiter to `ready` keeps the invariant |
| `ThreadSafety.BroadcastPreservesInv` | thread.cc:289-298 | moving every waiter to `ready` keeps the invariant; `ready` stays free of duplicates |
| `ThreadSafety.FinishPreservesInv` | thread.cc:94-97 | marking the running thread finished keeps the invariant |
| `ThreadSafety.ReclaimPreservesInv` | thread.cc:38-47 | deleting the finished current thread keeps the invariant |
| `ThreadSafety.DispatchPreservesInv` | thread.cc:73-80 | one scheduler pass keeps the invariant |
| `ThreadSafety.ShutdownPreservesInv` | thread.cc:82-83 | the final reclamation keeps the invariant |
| `ThreadSafety.ApplyPreservesInv` | thread.cc:49-303 | every enabled transition keeps the invariant |
| `ThreadSafety.RunPreservesInv` | thread.cc:49-303 | every sequence of enabled transitions keeps the invariant |
| `ThreadSafety.ReachableStatesAreSafe` | thread.cc:49-303 | in every reachable state each live thread is in exactly one place, and no lock's owner is blocked on that lock |
| `ThreadProperties.UninitializedCallsFail` | thread.cc:101-103 | before initialisation create, yield, lock, unlock, wait, signal and broadcast all return -1 and change nothing (also lines 137-138, 148-149, 220-221, 230-231, 264-265, 285-286) |
| `ThreadProperties.CreateIssuesFreshId` | thread.cc:120-123 | the new id is the counter value; it is unused by any live thread and larger than every live id; the counter rises by exactly one; the new thread is unfinished and at the back of `ready`; every other flag, `init`, `current`, locks and conditions are unchanged |
| `ThreadProperties.LibInitBootstraps` | thread.cc:49-59 | on a fresh library the bootstrap thread takes the counter value as its id and becomes current, `ready` is left empty and the counter advances; locks and conditions are untouched. When creation fails, `init` stays set, -1 is returned and nothing else changes |
| `ThreadProperties.NextIdMonotone` | thread.cc:120-121 | no transition decreases the id counter |
| `ThreadProperties.RunNextIdMonotone` | thread.cc:120-121 | over any sequence of transitions the id counter never decreases, so ids issued later are larger than all earlier ones |
| `ThreadProperties.FinishThenReclaim` | thread.cc:73-97 | a thread whose function returned stays current until the scheduler's next step, which deletes exactly its record and then runs the old front of `ready` (or ends the loop); locks and conditions are untouched |
| `ThreadProperties.YieldMovesOnlyCaller` | thread.cc:140-144 | a yield returns 0, appends the caller to `ready` and gives up the processor; locks, conditions, thread records and the counter are unchanged |
| `ThreadProperties.YieldThenDispatch` | thread.cc:141-142 | after a yield the scheduler runs the old front of `ready` (or the yielder if `ready` was empty) and reclaims nothing |
| `ThreadProperties.DispatchReclaimsOnlyFinished` | thread.cc:73-80 | a scheduler pass removes the previous thread's record exactly when it had finished, then runs the front of `ready`, which is unfinished |
| `ThreadProperties.LockOutcomes` | thread.cc:154-181 | unknown key: a lock owned by the caller with no waiters. Free lock (which has no waiters): the caller owns it. Own lock: -1, nothing changed. Otherwise: the caller is appended to the waiters and suspended |
| `ThreadProperties.UnlockHandsOffToFront` | thread.cc:204-210 | an owner's unlock makes the front waiter the owner, removes it from the waiters and appends it to `ready`; with no waiters the lock becomes free; the caller keeps running |
| `ThreadProperties.WaitReleasesThenQueues` | thread.cc:234-260 | a failed release returns 0 with nothing changed; otherwise the release's effect plus the caller at the back of the condition's queue (created empty if new), then the caller is suspended |
| `ThreadProperties.SignalWakesOldest` | thread.cc:268-281 | an unknown or empty condition changes nothing; otherwise exactly the oldest waiter moves to the back of `ready`; no lock changes |
| `ThreadProperties.BroadcastWakesAllInOrder` | thread.cc:289-299 | the condition's queue becomes empty and `ready` becomes the old `ready` followed by the old waiters in order; no lock changes |
| `ThreadProperties.LockQueueChangesOnlyAtEnds` | thread.cc:174-210 | under every transition a lock's waiter queue is unchanged, gains the caller at the back, or loses its front to ownership |
| `ThreadProperties.LockHandOffIsFifo` | thread.cc:204-207 | a thread ahead of another in a lock's queue stays ahead, or becomes the owner while the other still waits |
| `ThreadProperties.CondQueueChangesOnlyAtEnds` | thread.cc:248-298 | under every transition a condition's queue is unchanged, gains the caller at the back, loses its front to the back of `ready`, or is moved whole, in order, to `ready` |
| `ThreadProperties.ReadyQueueIsFifo` | thread.cc:76-78 | `ready` only grows at the back, except that a scheduler pass takes its front and runs it |
| `ThreadLib.Scheduler.constructor` | thread.cc:28-36 | the globals start uninitialised, with empty queues and tables and counter 0 |
| `ThreadLib.Scheduler.Create` | thread.cc:101-134 | updates the fields as `ThreadSpec.Create` and keeps the invariant |
| `ThreadLib.Scheduler.LibInit` | thread.cc:49-59 | sets `init`, calls `Create`, pops the first thread into `current`, as `ThreadSpec.LibInit`; keeps the invariant |
| `ThreadLib.Scheduler.Yield` | thread.cc:136-145 | updates the fields as `ThreadSpec.Yield` and keeps the invariant |
| `ThreadLib.Scheduler.Lock` | thread.cc:147-187 | updates the fields as `ThreadSpec.Lock` and keeps the invariant |
| `ThreadLib.Scheduler.ReleaseLock` | thread.cc:189-217 | updates the fields as `ThreadSpec.ReleaseLock` and keeps the invariant |
| `ThreadLib.Scheduler.Unlock` | thread.cc:219-227 | updates the fields as `ThreadSpec.Unlock` and keeps the invariant |
| `ThreadLib.Scheduler.Wait` | thread.cc:229-261 | updates the fields as `ThreadSpec.Wait` and keeps the invariant |
| `ThreadLib.Scheduler.Signal` | thread.cc:263-282 | updates the fields as `ThreadSpec.Signal` and keeps the invariant |
| `ThreadLib.Scheduler.Broadcast` | thread.cc:284-303 | its loop moves the waiters one by one; the result equals `ThreadSpec.Broadcast` and keeps the invariant |
| `ThreadLib.Scheduler.Finish` | thread.cc:94-97 | marks the running thread finished, as `ThreadSpec.Finish`; keeps the invariant |
| `ThreadLib.Scheduler.DeleteCurrentThread` | thread.cc:38-47 | removes the current thread's record and leaves no current thread |
| `ThreadLib.Scheduler.Dispatch` | thread.cc:73-80 | deletes the previous thread only if finished, then pops the front of `ready` into `current`, as `ThreadSpec.Dispatch`; keeps the invariant |
| `ThreadLib.Scheduler.Shutdown` | thread.cc:82-83 | deletes a remaining current thread, as `ThreadSpec.Shutdown`; keeps the invariant |
| `DiskQueue.Closer` | disk.cc:22-24 | requests on the same track are never ordered against each other; a request on the head's own track comes before any other |
| `DiskQueue.CloserIsStrictWeakOrder` | disk.cc:22-24 | `mysort` is irreflexive and transitive, and "neither is nearer" is transitive: a strict weak ordering, as `std::sort` requires |
| `DiskQueue.SortedFrontIsNearest` | disk.cc:22-24 | in a queue ordered by `mysort`, the front request has minimal seek distance |
| `DiskQueue.InsertKeepsSorted` | disk.cc:33 | placing a request after every request no farther away and before the first strictly farther one keeps the queue in seek order |
| `DiskQueue.InsertBySeek` | disk.cc:33 | inserting into a seek-ordered queue gives a seek-ordered permutation of the queue plus the new request |
| `DiskQueue.SortBySeek` | disk.cc:33 | the sort's result is ordered by seek distance and is a permutation of its input |
| `DiskQueue.ServiceLeavesOldOrder` | disk.cc:37-42 | after the front is serviced and `lasttrack` moves, the rest of the queue need not be in seek order from the new track |
| `DiskQueue.Disk.constructor` | disk.cc:102-111 | `lasttrack` is 0 and every requester starts serviced, with an empty queue |
| `DiskQueue.Disk.IsDiskQFull` | disk.cc:26-28 | for a non-negative bound, full exactly when the size is at least `diskQmax`; a negative bound (converted to unsigned) never reports full |
| `DiskQueue.Disk.SendRequest` | disk.cc:30-35 | the new queue is a permutation of the old one plus `r`, ordered by seek distance, with a nearest request in front; `serviced[r.id]` becomes false; every other entry and `lasttrack` are unchanged |
| `DiskQueue.Disk.ServiceRequest` | disk.cc:37-44 | needs a non-empty queue; removes exactly the front and keeps the rest in order; sets `serviced[front.id]` and `lasttrack := front.track`; changes no other entry |

## Left out

- Execution contexts and stacks (`ucontext_t`, `getcontext`, `makecontext`, `swapcontext`, the stack buffers) and freeing memory: a switch is `current := None`, and freeing a record is removing its id.
- The scheduler context's own allocation, which returns -1 from `thread_libinit` on failure (thread.cc:61-66): it is part of the context machinery.
- `interrupt_disable`/`interrupt_enable` (interrupt.h is not part of this model): each call is one atomic transition. This includes the early re-enable before the re-lock in `thread_wait`.
- The call of the user's function in `execute_func`: the model sees only its end (`Finish`).
- `cout` and `exit(0)`: after `Shutdown` the process ends.
- ThreadSpec.LibInit: does not model that `thread_libinit` never returns after success. The model returns 0 once the first thread is current, and the scheduler loop continues as `Dispatch` and `Shutdown` steps.
- ThreadSpec.Wait: the value `thread_wait` finally returns after wake-up is that of its `thread_lock` call, which the model takes as a separate `Lock` transition.
- ThreadSpec.Shutdown: after the loop the C code frees `current` even when it is a thread that blocked. In the model a blocked thread is never current, so it stays in its queue when the process exits.
- ThreadSpec.Create: the counter `id` is a C `int` and keys are `unsigned int`; both are unbounded here, so wrap-around after 2^31 threads is not modelled.
- The `bad_alloc` handlers delete pointers that may never have been assigned. The model takes a failed allocation to leave the state unchanged, except in `thread_wait`, where the lock has already been released.
- A thread that finishes while owning a lock leaves a dangling owner in the C code. The model keeps the old id as owner; ids are never reused, because the counter never decreases (`RunNextIdMonotone`).
- disk.cc's thread bodies `scheduler`, `service`, `master` and the argument parsing of `main`: they are file I/O and clients of the thread library, and `scheduler` does not compile.
- `delete r` in `serviceRequest`, and the 32-bit overflow of `track - lasttrack` and `abs`: tracks are unbounded integers.
- DiskQueue.SortBySeek: it is an insertion sort standing in for `std::sort`. Only its contract (ordered and a permutation) is claimed, not `std::sort`'s particular order among equal seek distances.
