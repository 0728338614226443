# Verification of the ownership, concurrency and proxy components

This project models five hand-written components of the repository and proves what they are
for. Concurrent components are state machines in which every atomic access, critical section
or completion handler is one step of any number of threads, and the main results hold in every
state that any run reaches. Beside each machine stands a class with the program's own fields,
whose methods are proved to take exactly the machine's steps.

| files | component | what is proved |
|---|---|---|
| `RefCount.dfy`, `Calls.dfy`, `ControlBlock.dfy`, `Visibility.dfy` | the control block of `null/shared_ptr.h`, with `lock` | exact counts in every interleaving; what each call does across the steps of others, and that it can return; dispose once, after every access of every owner; destroy once and after it, no step on a destroyed block, no leak; `lock` linearizable with stale relaxed loads; exactly when its retries are bounded by the changes of the count |
| `Ownership.dfy`, `SharedHeap.dfy` | handles inside pointees, and cascading release | a release disposes exactly the blocks that no variable reaches and no strong cycle feeds; assignment never disposes what it assigns and changes no unrelated count |
| `Spsc.dfy`, `SpscRingBuffer.dfy` | `null/spsc_ring_buffer.h` | a bounded first-in first-out queue under weak memory; no data race on a slot; what `size`, `is_full` and `is_empty` mean to either side |
| `BlockingQueue.dfy`, `ConcurrentBlockingQueue.dfy` | `null/concurrent_blocking_queue.h` | each step refines a bounded queue; the exact outcome of every call; no lost wakeup, no deadlock exactly when there is capacity, every call returns after `close`, drain after close |
| `LruSpec.dfy`, `LruCache.dfy` | `null/lru_cache.h` | the meaning of whole traces, inclusion of smaller caches, how long a node survives, and the linked list with its map as an implementation of the recency list |
| `ProxySession.dfy`, `ProxySteps.dfy`, `ProxyServer.dfy` | `watchdog` and `session` of `asio/proxy/server.cc` | bytes relayed in order, and deliverable exactly while the way is not cut; what each handler and stop do to every operation and timer; a session stopped for silence exactly when a direction was idle for a whole timeout, sparse watchdog checks, a stopped session runs out of handlers, after at most 12, exactly when nothing holds it |

`Sums.dfy` counts the entries of finite maps, and `Collections.dfy` holds what several components
need of options and sets.

## How the models are built

- **Runs.** Each machine has `Enabled` and `Apply` for its events. `LegalRun` and `After` extend
  them to any sequence of events, so a lemma about `After` is about every reachable state.
- **Weak memory.** An atomic is the sequence of the values stored in it (its modification
  order). A relaxed load may return any value not older than the newest one its caller has seen.
  An acquire load also learns what the storing thread had done before its release.
- **Interference.** In the classes, methods such as `Interfere`, `ConsumerRuns` and `OthersRun`
  stand for the other threads, and callers know nothing but their contracts. That these allow
  every run of steps the others can make is proved by `InterferenceAllowed`,
  `ConsumerKeepsProducer`, `ProducerKeepsConsumer` and `OthersKeepCall`.
- **Heaps.** A heap is seen through its slots: handle variables and handle members of pointees.
  `Retained` is the largest set of live blocks that keep themselves through variables and each
  other. `RetainedIffReachableOrCyclic` relates it to paths, and each handle operation is proved
  to settle in it.
- **Asio.** Each operation completes once. Closing a socket or cancelling a timer turns an
  operation that has not completed into an error and leaves a queued success alone. A timer
  never fires early. Setting an expiry cancels a pending wait. A successful receive delivers at
  least one byte. One thread runs the context, and the clock never goes back, but it may move on
  between two readings in one handler.

## Findings

- **Retries of `lock`.** The retries of one `lock` call are not always matched by changes of the
  count during it: the first load is relaxed, and may return a value older than the call
  (`StaleLoadRetries`). `RetriesAreChangesIffFresh` gives the exact condition on that load.
- **Stale refusals.** A `push` on the ring may be refused although a slot has been freed, when its
  load of `tail_` is stale: `StaleTailRefuses` is such a run, on a ring that is empty, and
  `RefusalMeansSeenFullOrEmpty` says exactly when it happens.
- **Capacity 0.** A blocking queue of capacity 0 can put a producer and a consumer to sleep with
  nobody left to wake them. `GetsStuckIffNoCapacity` shows that no other capacity can.
- **A timed-out `try_pop`.** It returns nullopt from a queue that is still open
  (`TimedPopGivesUpOpen`). What nullopt always means is an empty queue, and the end of the queue
  exactly when it is closed (`NullPopMeansDrained`).
- **Watchdog after stop.** A session that takes long to start may stop itself and still arm its
  second watchdog. This happens exactly when the first deadline has passed at the first check and
  the second has not at the second (`ArmedAfterStopIff`). The session still ends within the bound
  on handlers (`FewHandlersAfterStop`).
- **Assignment order.** Giving up the old value before taking the new one would dispose the object
  about to be assigned in `head = head->next` (`ReleaseFirstWouldDispose`). The temporary and the
  swap avoid it (`AssignedIsRetained`).

## Model

| member | source | states |
|---|---|---|
| RefCount.EveryRunIsSafe | null/shared_ptr.h:36-76 | in every interleaving use_count is the live owners plus pending drops and promotions, weak_count the weak handles plus pending drops plus the owners' unit; the object is disposed at most once with its own deleter, never while owned; the block is destroyed at most once, after disposal, never while referenced; when all is gone both have happened |
| RefCount.StepKeepsInv | null/shared_ptr.h:36-76 | each atomic access, dispose and destroy keeps the exact count equations, the history of use_count and the liveness of the handles being read |
| RefCount.CallKeepsBlock | null/shared_ptr.h:36-76 | a call in flight always finds the block not yet destroyed |
| RefCount.DestroyedIsUnreferenced | null/shared_ptr.h:71-76 | a destroyed block has no handle and no call in flight, and its object was disposed exactly once |
| RefCount.NoStepAfterDestroy | null/shared_ptr.h:99-103 | no step of any kind touches a destroyed block |
| RefCount.ReleaseOrder | null/shared_ptr.h:61-76 | dispose runs with no owner left and the block still there; destroy runs after dispose, when its caller alone can reach the block |
| RefCount.NoLeak | null/shared_ptr.h:61-76 | when the last handle is gone and all calls have returned, the object was disposed and the block destroyed |
| RefCount.WritersFindOwners | null/shared_ptr.h:36-69 | use_count is positive whenever it is written, so nothing revives a count of zero |
| RefCount.LockIsLinearizable | null/shared_ptr.h:48-59 | lock yields a handle if and only if use_count is nonzero at its deciding access, stale loads included |
| RefCount.ExpiredIsPermanent | null/weak_ptr.h:134-144 | once a load of use_count has returned 0, every load ordered after it returns 0 and the count is not written again, so an expired handle stays expired |
| RefCount.RetriesBoundedByChanges | null/shared_ptr.h:48-59 | the genuine CAS failures of one lock call are at most the changes of use_count since the call began plus how far its first load was behind then |
| RefCount.RetriesAreChangesIffFresh | null/shared_ptr.h:48-59 | in all continuations of the call the retries stay within the changes since the call began, if and only if its first load returned a value not older than the call, or the one before that with the count now 0 |
| RefCount.StaleLoadRetries | null/shared_ptr.h:51-57 | a concrete run in which a lock call retries though the count does not change during it |
| Calls.CopyMakesOwner | null/shared_ptr.h:151-156 | a copy, with any steps of others in between, changes nothing when it begins and then adds exactly one owner and one to use_count |
| Calls.MakesWeakHandle | null/weak_ptr.h:20-40 | a weak handle made from a shared or a weak one adds exactly one weak handle and one to weak_count |
| Calls.LockLooks | null/shared_ptr.h:51-54 | lock first loads the count and changes nothing; it returns if and only if it saw zero |
| Calls.LockTries | null/shared_ptr.h:52-57 | each further round counts one owner, only if the count is the one expected, or changes nothing and returns if and only if it saw zero |
| Calls.LockMakesOwner | null/weak_ptr.h:118-124 | the owner counted by lock becomes a new handle, and nothing else changes |
| Calls.DropGivesUpUse | null/shared_ptr.h:145-149 | a drop takes its handle, then exactly one from use_count, and goes on to dispose if and only if that was the last |
| Calls.LastOwnerDisposes | null/shared_ptr.h:64-68 | the last owner's drop runs the block's deleter once and goes on to give up a weak unit |
| Calls.WeakDropBegins | null/weak_ptr.h:29-33 | the drop of a weak handle takes that handle and goes on to give up a weak unit |
| Calls.GivesUpWeak | null/shared_ptr.h:71-76 | it takes exactly one from weak_count, and goes on to destroy if and only if that was the last |
| Calls.DestroysBlock | null/shared_ptr.h:74-75 | the call that goes on to destroy does so once and returns |
| Calls.MoveHandsOver | null/shared_ptr.h:183-187 | after a move the target holds the block, the source does not, and no count or other handle has changed |
| Calls.CallCanReturn | null/shared_ptr.h:36-76 | every call in flight can return by at most four accesses of its own |
| Calls.LockCanSucceed | null/shared_ptr.h:48-59 | while the object is owned a lock that runs alone makes one more owner |
| Visibility.DisposeSeesEveryAccess | null/shared_ptr.h:61-69 | in every run what dispose sees, through the acquire-release decrements, is exactly every access that any owner ever made |
| Visibility.EveryAccessHasOnePlace | null/shared_ptr.h:61-69 | in every run each access is with one live owner, with one drop in flight, or published, and in one of these places only |
| Visibility.StepMoves | null/shared_ptr.h:61-69 | a drop takes over what was done through its owner, a move hands it on, a decrement publishes it |
| Visibility.StepKeepsInv | null/shared_ptr.h:36-76 | no step loses an access, doubles it or publishes it too early |
| Visibility.RunsAreBlockRuns | null/shared_ptr.h:36-76 | following the accesses adds and removes no run of the block |
| ControlBlock.InterferenceAllowed | null/shared_ptr.h:29-81 | any steps of other calls extend the run, leave this call where it is and add nothing to its own steps |
| ControlBlock.ControlBlock.constructor | null/shared_ptr.h:34 | a new block has one owner and the owners' weak unit |
| ControlBlock.ControlBlock.IncUseCount | null/shared_ptr.h:36-40 | performs the counting step of a copy |
| ControlBlock.ControlBlock.IncWeakCount | null/shared_ptr.h:42-46 | performs the counting step of a new weak handle |
| ControlBlock.ControlBlock.FirstLoad | null/shared_ptr.h:51 | the first relaxed load of the promotion returns some value of the modification order and is one step of the call |
| ControlBlock.ControlBlock.CompareExchangeWeak | null/shared_ptr.h:55-57 | adds one owner only to the count it expected; on failure, which may be spurious, it loads a value not older than that one |
| ControlBlock.ControlBlock.Attempt | null/shared_ptr.h:52-57 | one round: success leaves at least two units counted, a zero ends the call with use_count 0 at that moment |
| ControlBlock.ControlBlock.LockUseCount | null/shared_ptr.h:48-59 | within the rounds it is given the loop promotes only a positive count and reports expiry only at use_count 0, with other threads running between its accesses |
| ControlBlock.ControlBlock.DecUseCount | null/shared_ptr.h:61-69 | only the call that takes use_count from 1 disposes, then drops the owners' weak unit, in this order |
| ControlBlock.ControlBlock.Release | null/shared_ptr.h:66-67 | dispose comes before the weak decrement, and destroy if at all after that |
| ControlBlock.ControlBlock.DecWeakCount | null/shared_ptr.h:71-76 | only the call that takes weak_count from 1 destroys |
| ControlBlock.ControlBlock.RunDeleter | null/shared_ptr.h:93-97 | runs the block's deleter on the pointer it was made with |
| ControlBlock.ControlBlock.DeleteThis | null/shared_ptr.h:99-103 | destroys the block, once |
| Ownership.RetainedIffReachableOrCyclic | null/shared_ptr.h:61-69 | a block survives a release if and only if a variable reaches it through strong handles or it is on or downstream of a strong cycle |
| Ownership.RetainedIsSupported | null/shared_ptr.h:61-69 | the surviving blocks keep themselves: each has an owner in a variable, in a pointee being destroyed, or in a survivor |
| Ownership.RetainedCompose | null/shared_ptr.h:61-69 | releasing handles one after the other leaves what releasing them together leaves |
| Ownership.RetainedUnowned | null/shared_ptr.h:61-69 | disposing a block without owners changes nothing for the others beyond the loss of its handles |
| Ownership.RetainedIgnoresWeak | null/weak_ptr.h:29-33 | weak handles keep no object alive |
| Ownership.OnlyDownstreamDisposed | null/shared_ptr.h:61-69 | a release disposes nothing outside what the lost handles led to |
| Ownership.AssignedIsRetained | null/shared_ptr.h:158-194 | the object just assigned survives the release of the old value, even when its handle lived inside what is released or was moved from |
| Ownership.ReleaseFirstWouldDispose | null/shared_ptr.h:158-163 | releasing before assigning would dispose the object being assigned, while the swap keeps it |
| SharedHeap.SettledDisposesExactly | null/shared_ptr.h:61-69 | after an operation the newly disposed blocks are exactly those neither reachable nor fed by a cycle |
| SharedHeap.BlockKeptForWeakHandlesOnly | null/weak_ptr.h:29-33 | the block of a disposed object exists if and only if some handle refers to it, and all such handles are weak |
| SharedHeap.SelfWeakKeepsBlock | null/shared_ptr.h:61-76 | a pointee's own weak handle does not free its block while dispose is running |
| SharedHeap.SettledKeepsUnrelated | null/shared_ptr.h:158-194 | however far a release cascades, both counts of a block stay as they were unless some rewritten handle led or leads to it, directly or through pointees |
| SharedHeap.DropReleases | null/shared_ptr.h:61-76 | the last owner's drop, with everything its pointee held, restores the counts and settles the heap |
| SharedHeap.DecWeakRestores | null/shared_ptr.h:71-76 | giving back one weak unit restores the exact counts, and a block freed by it is referred to by nobody |
| SharedHeap.AcquireKeepsInv | null/shared_ptr.h:151-156 | counting a new handle to a block keeps the counts exact, a strong one only while the object is not disposed |
| SharedHeap.SwapKeepsInv | null/shared_ptr.h:213-219 | swapping two handles, null or not, keeps every count exact |
| SharedHeap.SharedHeap.DropStrong | null/shared_ptr.h:145-149 | the destructor of an owner, disposing recursively, terminates and leaves exactly what is still retained |
| SharedHeap.SharedHeap.Dispose | null/shared_ptr.h:93-97 | the pointee's handles go in any order with the same result |
| SharedHeap.SharedHeap.DropWeak | null/weak_ptr.h:29-33 | the destructor of a weak handle settles the heap and keeps the counts |
| SharedHeap.SharedHeap.CopyHandle | null/shared_ptr.h:151-156 | the copy constructor of either handle counts one more handle, or nothing for null |
| SharedHeap.SharedHeap.Swap | null/shared_ptr.h:213-219 | each of the two places ends up with the other's handle, null included, and every other handle stays |
| SharedHeap.SwapTwice | null/shared_ptr.h:213-219 | swapping again undoes a swap |
| SharedHeap.SharedHeap.CopyAssign | null/shared_ptr.h:158-163 | the destination holds the source's handle, the old value is released, the assigned object is not disposed, unrelated counts are unchanged; also for self-assignment and for sources inside the old value |
| SharedHeap.SharedHeap.MoveAssign | null/shared_ptr.h:189-194 | the same by move, leaving the source null unless it is the destination |
| SharedHeap.SharedHeap.WeakAssign | null/weak_ptr.h:42-73 | assigning to a weak handle, from a weak or a shared one, disposes nothing and changes no unrelated count |
| SharedHeap.SharedHeap.LockInto | null/weak_ptr.h:115-126 | yields an owner if and only if the handle is not null and its object not disposed; unrelated counts are unchanged |
| SharedHeap.SharedHeap.Reset | null/shared_ptr.h:245-250 | the handle becomes the first owner of a new object, or null, and the old value is released; unrelated counts are unchanged |
| Spsc.EveryRunIsFifo | null/spsc_ring_buffer.h:22-50 | with P pushes and C pops done, head is P and tail is C modulo Capacity+1, 0 <= P-C <= Capacity, and the popped values are a prefix of the accepted ones |
| Spsc.StepRefinesQueue | null/spsc_ring_buffer.h:22-50 | the store of head_ enqueues into a queue with room, the store of tail_ dequeues the oldest element, no other access changes the queue |
| Spsc.PushTest | null/spsc_ring_buffer.h:26-30 | a push is refused if and only if the ring is full as seen through the tail it loaded |
| Spsc.PopTest | null/spsc_ring_buffer.h:41-44 | a pop is refused if and only if the ring is empty as seen through the head it loaded |
| Spsc.RefusalMeansSeenFullOrEmpty | null/spsc_ring_buffer.h:29-44 | a full ring refuses and an empty one serves nothing, with an up-to-date index nothing else is refused, with a stale one exactly when it looked full or empty |
| Spsc.StaleTailRefuses | null/spsc_ring_buffer.h:29-30 | a concrete run after which an empty ring of capacity 1 refuses a push whose load of tail_ is stale |
| Spsc.ReadReturnsOldest | null/spsc_ring_buffer.h:46 | however stale the view, a slot read can return only the oldest element not yet popped |
| Spsc.OldestIsVisible | null/spsc_ring_buffer.h:46 | and that element is there to be read |
| Spsc.ReadIsRaceFree | null/spsc_ring_buffer.h:43-47 | while the consumer reads a slot it knows of every write to it and the producer is at another slot |
| Spsc.WriteIsRaceFree | null/spsc_ring_buffer.h:29-33 | while the producer writes a slot it knows of every read of it and the consumer is at another slot |
| Spsc.SizeIsDistance | null/spsc_ring_buffer.h:52-62 | the size computed from any two stores at most Capacity apart is the number of elements between them |
| Spsc.ProducerSizeBounds | null/spsc_ring_buffer.h:52-62 | a producer's size is never below the true length, at most Capacity, and exact with an up-to-date load |
| Spsc.ConsumerSizeBounds | null/spsc_ring_buffer.h:52-62 | a consumer's size is never above the true length nor negative, and exact with an up-to-date load |
| Spsc.ConsumerKeepsProducer | null/spsc_ring_buffer.h:38-50 | the consumer's steps leave all that the producer relies on |
| Spsc.ProducerKeepsConsumer | null/spsc_ring_buffer.h:22-36 | the producer's steps leave all that the consumer relies on |
| Spsc.SizeInRange | null/spsc_ring_buffer.h:52-62 | for any other thread the size is within 0..Capacity |
| Spsc.NotFullThenPushAccepted | null/spsc_ring_buffer.h:64-69 | after a producer sees not-full its next push is accepted, whatever the consumer does |
| Spsc.NotEmptyThenPopServed | null/spsc_ring_buffer.h:71-76 | after a consumer sees not-empty its next pop is served, whatever the producer does |
| SpscRingBuffer.SpscRingBuffer.constructor | null/spsc_ring_buffer.h:14-17 | an empty ring of Capacity+1 slots |
| SpscRingBuffer.SpscRingBuffer.Push | null/spsc_ring_buffer.h:22-36 | appends exactly the item to what was accepted, or refuses only when the newest tail seen leaves no room; room once seen is not refused |
| SpscRingBuffer.SpscRingBuffer.Pop | null/spsc_ring_buffer.h:38-50 | returns the oldest element accepted and not yet popped, or refuses only when the newest head seen leaves nothing |
| SpscRingBuffer.SpscRingBuffer.WriteSlot | null/spsc_ring_buffer.h:32 | the slot written holds no element still to be read |
| SpscRingBuffer.SpscRingBuffer.ProducerSize | null/spsc_ring_buffer.h:52-62 | called by the producer with the consumer running between the loads: at least the true length, at most Capacity, and what the newest tail seen leaves |
| SpscRingBuffer.SpscRingBuffer.ConsumerSize | null/spsc_ring_buffer.h:52-62 | called by the consumer with the producer running between the loads: between 0 and the true length, and what the newest head seen leaves |
| SpscRingBuffer.SpscRingBuffer.IsFull | null/spsc_ring_buffer.h:64-69 | called by the producer: answers no exactly when the newest tail seen leaves room, which is when Push accepts; a full ring is never missed |
| SpscRingBuffer.SpscRingBuffer.IsEmpty | null/spsc_ring_buffer.h:71-76 | called by the consumer: answers no exactly when the newest head seen leaves an element, which is when Pop serves; an empty ring is never missed |
| BlockingQueue.EveryRunIsLive | null/concurrent_blocking_queue.h:28-106 | popped followed by queued is accepted, the length is within the capacity; while open no wakeup is lost: with a consumer asleep every element has a woken consumer, with a producer asleep every free slot a woken producer; once closed a thread sleeps only while some closer has its notify_all still to do |
| BlockingQueue.StepRefinesQueue | null/concurrent_blocking_queue.h:28-106 | an accepted push enqueues its caller's element, a served pop dequeues the oldest, and no other step changes what has been accepted, queued or popped; only close closes |
| BlockingQueue.StepMovesCalls | null/concurrent_blocking_queue.h:28-106 | a call that returns leaves and one that does not sleeps; notify_one wakes one sleeper of the other kind if there is one, notify_all every one of its kind; no other call is touched |
| BlockingQueue.PushOutcome | null/concurrent_blocking_queue.h:28-61 | a push is accepted if and only if the queue is open with room, refused if and only if it is closed or the call has timed out on a full queue, and sleeps otherwise |
| BlockingQueue.PopOutcome | null/concurrent_blocking_queue.h:63-95 | a pop gets the oldest element if there is one, nullopt if and only if the queue is empty and closed or the call has timed out, and sleeps otherwise |
| BlockingQueue.TimedCallReturns | null/concurrent_blocking_queue.h:45-95 | a sleeping try_push or try_pop can time out and then returns |
| BlockingQueue.StepKeepsInv | null/concurrent_blocking_queue.h:28-106 | every critical section, spurious wakeup, timeout and notification keeps this, for any choice of notify_one |
| BlockingQueue.NeverStuck | null/concurrent_blocking_queue.h:33-37 | with capacity at least 1, a sleeping producer and a sleeping consumer imply a woken waiter |
| BlockingQueue.GetsStuckIffNoCapacity | null/concurrent_blocking_queue.h:18-22 | some run puts both kinds to sleep with nobody woken if and only if the capacity is 0 |
| BlockingQueue.ZeroCapacityGetsStuck | null/concurrent_blocking_queue.h:33-34 | with capacity 0 one push and one pop wait for ever |
| BlockingQueue.ClosedStepShortens | null/concurrent_blocking_queue.h:97-106 | after closing every step but a new call lowers a measure of the steps left |
| BlockingQueue.ClosedRunIsBounded | null/concurrent_blocking_queue.h:97-106 | without new calls a closed queue takes boundedly many steps |
| BlockingQueue.ClosedNeverStuck | null/concurrent_blocking_queue.h:97-106 | once closed, while a call has not returned some thread can go on without a spurious wakeup or timeout |
| BlockingQueue.NullPopMeansDrained | null/concurrent_blocking_queue.h:63-95 | a nullopt means an empty queue, drained if and only if it is closed; from pop it means closed, and from an open queue a timeout |
| BlockingQueue.TimedPopGivesUpOpen | null/concurrent_blocking_queue.h:79-88 | a concrete run in which try_pop returns nullopt from an open queue |
| BlockingQueue.StepKeepsDrained | null/concurrent_blocking_queue.h:63-77 | a closed and empty queue stays so, refuses every push and answers nullopt to every pop |
| BlockingQueue.AfterNullPopNothingMore | null/concurrent_blocking_queue.h:63-77 | after a pop has returned nullopt, all accepted elements have been popped, every later push fails and every later pop returns nullopt |
| BlockingQueue.RefusedPushMeansClosedOrFull | null/concurrent_blocking_queue.h:45-61 | a push fails only when the queue is closed, or by a timeout while it is full |
| ConcurrentBlockingQueue.ConcurrentBlockingQueue.constructor | null/concurrent_blocking_queue.h:18-22 | an open, empty queue with nobody waiting |
| ConcurrentBlockingQueue.OthersKeepCall | null/concurrent_blocking_queue.h:28-106 | any steps of other threads leave a call that is not asleep where it is, only add to what has been accepted and popped, never reopen the queue, and once it is closed put nobody to sleep |
| ConcurrentBlockingQueue.ConcurrentBlockingQueue.PopSection | null/concurrent_blocking_queue.h:79-95 | the code of pop and try_pop under the lock takes the machine's step and returns its result |
| ConcurrentBlockingQueue.ConcurrentBlockingQueue.PushSection | null/concurrent_blocking_queue.h:45-61 | the code of push and try_push under the lock takes the machine's step and returns its result |
| ConcurrentBlockingQueue.ConcurrentBlockingQueue.Pop | null/concurrent_blocking_queue.h:63-95 | within the sleeps it is given: returns the oldest element accepted and not yet popped, or nullopt from an empty queue that is closed or timed out; nothing accepted or popped before is rewritten |
| ConcurrentBlockingQueue.ConcurrentBlockingQueue.Push | null/concurrent_blocking_queue.h:28-61 | within the sleeps it is given: the item is the last accepted and at the back within the capacity, or the queue was closed, or full at a timeout; nothing accepted or popped before is rewritten |
| ConcurrentBlockingQueue.ConcurrentBlockingQueue.Close | null/concurrent_blocking_queue.h:97-106 | when it returns the queue is closed and nobody is asleep on either condition variable, with others running between its steps |
| LruSpec.ListIsLatestTouched | null/lru_cache.h:23-55 | after any trace the list holds the first capacity keys of the most-recent-first deduplication of all touches |
| LruSpec.ValuesAreLatestPuts | null/lru_cache.h:34-55 | each cached key has the value of its latest put |
| LruSpec.RunIsDistinct | null/lru_cache.h:34-55 | keys are distinct and no more than the capacity |
| LruSpec.TouchedNow | null/lru_cache.h:23-32 | a hit, like a put, makes its key the latest touched |
| LruSpec.MissChangesNothing | null/lru_cache.h:26-28 | a get of a key that is not cached touches and changes nothing |
| LruSpec.CachedIffFewTouchedSince | null/lru_cache.h:47-51 | a key is cached if and only if it was touched and fewer than capacity distinct other keys have been touched since |
| LruSpec.FewNamesNeverCrowd | null/lru_cache.h:47-51 | a later trace naming fewer than capacity other keys cannot evict a key just touched |
| LruSpec.SmallerIsIncluded | null/lru_cache.h:23-55 | on any trace the list of a smaller cache is a subsequence of a larger one's |
| LruSpec.SmallerHitIsLargerHit | null/lru_cache.h:23-32 | every hit in the smaller cache is a hit in the larger one with the same value |
| LruCache.Unlink | null/lru_cache.h:30-50 | takes a node out of the ring of prev and next links, keeping the rest linked and all data |
| LruCache.LinkFront | null/lru_cache.h:43-53 | puts a node at the front of the ring, keeping all data |
| LruCache.Splice | null/lru_cache.h:30 | moves a node to the front of the ring, keeping the order of the others and all data |
| LruCache.LruCache.Make | null/lru_cache.h:17-21 | capacity 0, and nothing else, is refused |
| LruCache.LruCache.constructor | null/lru_cache.h:17-21 | an empty cache of the capacity given |
| LruCache.LruCache.Get | null/lru_cache.h:23-32 | null if and only if the key is not cached; otherwise its own node with its value, now in front; the map does not change |
| LruCache.LruCache.Put | null/lru_cache.h:34-55 | rewrites in place and moves to the front, or evicts the back and adds a new node; every key that stays keeps its node |
| LruCache.LruCache.MoveToFront | null/lru_cache.h:30 | the splice keeps node identity and the order of the others |
| LruCache.LruCache.EvictBack | null/lru_cache.h:49-50 | removes the last node and exactly its key from the map |
| LruCache.LruCache.AddFront | null/lru_cache.h:53-54 | a new node in front, and the map sends its key there |
| LruCache.LruCache.Replay | null/lru_cache.h:23-55 | through any further trace a cached key keeps the same node if and only if at no point capacity distinct other keys had been touched since its last touch; otherwise a node it has afterwards is a new one |
| ProxySession.EveryRunRelays | asio/proxy/server.cc:96-168 | in every reachable state, also after stop, each direction has written a prefix of what it received, short by at most one buffer, with at most one operation outstanding on its buffer, so each socket has at most one receive and one write |
| ProxySteps.DeliverableIffNotCut | asio/proxy/server.cc:96-168 | in every reachable state what a direction has received can be written to the other socket if and only if it already is, or the session is open and the direction's operation has not failed |
| ProxySteps.DeliverAll | asio/proxy/server.cc:96-168 | an open session whose operation has not failed delivers everything received so far, without a failure and without closing |
| ProxySteps.StreamsGrow | asio/proxy/server.cc:96-168 | only an arrival adds to what a direction has received, exactly its data at the end; only a send adds to what it has written, the next bytes received |
| ProxySteps.ReceivedThenWrites | asio/proxy/server.cc:100-107 | the handler of a receive starts one write of exactly its bytes, outstanding while the session is open, delays its watchdog and touches nothing else |
| ProxySteps.WrittenThenReceives | asio/proxy/server.cc:118-126 | the handler of a write starts one receive in the same way |
| ProxySteps.FailedIoStops | asio/proxy/server.cc:101-105 | the handler of a failed operation leaves both sockets closed, no operation or timer wait pending, and completions already queued as they were |
| ProxySteps.FiredWaitStopsOrRearms | asio/proxy/server.cc:17-32 | a watchdog that fires stops the session like that if the deadline has come, and otherwise waits for the deadline and touches nothing else |
| ProxySteps.CancelledWaitEnds | asio/proxy/server.cc:26-29 | a cancelled wait ends and touches nothing else |
| ProxySteps.StopStops | asio/proxy/server.cc:87-94 | stop closes both sockets, fails exactly the unfinished operations and cancels exactly the waits that have not fired |
| ProxySteps.StopTwice | asio/proxy/server.cc:87-94 | stopping again changes nothing |
| ProxySteps.RefusedSessionIsOver | asio/proxy/server.cc:76-77 | a failed connect starts nothing and no handler ever runs again |
| ProxySteps.ConnectedSessionStarts | asio/proxy/server.cc:78-80 | a connect starts one receive in each direction and arms both watchdogs at their deadlines; the session stays open if and only if neither deadline has come at its first check |
| ProxySteps.OutsideStep | asio/proxy/server.cc:109-110 | an arrival fills the front of the buffer and completes its receive; a send, an end, an error or a timer that fires touches its own operation or wait alone |
| ProxySession.EveryRunChecksSparsely | asio/proxy/server.cc:15-45 | each re-arming check comes a whole timeout after the last but one, so checks over an interval are bounded by twice its length over the timeout; the armed expiry is never beyond the deadline |
| ProxySession.RearmValid | asio/proxy/server.cc:17-33 | a wait that fires before the deadline finds it moved by a whole timeout since the check that armed it |
| ProxySession.ChecksPerInterval | asio/proxy/server.cc:15-45 | the bound on the number of checks between two of them |
| ProxySession.StepKeepsInv | asio/proxy/server.cc:71-178 | every handler and every outside event keeps what each pump has relayed, the watchdogs' timing, and that nothing is pending on closed sockets |
| ProxySession.BeginKeepsInv | asio/proxy/server.cc:75-81 | the start of a session establishes it, however the clock moves meanwhile |
| ProxySession.ArmedAfterStopIff | asio/proxy/server.cc:170-178 | a session start leaves a stopped session with its second watchdog armed if and only if the first deadline has passed at the first check and the second has not at the second |
| ProxySession.StepMovesDeadline | asio/proxy/server.cc:111-168 | a watchdog's deadline moves exactly when an operation of its own direction starts, to a timeout after that |
| ProxySession.StopsIffIdle | asio/proxy/server.cc:15-45 | in every run a watchdog whose timer has fired stops the session if and only if a whole timeout has passed since an operation of its direction was last started |
| ProxySession.OpenSessionIsGuarded | asio/proxy/server.cc:87-178 | an open connected session has one operation in each direction and both watchdogs armed; both sockets close together, and after that no operation is pending |
| ProxySession.StopLowersRank | asio/proxy/server.cc:87-94 | stopping again never raises the number of handlers left |
| ProxySession.StoppedStepRank | asio/proxy/server.cc:87-178 | after stop every handler lowers the measure of handlers left, queued successes and re-armed watchdogs included, and nothing else raises it |
| ProxySession.FewHandlersAfterStop | asio/proxy/server.cc:87-178 | after stop at most 12 more handlers run, whatever happens around them, and the sockets stay closed |
| ProxySession.StoppedSessionMovesOn | asio/proxy/server.cc:87-178 | while a handler holds a stopped session, one can be brought to run |
| ProxySession.StoppedRunEndsReleased | asio/proxy/server.cc:87-178 | however a stopped session has gone on, it has run at most 12 handlers, and it has none left that could ever run if and only if no operation or wait holds it |
| ProxySession.StoppedSessionEnds | asio/proxy/server.cc:87-178 | from every stopped session the state with no handler holding it can be reached |
| ProxyServer.WatchdogTimer.Start | asio/proxy/server.cc:15-33 | reports a deadline that has been reached, otherwise cancels the pending wait and arms one at the deadline |
| ProxyServer.WatchdogTimer.Stop | asio/proxy/server.cc:35-39 | cancels exactly the waits that have not fired; none is pending afterwards |
| ProxyServer.WatchdogTimer.Delay | asio/proxy/server.cc:41-45 | moves the deadline and does not touch the armed wait |
| ProxyServer.FailBothKinds | asio/proxy/server.cc:87-94 | closing the two sockets one after the other fails every unfinished operation of both directions |
| ProxyServer.Session.constructor | asio/proxy/server.cc:64-69 | a session before its connection |
| ProxyServer.Session.Stop | asio/proxy/server.cc:87-94 | closes both sockets and cancels both timers; no operation or wait is pending afterwards, and queued completions stay |
| ProxyServer.Session.ReceiveFromClient | asio/proxy/server.cc:96-112 | starts one receive into the client's buffer, failing on a closed socket, and delays the first watchdog |
| ProxyServer.Session.SendToServer | asio/proxy/server.cc:114-131 | starts one write of the received bytes, outstanding if the server socket is open and failing otherwise, and delays the first watchdog |
| ProxyServer.Session.ReceiveFromServer | asio/proxy/server.cc:133-149 | starts one receive into the server's buffer, failing on a closed socket, and delays the second watchdog |
| ProxyServer.Session.SendToClient | asio/proxy/server.cc:151-168 | starts one write of the received bytes, outstanding if the client socket is open and failing otherwise, and delays the second watchdog |
| ProxyServer.Session.StartWatchdogs | asio/proxy/server.cc:170-178 | checks the first watchdog and then the second, each of which may stop the session |
| ProxyServer.Session.HandleConnect | asio/proxy/server.cc:74-83 | on success starts both receives and both watchdogs, on failure nothing |
| ProxyServer.Session.HandleIo | asio/proxy/server.cc:100-107 | an error stops the session, a receive starts the write of its bytes, a write starts the next receive |
| ProxyServer.Session.HandleWait | asio/proxy/server.cc:26-29 | a cancelled wait ends, one that fired looks at the deadline again |
| ProxyServer.Session.Step | asio/proxy/server.cc:71-178 | every step of the object is the model's step and keeps its invariant |
| ProxyServer.Session.Replay | asio/proxy/server.cc:71-178 | the object follows every legal run of the model, so what holds of runs holds of it |

## Left out

- ControlBlock.ControlBlock.LockUseCount: makes at most `attempts` rounds, because the loop need not end under a scheduler that lets every CAS fail; what a round and the outcome mean does not depend on the number.
- ConcurrentBlockingQueue.ConcurrentBlockingQueue.Pop: makes at most `rounds` rounds, because a caller may sleep for ever in an open queue; that calls return after `close` is proved on the machine.
- ConcurrentBlockingQueue.ConcurrentBlockingQueue.Push: makes at most `rounds` rounds, for the same reason.
- SharedHeap.SharedHeap.Dispose: leaves open the order in which a pointee's handles are destroyed, where C++ fixes one; a destructor that does anything else than destroy them is not modelled.
- Spsc.SizeInRange: says only that the result is in range, since for a third thread no relation to the true length holds.
- `null/concurrent_lru_cache.h`: the same bodies under one lock; it would repeat the cache theorems.
- `null/unique_ptr.h`: single ownership, easy beside the counted handles.
- Template conversions between handle types, the raw pointer beside the block in a handle, dereferencing and comparison.
- The failure of allocating a control block (`null/shared_ptr.h:133-142`), and overflow of the counts: fewer handles than `long` can count are assumed.
- That what other calls did with the block itself is visible to `destroy`; for the object and `dispose` this is proved.
- Unsynchronised concurrent use of one handle object; a client is assumed not to destroy or move a handle that another call is reading.
- Copying and moving of elements in the ring and the queue, which may throw; `Capacity + 1` is assumed representable.
- `size`, `empty` and `is_closed` of the blocking queue: one read under the lock.
- Client writes through the pointer that `get` returns, hashing, and the allocation of list nodes.
- Asio itself, the strands (one thread runs the context), the accept loop and `main` of the proxy (`asio/proxy/server.cc:194-262`).
- `asio/echo`, `asio/basic`, `asio/socket`, `asio/coro`, `debug` and `system`: demonstrations of library calls, finite switches and diagnostics.
