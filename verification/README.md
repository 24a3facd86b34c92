# Protocols of the cocls coroutine library, modelled and proved in Dafny

cocls is a C++20 coroutine library. Its core is a set of small protocols whose correctness depends on
invariants over all interleavings or all runs. This project models them and proves what they are for.

`dafny verify dfyconfig.toml` checks everything.

## How the model is built

Each protocol that several threads run is a state machine: a `State`, the atomic steps as `Event`s, a
function `Step`, and an invariant that every step of everybody keeps. Main results are about
every run of the machine from its initial state, of any length, with any number of agents. Code that one thread
runs in place, under a lock or alone, is a class whose methods update the same fields as the source and
are proved against the functions that the theorems are about. The table of the model has no rows for
methods that only carry out one step of such a function (most of `Publishers.PublisherQueue`).

| component | machine or specification | class | theorems |
|---|---|---|---|
| mutex.h, awaiter.h | `MutexProtocol`, `MutexSpec`, `LateRead` | `Mutexes.Mutex`, `Awaiters` | `MutexTheorems`, `LateRead` |
| future.h, awaiter.h | `FutureProtocol` | `Futures.Future`, `Futures.Promise` | `FutureTheorems` |
| publisher.h | `PublisherSpec`, `PublisherDelivery`, `PublisherSkipping` | `Publishers.PublisherQueue` | `PublisherTheorems`, `PublisherDelivery`, `PublisherSkipping` |
| scheduler.h | `SchedulerTheorems` | `Schedulers.Scheduler`, methods of `TimerHeap` | `SchedulerTheorems` |
| suspend_point.h, coro_queue.h | `CoroQueue`, `RoundRobin` | `SuspendPoints.SuspendPoint`, `CoroQueue.RunQueue`, `RoundRobin.Thread` | `CoroQueue`, `RoundRobin` |
| queue.h | `AwaitableQueue` | `AwaitableQueue.AwaitQueue` | `AwaitableQueue` |
| generator_aggregator.h | `Aggregator` | method `Aggregator.AggregateSync` | `Aggregator` |
| thread_pool.h | `ThreadPool` | `ThreadPool.Pool` | `ThreadPool` |

`Sequences`, `Chains`, `Options` and `Outcomes` are shared vocabulary.

## Where the code does not do what it promises

- **The late read in the mutex.** After a successful push, `subscribe` reads its own `_next` again
  (src/cocls/mutex.h:194) to learn whether the mutex was free. By then the node is public, and the
  owner's reversal or a hand-off may have written null into it. `MutexProtocol` uses the value that the
  exchange saw. `LateRead` adds the second read as a step that may come at any time later:
  `LateRead.LateReadBreaksExclusion` is a run of two agents in which it makes two owners, and
  `LateRead.LateReadExact` gives, for every run, exactly when it misleads: while the agent waits, if
  and only if it is the last of the hand-off queue; once it has been served, always, until an exchange
  of its next `lock()` has failed because of somebody. That last condition is about the model, in which
  an agent locks with the same node again; in the code the awaiter of an agent that was served may be
  destroyed already, and the second read is one of freed memory.
- **A value whose constructor throws.** `promise::set_value` claims the pointer and then constructs
  the value (src/cocls/future.h:642-648, 556). If that throws, nobody points to the future any more
  and it stays pending: `FutureTheorems.ThrowingSetAbandons`.
- **Overlapping moves into one promise.** A move assignment drops its target and stores into it
  later (src/cocls/future.h:608-614). When two moves into the same promise overlap, the second
  store can overwrite the pointer to a pending future: `FutureTheorems.OverlappingMovesLose`.
  `FutureTheorems.NeverAbandoned` says that these are the only ways: when everything is quiet the
  future is resolved if and only if no call threw while it held the pointer and no store overwrote it.
- **Closing in the middle of `next()`.** If the publisher is closed between a subscriber's failed
  `advance` and its `advance_suspend`, the latter does not move the position
  (src/cocls/publisher.h:221-224), and the fetch looks at the item before the one that is due
  (src/cocls/publisher.h:232-241). Three things can follow. The item at the old position comes again:
  `PublisherDelivery.CloseCanRedeliver` is such a run, and `PublisherDelivery.GapFreeDelivery` says for
  every run that it happens at most once, when exactly, and that nothing else is wrong with what was
  delivered. Or the end of the stream is reported although there are items to read:
  `PublisherDelivery.CloseCanLose` is such a run, and `PublisherDelivery.EndIsExact` says for every run
  of a subscriber from the most recent position when exactly that happens. Or, for a subscription that
  skips items, the fetch indexes an empty queue: `PublisherSkipping.CloseCanReadEmpty` and
  `PublisherSkipping.EmptyReadExact`.
- **A push whose item throws.** `queue::push` takes the promise of a waiting pop out of the queue and
  then constructs the item (src/cocls/queue.h:150-154). If that throws, the pop is never resolved:
  `AwaitableQueue.AbandonedExactly`.
- **Dead entries in the scheduler.** `remove` may find a dead entry (one whose promise was already
  taken) and return nothing although a live entry has the same identifier (src/cocls/scheduler.h:135-139):
  `SchedulerTheorems.DeadTwinHides` is a run that gets there. The same function reads the first entry
  again after each pop (src/cocls/scheduler.h:130), also when the vector has become empty:
  `SchedulerTheorems.RemoveCanRunPastEnd`. `Schedulers.Scheduler.Remove` gives the exact condition
  for both.
- **Generators that have already ended.** If one of the generators passed to the aggregator has ended
  before, charging it throws outside the try block (src/cocls/generator_aggregator.h:101-105,
  src/cocls/generator.h:200-211). Nothing is yielded from anybody, and unless it is the last one, the
  destructor of the controller waits forever for generators that were never charged:
  `Aggregator.EndedGeneratorFails` and `Aggregator.AggregateSync`.
- **Merging a suspend point into itself** drops its handles, and may leak an array
  (src/cocls/suspend_point.h:65-79): `SuspendPoints.SuspendPoint.MergeSelf`.
- **`future_common::initialized`** returns true exactly for the uninitialised state, contrary to its
  comment (src/cocls/future.h:130-139). It is not part of this model.

## Model

| member | source | states |
|---|---|---|
| MutexTheorems.MutualExclusion | src/cocls/mutex.h:148-223 | over every interleaving of lock, try_lock and unlock by any number of agents, at most one agent holds the mutex in every reachable state, and the atomic pointer is null exactly when nobody does, including the time between a winning push and its exchange |
| MutexTheorems.FirstComeFirstServed | src/cocls/mutex.h:148-223 | in every reachable state the agents ever suspended, in the order of their exchanges, are the agents served, in order, followed by reverse of the unmoved segment ++ hand-off queue ++ reverse of the request stack; so nobody is lost, duplicated or overtaken |
| MutexTheorems.StepRefinesLock | src/cocls/mutex.h:148-223 | each atomic step is one operation of an ideal lock with a holder and a FIFO line, on behalf of the stepping agent, or no change to it; try_lock and ready make the caller the holder of a free lock and never overtake; unlock is called by the holder and frees the lock exactly when nobody waits, and otherwise makes the first in line the holder |
| MutexTheorems.AcquireExact | src/cocls/mutex.h:148-229 | an agent comes to own the mutex by its own try_lock or ready on a free mutex, at the end of its build_queue after a winning push, or by a hand-off to it, and in no other way |
| MutexTheorems.OwnerKeeps | src/cocls/mutex.h:148-186 | in every continuation an owner stays the owner until its own call of unlock |
| MutexTheorems.LeaveExact | src/cocls/mutex.h:121-223 | where each step leads its agent: after a successful exchange or a hand-off in unlock it is out, after a failed exchange it rebuilds the queue, a failed try_lock changes nothing, and a failed attempt to subscribe leaves the pointer at what it saw |
| MutexTheorems.BoundedBypass | src/cocls/mutex.h:148-186 | in every continuation the requester at place k of the line stays suspended and only moves up until the (k+1)-st hand-off, which is its own |
| MutexTheorems.LineStep | src/cocls/mutex.h:148-186 | one step leaves the line, appends to it, or hands the mutex to exactly its head |
| MutexTheorems.SomebodyCanMove | src/cocls/mutex.h:148-223 | no deadlock and no bad pointer: whoever waits, waits for a holder, and a holder always has an enabled step |
| MutexTheorems.BuildQueueReverses | src/cocls/mutex.h:209-223 | whatever the other agents push meanwhile, the loop runs once for each detached node and leaves the queue the reverse of the detached stack; the new requests stand above the doorman |
| LateRead.LateReadExact | src/cocls/mutex.h:189-206 | in every run, whenever an agent that pushed itself above somebody reads its pointer again, before or after it was served, the read returns null, and leaves two owners or an owner of a mutex that counts as free, if and only if the agent is the last of the hand-off queue or has been served and has not lost an exchange of its next lock(); a winner always reads null |
| LateRead.LateReadBreaksExclusion | src/cocls/mutex.h:189-206 | a concrete run of two agents in which that second read makes a second owner |
| LateRead.WaitingNext | src/cocls/mutex.h:209-223 | of all waiting agents exactly the last of the hand-off queue has a null pointer |
| MutexProtocol.StepKeepsGood | src/cocls/mutex.h:148-223 | every atomic step of every agent keeps the invariant: memory is the picture of three lists, and the line they spell out is exactly who is suspended |
| MutexProtocol.ShapeMoveOne | src/cocls/mutex.h:216-221 | one iteration of the reversal loop moves the top of the segment to the front of the queue and disturbs no other list |
| MutexProtocol.ShapeHandOff | src/cocls/mutex.h:166-174 | the hand-off takes the head of a non-empty queue, clears its link and leaves the rest linked |
| Mutexes.Mutex.constructor | src/cocls/mutex.h:51-58 | a new mutex is free and nobody waits |
| Mutexes.Mutex.Ready | src/cocls/mutex.h:121-123 | makes the caller the holder of a free mutex, and otherwise changes nothing |
| Mutexes.Mutex.BuildQueue | src/cocls/mutex.h:209-223 | on a chain of awaiter objects: terminates, makes the queue exactly the reverse of the segment above stop, and touches neither stop nor anything below it |
| Mutexes.Mutex.Subscribe | src/cocls/mutex.h:189-206 | the requester becomes the holder of a free mutex, and otherwise the last in line; the result tells which |
| Mutexes.Mutex.Unlock | src/cocls/mutex.h:148-175 | the mutex is handed to exactly the first in line, or becomes free when nobody waits |
| Mutexes.Mutex.Rebuild | src/cocls/mutex.h:158-163 | refilling the empty hand-off queue leaves the waiting line as it is |
| Mutexes.Mutex.TakeFirst | src/cocls/mutex.h:166-174 | exactly the head of the hand-off queue leaves it, with its link cleared |
| Awaiters.Awaiter.Subscribe | src/cocls/awaiter.h:65-72 | pushes the awaiter on the chain and keeps the old top in its link |
| Awaiters.Awaiter.SubscribeCheckReady | src/cocls/awaiter.h:116-129 | registers unless the chain is marked ready; then nothing changes and the link is null |
| Awaiters.ResumeChain | src/cocls/awaiter.h:98-107 | resumes every node of a detached chain once, newest first, each unlinked before it is resumed |
| Awaiters.Collector.ResumeChainSetReady | src/cocls/awaiter.h:93-97 | marks the chain ready and resumes exactly who was on it |
| FutureTheorems.ExactlyOnceWakeup | src/cocls/awaiter.h:93-129 | under every interleaving of subscribers and resolver, the resumed awaiters followed by the waiting ones are the reverse of the order of subscription, each once; a refused awaiter is in neither list and the future is ready; when the resolving call has returned everybody was resumed |
| FutureTheorems.PromiseRace | src/cocls/future.h:598-661 | over any mix of setting, dropping, moving and destroying promises, with values whose constructors may throw, the pointer is in at most one place, and nowhere exactly if the future is resolved, a store overwrote the pointer or its holder threw; the result is written at most once, at most one call resolves, the result is there before anybody sees the future ready, and it is then the outcome of the one call that found the pointer |
| FutureTheorems.ResultIsTheWinners | src/cocls/future.h:548-661 | in every run at most one call finds the pointer in order to resolve; once the future is ready its result is exactly what that call came with, the value or exception of a set, or nothing for a drop, a move assignment or a destruction; the outcomes of the others never show; and only that call walks the chain |
| FutureTheorems.CallGoesOn | src/cocls/future.h:598-661 | the order of the steps of each call: a set or a drop resolves and returns, an assignment drops its target, and then moves from its own source to its own target |
| FutureTheorems.PromisesExist | src/cocls/future.h:598-614 | a promise comes to exist when a move construction has stored into it, and is gone when destroyed, and only then |
| FutureTheorems.RetrySucceeds | src/cocls/awaiter.h:116-129 | a subscriber is refused exactly when the future is ready; otherwise a failed exchange lets the next one succeed unless somebody else comes between |
| FutureTheorems.ReadyIsFinal | src/cocls/future.h:159-172 | once ready, a future stays ready in every continuation, its result never changes and no subscription succeeds |
| FutureTheorems.SetFindsNoValue | src/cocls/future.h:548-565 | the assertion that a value is not set twice cannot fail |
| FutureTheorems.NeverAbandoned | src/cocls/future.h:598-661 | when no promise points to the future and no call is under way, it has been resolved, exactly once and with all its subscribers resumed, if and only if in the run no store found its target holding the pointer and no call threw after claiming it |
| FutureTheorems.SeparateMovesResolve | src/cocls/future.h:598-614 | what a caller can see to: as long as no two moves into the same promise overlap, no store overwrites the pointer, so if also no value throws, the future has been resolved once everything is quiet |
| FutureTheorems.OverlappingMovesLose | src/cocls/future.h:608-614 | a concrete run of two overlapping move assignments after which nobody can resolve the future |
| FutureTheorems.ThrowingSetAbandons | src/cocls/future.h:642-648 | a concrete run in which a throwing constructor leaves the future pending with nobody to resolve it |
| FutureTheorems.LossExactly | src/cocls/future.h:608-648 | the pointer is lost or thrown away exactly by a store that finds its target holding it, or by a call that throws while it holds it |
| FutureTheorems.ResolverCanMove | src/cocls/awaiter.h:98-107 | the walk over the detached chain meets only awaiters that still wait |
| FutureProtocol.PointerStep | src/cocls/future.h:598-661 | every step leaves the pointer to the future where it is, moves it whole, or loses it by resolving, throwing or overwriting |
| FutureProtocol.StepKeepsGood | src/cocls/future.h:548-661 | every step of subscribers, promises and resolvers keeps the whole invariant |
| Futures.Future.constructor | src/cocls/future.h:216 | a new future is neither ready nor pending |
| Futures.Future.GetPromise | src/cocls/future.h:282-286 | the future becomes pending with nobody waiting, and the promise points to it |
| Futures.Future.Subscribe | src/cocls/future.h:170-172 | registers exactly when the future is not ready; the newest awaiter is first; on a future without a promise it is registered above the static marker |
| Futures.Future.Set | src/cocls/future.h:548-565 | writes the result of a pending future without waking anybody, or throws and changes nothing |
| Futures.Future.Resolve | src/cocls/future.h:567-569 | the future becomes ready with its result unchanged, and everybody who waited is resumed, newest first |
| Futures.Future.Value | src/cocls/future.h:324-360 | returns, rethrows or reports a missing value exactly according to the state; not-ready only while pending |
| Futures.Promise.Claim | src/cocls/future.h:696-698 | the pointer leaves the promise |
| Futures.Promise.SetValue | src/cocls/future.h:642-661 | without the pointer it loses the race; with it the future is ready with this outcome and its awaiters are resumed, or, if constructing the value throws, the future stays pending and nobody points to it |
| PublisherDelivery.GapFreeDelivery | src/cocls/publisher.h:202-274 | in every run, with pushes, batches, kicks, closing and other subscribers between the three steps of next(), an all_values subscriber has received exactly the history items right after its start position, except that one item at most, the one before the closing position, comes once more; and that happens if and only if some await_resume follows an await_suspend that found the queue closed, while the item is queued |
| PublisherDelivery.Retention | src/cocls/publisher.h:221-270 | in every run, each await_resume of a subscriber that started at the most recent position: if closing has not split this next(), the next item comes if and only if there is one, the subscriber was not kicked and never had more than the maximum length to read; if it has, the item before the position comes if and only if it is still queued and the subscriber not kicked; and the end, unless kicked or behind, means that the closed stream was delivered completely, except if and only if closing split this next() with everything in the queue unread |
| PublisherDelivery.EndIsExact | src/cocls/publisher.h:221-270 | in every run such a subscriber, not kicked and not behind, is told of the end with items unread if and only if some await_resume follows an await_suspend that found the queue closed, with exactly the items in the queue still to be read and at least one |
| PublisherDelivery.WokenExactlyOnce | src/cocls/publisher.h:202-300 | in every run, each time the subscriber was suspended with an awaiter, that awaiter is still in its slot or was returned by exactly one push, close or kick, and each time it was returned the subscriber was resumed once or can be resumed now; no other slot holds it |
| PublisherDelivery.NextInOrder | src/cocls/publisher.h:202-252 | next() takes its three steps in order, and only the last one delivers, the value fetched or the end |
| PublisherDelivery.FetchExact | src/cocls/publisher.h:232-241 | the same for one fetch in any state that keeps the invariants |
| PublisherDelivery.FetchedIsNext | src/cocls/publisher.h:232-241 | also for a subscriber that has fallen behind, a fetched value is the item after the last one delivered |
| PublisherDelivery.SplitFetch | src/cocls/publisher.h:221-241 | after a next() that closing has split, the item before the position is fetched if and only if the subscriber is not kicked and that item exists and is still queued |
| PublisherDelivery.StepKeepsGood | src/cocls/publisher.h:202-274 | every step of the subscriber and of everybody else keeps the account of what was delivered and where the subscriber stands |
| PublisherDelivery.CloseCanRedeliver | src/cocls/publisher.h:221-241 | a concrete run in which closing makes a subscriber receive one item twice |
| PublisherDelivery.CloseCanLose | src/cocls/publisher.h:221-241 | a concrete run in which closing makes a subscriber get the end of the stream instead of the only item |
| PublisherSkipping.NeverBackwards | src/cocls/publisher.h:202-252 | in every run a subscriber of any type that started at an existing position is given only items that were published, and never an older one than before |
| PublisherSkipping.SkippingIsExact | src/cocls/publisher.h:202-252 | in every run of a subscriber that skips, each fetch that closing has not split gives a value if and only if the subscriber was not kicked and something lies beyond the position where this next() began, and then the item after that position, or the oldest one queued if that is younger, or for skip_to_recent the newest |
| PublisherSkipping.FetchSkips | src/cocls/publisher.h:202-252 | the same for one fetch in any state that keeps the invariants |
| PublisherSkipping.EmptyReadExact | src/cocls/publisher.h:232-252 | in every run such a subscriber's fetch indexes an empty queue if and only if it skips items, was not kicked, and nothing had been published when the queue was closed between its failed await_ready and its await_suspend |
| PublisherSkipping.CloseCanReadEmpty | src/cocls/publisher.h:221-252 | a concrete run that gets there, for both types that skip |
| PublisherSkipping.FetchedIndex | src/cocls/publisher.h:232-252 | which item a fetch gives: the one at the position, or the oldest in the queue if that is younger, or the newest |
| PublisherSkipping.StepKeepsGood | src/cocls/publisher.h:202-274 | every step keeps the position within the stream and every item that can still come at least as young as the last one |
| PublisherTheorems.WindowStep | src/cocls/publisher.h:109-135 | every operation keeps the queue the reversed newest part of everything published, no longer than the maximum length |
| PublisherTheorems.WindowAndFreeList | src/cocls/publisher.h:109-200 | in every run from an empty publisher both the window and the free list are exact |
| PublisherTheorems.SubscribeTakesFreeSlot | src/cocls/publisher.h:166-191 | subscribe hands out a slot that nobody uses, disturbs no used slot and takes it off the free list, also when the vector grows |
| PublisherTheorems.SubscribeStartsAt | src/cocls/publisher.h:166-191 | a new subscriber starts where it asks to, in front of the next item to be published, or where the subscriber it copies stands |
| PublisherTheorems.LeaveFreesSlot | src/cocls/publisher.h:194-200 | leave puts exactly its slot at the front of the free list |
| PublisherTheorems.FreeListStep | src/cocls/publisher.h:166-200 | the chain of free slots stays acyclic, visits exactly the unused slots once and ends at the vector's size, through every operation |
| PublisherTheorems.WokenAreRegistered | src/cocls/publisher.h:258-266 | the awaiters collected are exactly those registered in used slots, one for each such slot, in slot order |
| PublisherTheorems.PushWakes | src/cocls/publisher.h:109-128 | publishing something returns exactly the registered awaiters and leaves nobody registered; publishing nothing changes nothing |
| PublisherTheorems.CloseWakes | src/cocls/publisher.h:130-135 | so does closing an open publisher; closing it again changes nothing |
| PublisherTheorems.KickExact | src/cocls/publisher.h:276-291 | kick marks the first slot in use of the subscriber, takes its awaiter out and returns it, and touches nothing else |
| PublisherTheorems.TrimExact | src/cocls/publisher.h:254-274 | after a push or a close the queue is a prefix of exactly the length that the slowest subscriber in use needs, or the minimum if that is more, within the maximum and what there is |
| Publishers.PublisherQueue.constructor | src/cocls/publisher.h:66-71 | an empty stream at position 1 without registrations |
| Publishers.PublisherQueue.Push | src/cocls/publisher.h:109-128 | front-inserting a batch item by item puts its reverse in front, and exactly the registered awaiters are returned; an empty batch changes nothing and returns nobody |
| Publishers.PublisherQueue.PushLocked | src/cocls/publisher.h:254-274 | collects and clears exactly the registered awaiters, in slot order, returns them, and trims to what the slowest subscriber needs |
| Publishers.PublisherQueue.CollectAwaiters | src/cocls/publisher.h:258-266 | the loop over the registrations in place computes exactly the awaiters, the cleared slots and the length needed |
| Publishers.PublisherQueue.Close | src/cocls/publisher.h:130-135 | closes once and returns exactly the registered awaiters; again it changes nothing and returns nobody |
| Publishers.PublisherQueue.Kick | src/cocls/publisher.h:276-291 | the first slot in use of the subscriber is marked and its awaiter taken out and returned |
| SchedulerTheorems.NoMissedDeadline | src/cocls/scheduler.h:89-140 | in every run of schedule, remove and polling workers, no worker that sleeps un-notified waits beyond the time of any live entry, although schedule notifies only when it beats the first one; and each promise leaves the scheduler exactly once |
| SchedulerTheorems.SleepsExactly | src/cocls/scheduler.h:89-97 | a worker may sleep only after a poll that found nothing due, exactly until the time of the first live entry; a new first entry wakes everybody, and nothing else does but a wake-up of its own |
| SchedulerTheorems.DrainIsExact | src/cocls/scheduler.h:417-427 | repeated get_expired at a fixed time returns exactly the live entries that are due, each once, in non-decreasing time |
| SchedulerTheorems.StepKeepsGood | src/cocls/scheduler.h:89-140 | every operation keeps heap order, sleeping workers in time and the account of promises |
| SchedulerTheorems.DeadTwinHides | src/cocls/scheduler.h:127-140 | a concrete run that reaches a heap in which a dead entry hides a live one, so that remove returns nothing |
| SchedulerTheorems.RemoveCanRunPastEnd | src/cocls/scheduler.h:130-134 | a concrete run that reaches a non-empty vector of dead entries with one identifier, on which remove reads past the end |
| Schedulers.Scheduler.Schedule | src/cocls/scheduler.h:89-97 | adds one entry, keeps the heap, and notifies exactly when the new entry precedes the first |
| Schedulers.Scheduler.PopItem | src/cocls/scheduler.h:367-370 | exactly the first entry leaves and the rest is a heap |
| Schedulers.Scheduler.GetExpired | src/cocls/scheduler.h:417-427 | a due live entry of least time leaves, or nothing is due and the answer is the exact time of the earliest live entry |
| Schedulers.Scheduler.Remove | src/cocls/scheduler.h:127-140 | it reads past the end if and only if the vector is not empty and holds only dead entries with the identifier; otherwise one live entry with it leaves, or none, and it misses a live entry if and only if in the vector that is searched the first match is dead and a live one comes later; that is the vector before the call only if its first entry has another identifier, and otherwise what is left of it after the dead entries with the identifier have been popped off the top |
| Schedulers.SearchMisses | src/cocls/scheduler.h:135-139 | the search misses a live entry exactly in that case |
| Schedulers.Scheduler.RemoveFromTop | src/cocls/scheduler.h:130-134 | popping matching entries off the top drops only dead ones, returns a live one, or runs past the end exactly if nothing else is there |
| Schedulers.Scheduler.Extract | src/cocls/scheduler.h:139 | taking the promise out of an entry in place keeps the heap and removes one live entry |
| TimerHeap.PushHeap | src/cocls/scheduler.h:92-93 | sifting up makes a heap of the same entries |
| TimerHeap.PopHeap | src/cocls/scheduler.h:367-370 | the first entry leaves, the rest is a heap of the same entries |
| TimerHeap.TopIsLeastOfAll | src/cocls/scheduler.h:363-365 | in a heap the first entry is earliest |
| SuspendPoints.SuspendPoint.constructor | src/cocls/suspend_point.h:45 | empty, with nothing allocated |
| SuspendPoints.SuspendPoint.FromHandle | src/cocls/suspend_point.h:50-52 | holds exactly the handle |
| SuspendPoints.SuspendPoint.Move | src/cocls/suspend_point.h:55-62 | the sequence and the ownership of the array move; the source is left empty |
| SuspendPoints.SuspendPoint.Add | src/cocls/suspend_point.h:226-270 | appends one handle in every storage mode; nothing leaks, the old array is freed once |
| SuspendPoints.SuspendPoint.Reallocate | src/cocls/suspend_point.h:235-243 | doubling keeps the contents and swaps the owned array |
| SuspendPoints.SuspendPoint.Spill | src/cocls/suspend_point.h:256-267 | moving from the inline words to the heap keeps the contents although the words overlap |
| SuspendPoints.SuspendPoint.Pop | src/cocls/suspend_point.h:118-127 | removes the last handle, if any |
| SuspendPoints.SuspendPoint.Merge | src/cocls/suspend_point.h:65-79 | appends another object's sequence, empties it and frees its array exactly once |
| SuspendPoints.SuspendPoint.MergeSelf | src/cocls/suspend_point.h:65-79 | merging an object into itself empties it, and leaks an array exactly if twice its inline handles do not fit inline |
| SuspendPoints.SuspendPoint.ClearInternal | src/cocls/suspend_point.h:218-223 | empties the object and frees its array |
| SuspendPoints.SuspendPoint.SuspendNow | src/cocls/suspend_point.h:130-145 | under an active queue all handles are queued in order; otherwise a queue is installed with all of them to be resumed directly, in order |
| SuspendPoints.SuspendPoint.Destroy | src/cocls/suspend_point.h:97-99 | what is left is resumed in the same way and nothing stays allocated, also for an emptied object that still owns an array |
| SuspendPoints.SuspendPoint.AwaitSuspend | src/cocls/suspend_point.h:167-191 | the last handle is transferred to, or resumed under a queue installed for it, the others are queued in order and the awaiting coroutine behind them, unless it is among them |
| CoroQueue.HandlesAreConserved | src/cocls/coro_queue.h:103-187 | in every run each coroutine is in exactly one place (running, queued, in one suspend point, parked or finished), was resumed once for each time it became ready, and the queue is given up only when it is empty |
| CoroQueue.QueueIsFifo | src/cocls/coro_queue.h:63-70 | in every run of any events, the coroutines taken from the queue, in that order, followed by those that still stand in it are those that stood in it followed by those that joined; so a coroutine at place k goes on after exactly the k before it have been taken |
| CoroQueue.QueueStep | src/cocls/coro_queue.h:130-187 | one event: whoever joins joins at the end, in order, and the queue loses its head only, exactly when that head goes on: at a pause, and when control returns and the installing code holds nobody itself |
| CoroQueue.JumpsTheQueue | src/cocls/suspend_point.h:130-191 | who goes on besides: the last handle of an awaited suspend point, or of what a finished coroutine resolved, at once; and the handles that the installing code holds, in order, before anybody queued |
| CoroQueue.PointsStep | src/cocls/suspend_point.h:65-79 | which suspend points an event changes, and how: handles are appended in order, merged behind those already there, and taken all together |
| CoroQueue.StepKeepsGood | src/cocls/suspend_point.h:118-191 | making ready, merging, discarding, awaiting, pausing, parking and finishing keep that account |
| CoroQueue.RunQueue.SwapCoroutine | src/cocls/coro_queue.h:148-157 | under a queue the coroutine goes last and exactly the first one is taken to run, which is the machine's pause; without one it goes on and nothing changes |
| CoroQueue.RunQueue.Resume | src/cocls/coro_queue.h:130-138 | under a queue the handle waits last; otherwise a queue is installed for it |
| CoroQueue.RunQueue.ResumeHandleNext | src/cocls/coro_queue.h:179-187 | exactly the first queued coroutine is taken, as in the machine; nothing if there is none or no queue |
| RoundRobin.FirstInFirstOut | src/cocls/coro_queue.h:63-70 | with pausing, detaching and finishing coroutines, whoever is queued behind k others is resumed after exactly those k |
| RoundRobin.EverybodysTurns | src/cocls/coro_queue.h:63-70 | each coroutine is resumed exactly as often as its own script and the scripts that detach it ask for |
| RoundRobin.TurnByActions | src/cocls/coro_queue.h:130-157 | detaching puts the new coroutine behind everybody, pausing puts the running one there, and finishing nobody |
| RoundRobin.TurnWork | src/cocls/coro_queue.h:63-70 | each resumption does one unit of the remaining work, so flushing terminates |
| RoundRobin.TraceLength | src/cocls/coro_queue.h:63-70 | the number of resumptions is exactly what the scripts ask for |
| RoundRobin.Thread.FlushQueue | src/cocls/coro_queue.h:63-70 | the loop empties the queue and resumes in the order that the lemmas are about |
| RoundRobin.Thread.Resume | src/cocls/coro_queue.h:130-138 | one resumption queues what it detaches, and then itself if it pauses |
| AwaitableQueue.QueueIsFifo | src/cocls/queue.h:148-230 | over every sequence of push, pop and unblock, with items whose construction may throw: every call of pop has left or waits, in the order of the calls, so none is lost or served twice; every item was handed over or waits, in the order of the pushes; each pop that gets an item takes the first one not handed over before; and items and waiting pops are never both present |
| AwaitableQueue.OneFate | src/cocls/queue.h:148-230 | with promises that differ, every pop ends at most once: one that was unblocked or abandoned never gets an item, and nobody who has left still waits |
| AwaitableQueue.InterruptedExactly | src/cocls/queue.h:148-230 | a pop ends without an item exactly by an unblock or a throwing push that finds it waiting first: with the exception by the one, with nothing by the other |
| AwaitableQueue.AbandonedExactly | src/cocls/queue.h:148-160 | some pop is abandoned if and only if a push throws while one waits |
| AwaitableQueue.StepKeepsMatched | src/cocls/queue.h:148-230 | each operation keeps that matching |
| AwaitableQueue.AwaitQueue.PushItem | src/cocls/queue.h:148-160 | the first waiting pop leaves the queue with the item, or without it if constructing it throws, and no item moves; if nobody waits, the item is stored last, or nothing changes |
| AwaitableQueue.AwaitQueue.PopItem | src/cocls/queue.h:197-212 | the first item leaves and is delivered, or the pop waits last |
| AwaitableQueue.AwaitQueue.Unblock | src/cocls/queue.h:223-230 | exactly the first waiting pop leaves, with the exception, and items and deliveries stay; nothing changes if nobody waits |
| Aggregator.LosslessMerge | src/cocls/generator_aggregator.h:87-136 | for every order of completion the output restricted to generator i is a prefix of i's values in order, and all of them when the main loop ends, also when others threw; the exception kept is the last one thrown |
| Aggregator.MergeEnds | src/cocls/generator_aggregator.h:87-136 | if no generator had ended before, every run, whatever the order of completion, has a bounded number of steps, and it cannot go on if and only if the main loop has been left, with every value of every generator passed on |
| Aggregator.CallbacksInOrder | src/cocls/generator_aggregator.h:16-133 | in every run the callbacks dealt with, in that order, followed by those still queued are the callbacks in the order they came |
| Aggregator.YieldStep | src/cocls/generator_aggregator.h:113-133 | only dealing with a callback yields: the next value of the generator whose callback has waited longest, or nothing if that generator has ended |
| Aggregator.EndedGeneratorFails | src/cocls/generator_aggregator.h:53-112 | in every run, if some generator had ended before, nothing is yielded from anybody and the loop never finishes; charging fails at the first such generator, and unless it is the last one the destructor of the controller never gets to its end; if none had, charging does not fail |
| Aggregator.LastOneCanEnd | src/cocls/generator_aggregator.h:57-66 | if the generator that had ended is the last one, completing and collecting the others always brings the destructor to its end |
| Aggregator.SyncIsRoundRobin | src/cocls/generator_aggregator.h:113-133 | requeueing turn by turn gives exactly the round-robin interleaving |
| Aggregator.SyncRound | src/cocls/generator_aggregator.h:113-133 | the turns of the generators in the queue make up one round |
| Aggregator.AggregateSync | src/cocls/generator_aggregator.h:53-136 | for synchronous generators it merges if and only if none had ended before, and blocks if and only if one but the last had; the merged output is the round-robin interleaving, and the exception rethrown is that of the throwing generator that ends last |
| Aggregator.MergeSync | src/cocls/generator_aggregator.h:113-134 | the main loop: the same for the output and the exception |
| Aggregator.WaitForAll | src/cocls/generator_aggregator.h:57-66 | the destructor's loop ends if and only if at most one generator has not called back |
| Aggregator.ChargeAll | src/cocls/generator_aggregator.h:101-105 | the generators are queued once each, in order, up to the first that had ended |
| ThreadPool.ResumedExactlyOnce | src/cocls/thread_pool.h:52-149 | through any mix of awaiting, working and stopping, a coroutine is resumed at most once, with a cancellation exactly when no worker ran its item, and exactly once when a stopped pool is idle |
| ThreadPool.EverybodyIsResumed | src/cocls/thread_pool.h:52-149 | after any run, workers and stop calls that go on with what was begun take a number of steps known beforehand, in whatever order; then nothing more can happen, and every coroutine that has awaited the pool has been resumed exactly once |
| ThreadPool.QueueIsFifo | src/cocls/thread_pool.h:52-81 | in every run the items that workers take and stops swap out, in the order they leave, followed by those still queued are those that a running pool accepted, in order |
| ThreadPool.StopIsFinal | src/cocls/thread_pool.h:52-81 | after a stop, in every continuation, the pool stays stopped, accepts nothing, and no worker takes an item |
| ThreadPool.RunsWhatItTook | src/cocls/thread_pool.h:126-144 | a worker resumes the coroutine of the item that it took, and does not cancel it |
| ThreadPool.StepKeepsGood | src/cocls/thread_pool.h:52-149 | every step of awaiting coroutines, workers and stop calls keeps that account |
| ThreadPool.Pool.EnqueueItem | src/cocls/thread_pool.h:353-359 | a running pool stores the item last, a stopped one refuses it and stays as it is |
| ThreadPool.Pool.TakeItem | src/cocls/thread_pool.h:52-59 | exactly the first item leaves, as long as the pool runs; a stopped pool gives nothing |
| ThreadPool.Pool.StopPool | src/cocls/thread_pool.h:72-81 | the pool is stopped and all its items are swapped out in order |

## Left out

- Mutexes.Mutex.Subscribe: the class runs without interference, so reading the link again after the push cannot differ; the interleavings are in MutexProtocol, with the value that the exchange saw.
- Awaiters.Awaiter.Subscribe: one successful exchange; the failed ones of the loop are steps of MutexProtocol and FutureProtocol. The same holds for Awaiters.Awaiter.SubscribeCheckReady.
- PublisherDelivery.Retention: a subscriber that starts at another position is covered by GapFreeDelivery only.
- PublisherSkipping.NeverBackwards: a subscriber that starts at a position not yet published.
- PublisherTheorems.WindowStep: copying items never throws; in the code a throw in the middle of a batch (src/cocls/publisher.h:120-127) leaves items in the queue with the position unmoved, and the window no longer fits the history.
- AwaitableQueue.AwaitQueue.PopItem: moving an item out of the queue never throws.
- SchedulerTheorems.NoMissedDeadline: a remove that reads past the end is no step of the runs.
- Schedulers.Scheduler.GetExpired: the largest time point, which the code returns for an empty scheduler, is a separate value.
- SuspendPoints.SuspendPoint.SuspendNow: without an active queue, up to the installation of one; the resumptions under it and its flushing are steps of CoroQueue.
- SuspendPoints.SuspendPoint.Destroy: without an active queue, up to the installation of one; the resumptions under it and its flushing are steps of CoroQueue.
- SuspendPoints.SuspendPoint.AwaitSuspend: without an active queue, up to the installation of one; the resumptions under it and its flushing are steps of CoroQueue.
- CoroQueue.RunQueue.Resume: without an active queue, up to the installation of one; the resumptions under it and its flushing are steps of CoroQueue.
- Futures.Promise.SetValue: move construction, move assignment and destruction of promises are in FutureProtocol, not in the class.
- LateRead.LateReadExact: a run is followed up to the first read that misleads, not through what a second owner then does to the lists.
- Aggregator.LosslessMerge: generators with an argument, and destroying the aggregator at a yield.
- ThreadPool.ResumedExactlyOnce: joining and detaching threads, and thread_pool::resume of plain handles, whose dropped items nobody resumes.
- CoroQueue.HandlesAreConserved: a coroutine that awaits a suspend point holding its own handle, and nested queues beyond their being empty on return.
- limited_queue, and the queue of void items.
- The synchronous path of a subscriber's next() and the iterator over it.
- Widths of counters: stream positions, sizes and the count word of a suspend point do not overflow; a difference of positions that would be negative wraps around as std::size_t does.
- Memory orderings weaker than sequential consistency, clocks, operating-system threads, and the notification that a stop request sends to the scheduler's worker.
- The number of threads, the addresses of frames, the times passed to the scheduler and the values of generators are parameters.
- Frame allocation, type erasure in function.h, generics.h, shared_future, signal, callback wrappers, future_conv and self.h.
