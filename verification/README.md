# Tara's runtime core, verified

Tara runs cooperative fibers on one thread. Fibers sleep in a timer heap, wait for descriptors behind a cache in
front of epoll, and hand blocking work to four worker threads. This project models the five parts that make this work
and proves what each promises, for every input, every run and every interleaving.

| files | part of the program |
|---|---|
| `HeapShape.dfy`, `HeapPath.dfy`, `Heap.dfy` | the pointer-linked binary heap of `Source/libuv/heap-inl.h` |
| `Timer.dfy` | `Source/Timer.cxx` on top of that heap |
| `Queue.dfy` | the intrusive rings of `Source/libuv/queue.h` |
| `PollSpec.dfy`, `PollPlaces.dfy`, `IOPoll.dfy`, `PowerOfTwo.dfy` | the interest cache of `Source/IOPoll.cxx` |
| `SchedulerSpec.dfy`, `FiberModes.dfy`, `FiberRuns.dfy`, `FiberLaws.dfy`, `AwaiterOrder.dfy`, `RepairedRuns.dfy`, `FiberTimers.dfy`, `Scheduler.dfy` | `Source/Scheduler.cxx` |
| `AsyncSpec.dfy`, `AsyncPlaces.dfy`, `AsyncProtocol.dfy`, `AsyncRuns.dfy`, `AsyncTasks.dfy`, `AsyncLiveness.dfy` | the worker-pool protocol of `Source/Async.cxx` |
| `MemoryPool.dfy` | the block allocator of `Source/MemoryPool.cxx` |
| `Sequences.dfy` | facts about sequences without repetition, used everywhere |

`dafny verify dfyconfig.toml` checks everything.

## How the parts are modelled

**Heap and timer.** Nodes are objects whose left, right and parent pointers are rewritten in place, and a
`heap_node **` is a slot: the root pointer, or one child pointer of a node. A ghost level order says which complete
tree the pointers must form. A swap of a parent and a child is shown to leave every other node where it is, so the
element set and every due time survive all relinking. Clock readings are parameters; the timer asks only that they
do not run backwards and that adding an `int` to one does not overflow.

**Rings.** A ring is a cycle of objects linked both ways; each macro is a method with the macro's own assignments.

**Interest cache.** The kernel is a map from descriptor to registered events that accepts ADD, MOD and DEL only when
legal, and a wait may report any distinct registered descriptors with any of the events asked for, or with an error or
hang-up. What the objects do is proved equal to functions on a value, `Poll`, and the properties are proved there.

**Scheduler.** The class `Scheduler` runs on the timer and cache objects. Each method is proved to compute one step of
the state machine in `SchedulerSpec`. A second picture gives every fiber one mode (running, ready with the cause,
awaiting one descriptor and event, sleeping, suspended, dead), and every step keeps the queues, records, timers,
awaiter queues and fiber count in agreement with it. Runs are arbitrary sequences of legal calls, kernel answers and
clock readings. A switch of stacks is the choice of the fiber that runs next.

**Worker pool.** Every lock, unlock, wait, signal, queue operation, eventfd operation and single task is one atomic
step of the scheduler's thread or of one of the four workers, in any order. `cond_wait` may return unasked. Left to
themselves the threads return every job within a bounded number of steps.

**Memory pool.** Addresses are integers, the free list is threaded through a map of memory words, and `malloc` gives
the address of a new chunk as a parameter.

## What was found

**Stale descriptors.** `awaitIOEvent` stores the descriptor in the fiber (Source/Scheduler.cxx:255) and only the
timeout path resets it (Source/Scheduler.cxx:140). After an ordinary wake-up, an unwatch, or the death and reuse of
the fiber, the field still names a descriptor. If such a fiber then sleeps, the test at Source/Scheduler.cxx:138 takes
it for an I/O waiter when the sleep ends, and `removeEventAwaiter` unlinks a queue item that is in no awaiter ring (or
asserts, if the watcher is gone). The model keeps the code as written. `FiberRuns.FaultsIff` proves when a run goes
wrong: exactly when a sleeping fiber with a stale descriptor is among the items that fall due.
`FiberRuns.StaleSleeperFaults` is a run of one fiber that gets there by reading a descriptor and then sleeping,
`FiberRuns.ReusedFiberFaults` one in which the fiber has died and been used again in between, and
`FiberRuns.DisciplinedRunsNeverFault` shows that runs in which no fiber sleeps with a descriptor in its record are
safe. `RepairedRuns` changes one thing, the reset of `fd` also where a wait or an unwatch wakes fibers, and proves that
then no run goes wrong and `fd >= 0` holds exactly of the fibers on an awaiter queue of that descriptor.

**A branch without effect.** In `heap_remove`, Source/libuv/heap-inl.h:189-191 clears `heap->min` when the removed node
is the root. By then `*max = NULL` has cleared it already, so the test is never true; `PointerHeap.Heap.Remove` returns
without it.

## Model

| member | source | states |
|---|---|---|
| `HeapPath.PathTo` | Source/libuv/heap-inl.h:122-124 | the bit-reversed path fits in 32 bits for every number below 2^32, and consuming it low bit first from the root leads to exactly that level-order number |
| `HeapPath.ReversedLeadsTo` | Source/libuv/heap-inl.h:163-168 | following the reversed low bits of n from its remaining high bits gives n back |
| `HeapPath.DepthIsLogarithmic` | Source/libuv/heap-inl.h:143-147 | a position i has depth floor(log2(i + 1)), the bound for both re-ordering loops |
| `HeapShape.TransposedShape` | Source/libuv/heap-inl.h:71-104 | exchanging a parent and its child in every link turns the complete tree of one level order into that of the order with the two swapped |
| `HeapShape.TransposedFamily` | Source/libuv/heap-inl.h:78-103 | rewriting the records of parent, child, sibling, grandchildren and grandparent amounts to exchanging the two in all of memory |
| `HeapShape.AppendShape` | Source/libuv/heap-inl.h:138-141 | hanging a node into the next free slot makes the complete tree of the order with the node appended |
| `HeapShape.DropLastShape` | Source/libuv/heap-inl.h:183-185 | clearing the last slot makes the complete tree of the order without its last node |
| `HeapShape.RenamedShape` | Source/libuv/heap-inl.h:195-214 | putting another node in the place of a member keeps the tree complete, with only that entry of the level order changed |
| `HeapShape.SiftUpStep` | Source/libuv/heap-inl.h:143-147 | swapping a node with its later parent moves the only possible violation one level up |
| `HeapShape.SiftDownStep` | Source/libuv/heap-inl.h:216-229 | swapping a node with its smallest child moves the only possible violations one level down |
| `HeapShape.RootIsEarliest` | Source/libuv/heap-inl.h:67-69 | in an ordered tree no node is due before the root |
| `PointerHeap.Heap.Min` | Source/libuv/heap-inl.h:67-69 | null exactly for an empty heap, otherwise a member that no member is due before |
| `PointerHeap.Heap.NodeSwap` | Source/libuv/heap-inl.h:72-104 | the level order changes by exactly that one transposition and all links stay consistent |
| `PointerHeap.Heap.Walk` | Source/libuv/heap-inl.h:126-136 | the walk follows only non-null links and ends at the slot with the asked level-order number and the slot of its parent |
| `PointerHeap.Heap.SiftUp` | Source/libuv/heap-inl.h:143-147 | order is restored with no more swaps than the node is deep, and none if the node is not due before its parent |
| `PointerHeap.Heap.SiftDown` | Source/libuv/heap-inl.h:216-229 | order is restored below the node, in at most as many swaps as levels it sinks, and after a swap the node is not due before its parent |
| `PointerHeap.Heap.Insert` | Source/libuv/heap-inl.h:106-148 | a well-formed heap with exactly the new node added, due times untouched, within floor(log2 nelts) swaps |
| `PointerHeap.Heap.Restore` | Source/libuv/heap-inl.h:216-236 | of the downward and the upward loop at most one swaps, each within floor(log2 nelts) swaps |
| `PointerHeap.Heap.Remove` | Source/libuv/heap-inl.h:150-237 | removing any member, be it root, last, the last one's parent or in another subtree, leaves a well-formed heap of exactly the other nodes; at most one loop swaps, logarithmically often |
| `Timers.Timer.AddItem` | Source/Timer.cxx:28-33 | the item becomes pending at now plus the duration, or never for a negative one, and finite due times stay within INT_MAX of the clock |
| `Timers.Timer.RemoveItem` | Source/Timer.cxx:35-39 | exactly that item is no longer pending |
| `Timers.Timer.RemoveDueItems` | Source/Timer.cxx:41-70 | the buffer gets distinct due items in non-decreasing due time with nothing earlier left behind, and if it is not filled everything left is later than now |
| `Timers.Timer.CalculateTimeout` | Source/Timer.cxx:72-84 | -1 exactly when nothing finite is pending, otherwise the wait to the earliest due time clamped at 0; the narrowing to int loses nothing |
| `TimerSpec.BatchSize` | Source/Timer.cxx:41-70 | the number of items taken is the smaller of the buffer length and the number due |
| `TimerSpec.TimeoutIsExact` | Source/Timer.cxx:72-84 | some item is due at a later time exactly when the computed wait has passed by then: no wait is too long or too short |
| `TimerSpec.TimeoutIsUnique` | Source/Timer.cxx:72-84 | the specification of the timeout leaves no freedom |
| `Rings.Init` | Source/libuv/queue.h:40-45 | a single item becomes a ring of its own |
| `Rings.InsertHead` | Source/libuv/queue.h:67-74 | the new item becomes the first of the ring, all links mutually inverse |
| `Rings.InsertTail` | Source/libuv/queue.h:76-83 | the new item becomes the last of the ring |
| `Rings.Remove` | Source/libuv/queue.h:85-90 | the ring without the item; the item keeps its stale links, which agree exactly when the ring became empty and then name the header |
| `Rings.Add` | Source/libuv/queue.h:47-54 | the items of the second ring follow those of the first, in order, with the links of the first header consistent |
| `Rings.Split` | Source/libuv/queue.h:56-65 | the ring is cut in two before the given item if and only if that item is not the header, which rules out an empty ring |
| `Rings.Foreach` | Source/libuv/queue.h:31-32 | the walk visits each item once, in order |
| `Rings.ResetAll` | Source/IOPoll.cxx:139-164 | the flush loop may turn each item into a self-loop as it goes and still reaches every one |
| `Rings.RemoveAwaiter` | Source/IOPoll.cxx:98-107 | taking an awaiter out of one of a watcher's two rings and comparing its stale links tells whether that ring is empty, and which of the two it was |
| `PollSpec.AddAwaiterKeepsInv` | Source/IOPoll.cxx:80-96 | pending flags mirror the awaiter queues, changed watchers are listed as dirty, and the kernel map matches the cached flags |
| `PollSpec.RemoveAwaiterKeepsInv` | Source/IOPoll.cxx:98-112 | flags, dirty list and kernel map stay right when one awaiter leaves |
| `PollSpec.RemoveAwaitersKeepsInv` | Source/IOPoll.cxx:114-134 | they stay right when all leave; these come out readers first, each queue in order |
| `PollSpec.CreateKeepsInv` | Source/IOPoll.cxx:53-63 | they stay right when a watcher is created |
| `PollSpec.DestroyKeepsInv` | Source/IOPoll.cxx:65-78 | they stay right when a watcher goes: its DEL is legal and the kernel forgets it |
| `PollSpec.FlushAllIs` | Source/IOPoll.cxx:139-165 | every epoll_ctl of a flush over any list of watchers is legal, and each listed watcher ends with its flags up to date |
| `PollSpec.FlushSound` | Source/IOPoll.cxx:139-165 | after a flush the kernel holds exactly the descriptors with awaiters, each with exactly its awaiters' events |
| `PollSpec.AnswerIsReady` | Source/IOPoll.cxx:166-176 | every event the kernel may report after a flush finds a live watcher with an awaiter for it |
| `PollSpec.DispatchOneIs` | Source/IOPoll.cxx:174-190 | one event releases the first reader and the first writer as reported, or everyone on error or hang-up |
| `PollSpec.DispatchAllIs` | Source/IOPoll.cxx:174-191 | each reported watcher is served once, the others are untouched, and the output is the released awaiters event by event |
| `PollSpec.Conserved` | Source/IOPoll.cxx:174-191 | each awaiter queue is what was released from its front followed by what is left |
| `PollSpec.AddThenRemove` | Source/IOPoll.cxx:80-112 | an awaiter that leaves before the next flush leaves watcher and kernel as they were |
| `PollSpec.DirtyOnChange` | Source/IOPoll.cxx:80-112 | the dirty list grows, by that watcher at its end and once, exactly when the first awaiter of an event comes or the last one leaves |
| `PollSpec.WaitedIs` | Source/IOPoll.cxx:136-193 | after any outcome the kernel holds exactly the interest of the awaiters from before; an interrupted wait leaves no dirty watcher and releases nobody, and otherwise each reported watcher is served, no other, and the output is in the order of the events |
| `PollPlaces.WaitedPlaces` | Source/IOPoll.cxx:136-193 | a wait releases distinct awaiters, each covered by a reported event, and leaves every other where it was |
| `PollPlaces.DispatchAllPlaces` | Source/IOPoll.cxx:174-191 | the same for dispatch on any ready event list |
| `PollPlaces.AddPlaces` | Source/IOPoll.cxx:80-96 | adding puts the fiber on that queue and moves no other |
| `PollPlaces.RemovePlaces` | Source/IOPoll.cxx:98-112 | removing takes off that fiber only |
| `PollPlaces.RemoveAllPlaces` | Source/IOPoll.cxx:114-134 | removing all takes off exactly the fibers at that descriptor, each once |
| `IOPolling.IOPoll.CreateWatcher` | Source/IOPoll.cxx:53-63 | a fresh watcher object joins the cache, and objects and value stay in agreement |
| `IOPolling.IOPoll.DestroyWatcher` | Source/IOPoll.cxx:65-78 | the same, and the dirty list no longer points to the watcher and DEL is sent only when it is registered |
| `IOPolling.IOPoll.AddEventAwaiter` | Source/IOPoll.cxx:80-96 | the awaiter joins the tail of one queue, its flag is set and the watcher listed at most once |
| `IOPolling.IOPoll.RemoveEventAwaiter` | Source/IOPoll.cxx:98-112 | only that awaiter leaves, whichever queue it is in, and an emptied queue clears its flag |
| `IOPolling.IOPoll.RemoveEventAwaiters` | Source/IOPoll.cxx:114-134 | all awaiters leave for the end of the caller's queue, and the flags are cleared |
| `IOPolling.IOPoll.FlushDirty` | Source/IOPoll.cxx:139-165 | the loop with its ADD, MOD and DEL calls computes the flush, and each call meets the kernel's precondition |
| `IOPolling.IOPoll.WaitForEvents` | Source/IOPoll.cxx:136-193 | flush, wait and dispatch compute the wait on the value for every legal answer, appending to the caller's queue; false exactly when interrupted |
| `PowerOfTwo.NextPowerOfTwo` | Source/IOPoll.cxx:204-214 | on 32 bits, the least power of two not below the number; 0 exactly for 0 and for numbers above 2^31 |
| `FiberModes.YieldShows` | Source/Scheduler.cxx:168-184 | yielding keeps each fiber in exactly one mode, in agreement with rings, records, timers, awaiter queues and the count |
| `FiberModes.SleepShows` | Source/Scheduler.cxx:186-202 | so does sleeping, which alone makes a fiber a sleeper |
| `FiberModes.KillShows` | Source/Scheduler.cxx:210-222 | so does dying |
| `FiberModes.AwaitShows` | Source/Scheduler.cxx:241-264 | so does awaiting, and the fiber was on no queue of that descriptor before |
| `FiberModes.SuspendShows` | Source/Scheduler.cxx:266-281 | so does suspending |
| `FiberModes.ResumeShows` | Source/Scheduler.cxx:283-289 | so does resuming a suspended fiber |
| `FiberModes.CallShows` | Source/Scheduler.cxx:60-72 | calling a coroutine reuses the first dead fiber or makes a new one, and changes the mode of no other |
| `FiberModes.UnwatchPoll` | Source/IOPoll.cxx:65-134 | unwatching takes exactly the fibers that wait for the descriptor off its queues, each once |
| `FiberModes.UnwatchShows` | Source/Scheduler.cxx:224-239 | unwatching makes these fibers ready with EBADF, without timers, and keeps every other mode |
| `FiberModes.ReapShows` | Source/Scheduler.cxx:110-121 | exactly the dead fibers are destroyed and the count stays that of all fibers |
| `FiberModes.WaitPoll` | Source/IOPoll.cxx:136-193 | a wait lets go distinct waiting fibers, each covered by a reported event |
| `FiberModes.WaitShows` | Source/Scheduler.cxx:122-133 | released waiters become ready, each once |
| `FiberModes.CanWakeIff` | Source/Scheduler.cxx:138-141 | waking a due fiber is legal exactly when it is not a sleeper with a stale descriptor |
| `FiberModes.WakeAllIff` | Source/Scheduler.cxx:134-145 | a batch can be woken exactly when it holds no stale sleeper; it then leads the ready queue in its own order and no other fiber's record changes |
| `FiberModes.ExpireShows` | Source/Scheduler.cxx:134-145 | a batch of due items woken legally keeps the picture |
| `FiberRuns.StepShows` | Source/Scheduler.cxx:60-289 | every legal step of fibers and of the run loop keeps the picture |
| `FiberRuns.EveryStateShows` | Source/Scheduler.cxx:60-289 | in every run each fiber has exactly one mode, and rings, records, timer heap, awaiter queues and fiberCount_ agree with it |
| `FiberRuns.FaultsIff` | Source/Scheduler.cxx:134-145 | a run goes wrong exactly when a stale sleeper is in the batch that falls due |
| `FiberRuns.StepArrow` | Source/Scheduler.cxx:60-289 | which modes may follow which: a waiter only becomes ready, a ready fiber only runs |
| `FiberRuns.WokenForCause` | Source/Scheduler.cxx:122-145 | a waiter is made ready only by an event covering its queue, its own timer falling due, or its descriptor being unwatched, which spares none |
| `FiberRuns.ResultIsCause` | Source/Scheduler.cxx:241-252 | awaitIOEvent returns -1 with errno 62 exactly after a timeout, -1 with errno 9 exactly after an unwatch, and 0 exactly otherwise |
| `FiberRuns.CauseIsKept` | Source/Scheduler.cxx:88-147 | between wake-up and running the cause never changes, however long that takes |
| `FiberRuns.WakeOrder` | Source/Scheduler.cxx:122-145 | after one round the ready queue is the due fibers by due time, then those ready before, then the released ones in the order of the events, readers first; none appears twice |
| `FiberRuns.ReadyOrder` | Source/Scheduler.cxx:60-289 | the ready queue is first-in first-out: steps take its head or add at its tail, and only due fibers go ahead of it |
| `FiberLaws.ControlFlow` | Source/Scheduler.cxx:88-147 | where control goes after each step: a fiber runs whenever one is ready, yielding alone changes nothing, an interrupted wait is repeated, run ends exactly when the last fiber has died |
| `FiberLaws.NextTurn` | Source/Scheduler.cxx:157-200 | the head of the ready queue runs next; a fiber that yields goes behind the others, one that blocks does not |
| `FiberLaws.JoinsTail` | Source/Scheduler.cxx:60-72 | called, resumed and unwatched fibers join the ready queue at its tail, unwatched readers before writers in order of arrival |
| `FiberLaws.DeadOrder` | Source/Scheduler.cxx:60-72 | dead fibers are used again in the order in which they died, and nothing is created as long as there is one |
| `FiberLaws.WatchedLaw` | Source/Scheduler.cxx:224-239 | a descriptor is watched from watchIO to unwatchIO and no other step changes that |
| `FiberLaws.DescriptorLaw` | Source/Scheduler.cxx:120-145 | a record's descriptor changes only when its fiber awaits one or its timer falls due, so it outlives the wait, death and reuse |
| `AwaiterQueues.WaitQueue` | Source/IOPoll.cxx:174-191 | a wait takes awaiters off the front of each queue only |
| `AwaiterOrder.FirstComeFirstServed` | Source/Scheduler.cxx:122-145 | of two fibers waiting for the same event the later never overtakes: they keep their order through any step, and an event that releases the later has released the earlier |
| `AwaiterOrder.LatecomersQueueBehind` | Source/Scheduler.cxx:241-256 | a fiber that starts to wait comes after all that wait for the same event already |
| `AwaiterOrder.ReleasedIff` | Source/IOPoll.cxx:174-191 | a wait releases a waiter exactly if its event is reported and it is first in its queue, or its descriptor is reported broken |
| `FiberRuns.DueIsKept` | Source/Scheduler.cxx:186-202 | through any steps a fiber that goes on waiting stays due at now plus the duration it asked for, zero included, or at the largest time for a negative one |
| `FiberRuns.NeverWokenEarly` | Source/Scheduler.cxx:134-145 | a sleep or wait ended by its timer ended at or after now plus the duration asked for; one for a negative duration is never ended by it |
| `FiberRuns.DueAreWoken` | Source/Scheduler.cxx:134-145 | an expiry takes as many due fibers as there are, up to 1024; if that is all, it wakes exactly the due ones, waiters with a timeout and sleepers plainly |
| `FiberRuns.NeverLeftWaiting` | Source/Scheduler.cxx:134-145 | once now plus the duration asked for has come, such an expiry does end the sleep or wait |
| `FiberRuns.RunPhase` | Source/Scheduler.cxx:88-94 | run returns at once exactly when no fiber is in any mode |
| `FiberRuns.RunReturnsEmpty` | Source/Scheduler.cxx:110-121 | run returns exactly when no fiber is left in any mode |
| `FiberRuns.DisciplinedRunsNeverFault` | Source/Scheduler.cxx:134-145 | runs in which no fiber sleeps with a stale descriptor never wake illegally |
| `FiberRuns.StaleSleeperFaults` | Source/Scheduler.cxx:120-145 | a concrete run reaches an illegal wake-up: wait for a descriptor, then sleep |
| `FiberRuns.ReusedFiberFaults` | Source/Scheduler.cxx:60-72 | a concrete run in which a fiber that has waited for nothing since it died and was used again is woken illegally from its sleep |
| `RepairedRuns.RepairedKeepsCurrent` | Source/Scheduler.cxx:122-145 | if the wait and the unwatch also reset the descriptor of the fibers they wake, a record names a descriptor only while its fiber waits |
| `RepairedRuns.RepairedRunsNeverFault` | Source/Scheduler.cxx:134-145 | with that reset no run ever wakes illegally, whatever its fibers do |
| `RepairedRuns.DescriptorMeansWaiting` | Source/Scheduler.cxx:138-141 | and the test for a descriptor tells exactly the fibers on that descriptor's awaiter queues, as intended |
| `FiberTimers.MatchedBatch` | Source/Scheduler.cxx:135-138 | a batch of due timer items is a batch of due fibers in the same order |
| `FiberTimers.FiberTimers.AddItem` | Source/Scheduler.cxx:195 | the fiber's own item enters the heap, due at now plus the duration, or at the largest time for a negative one |
| `FiberTimers.FiberTimers.RemoveItem` | Source/Scheduler.cxx:126-129 | exactly that fiber's timer is gone |
| `FiberTimers.FiberTimers.RemoveDueItems` | Source/Scheduler.cxx:135-138 | the fibers around the removed items are a due batch of at most 1024 |
| `Scheduling.Scheduler.YieldCurrentFiber` | Source/Scheduler.cxx:168-184 | with another fiber ready, the running one goes to the tail with its context saved and the head runs; alone it just goes on; timer heap, cache and queues stay sound throughout |
| `Scheduling.Scheduler.SleepCurrentFiber` | Source/Scheduler.cxx:186-202 | the fiber's timer item enters the heap, due at now plus the duration, zero included, or at the largest time for a negative one, and the next fiber runs |
| `Scheduling.Scheduler.KillCurrentFiber` | Source/Scheduler.cxx:210-222 | the fiber joins the dead queue with context and status cleared and its descriptor kept, and the next one runs |
| `Scheduling.Scheduler.AwaitIOEvent` | Source/Scheduler.cxx:241-264 | the fiber is put at the tail of that awaiter queue and into the timer heap, due as for a sleep, its record names the descriptor, and the next one runs |
| `Scheduling.Scheduler.SuspendCurrentFiber` | Source/Scheduler.cxx:266-281 | the fiber stops without joining any queue, and the next one runs |
| `Scheduling.Scheduler.ResumeFiber` | Source/Scheduler.cxx:283-289 | a suspended fiber joins the tail of the ready queue, and nothing else changes |
| `Scheduling.Scheduler.CallCoroutine` | Source/Scheduler.cxx:60-72 | the first dead fiber with its old record, or a new one with a fresh timer item, joins the tail of the ready queue; the count covers it |
| `Scheduling.Scheduler.WatchIO` | Source/Scheduler.hxx:29 | a fresh watcher without interest appears, and no fiber is affected |
| `Scheduling.Scheduler.UnwatchIO` | Source/Scheduler.cxx:224-239 | the loop takes each waiter of the descriptor out of the timer heap and marks it with EBADF, once; all join the ready queue and the watcher is gone |
| `Scheduling.Scheduler.Start` | Source/Scheduler.cxx:88-93 | run returns at once exactly when there is no fiber, and enters its loop otherwise |
| `Scheduling.Scheduler.RunReadyFiber` | Source/Scheduler.cxx:95-107 | the head of the ready queue runs, or the loop goes on if there is none |
| `Scheduling.Scheduler.ReapDeadFibers` | Source/Scheduler.cxx:110-121 | the loop destroys exactly the dead fibers with their timer items, never counts below zero, and ends run when none are left |
| `Scheduling.Scheduler.WaitForEvents` | Source/Scheduler.cxx:122-133 | the timeout is exact, the loop takes each released fiber out of the timer heap, all join the ready queue in order, and an interrupted wait only flushes |
| `Scheduling.Scheduler.WakeDueFibers` | Source/Scheduler.cxx:134-145 | the backward loop puts the due batch at the head of the ready queue in its own order, timed-out waiters off their awaiter queues with ETIME, given that no stale sleeper is due |
| `AsyncPlaces.WorkerOwned` | Source/Async.cxx:80-103 | each mutex is held by exactly the thread whose place in the code says so |
| `AsyncPlaces.WorkerPlaced` | Source/Async.cxx:80-103 | a worker's step keeps every job in exactly one place |
| `AsyncPlaces.SubmitPlaced` | Source/Async.cxx:105-112 | the new job, with the caller and the number of tasks it was given, joins the tail of the pending queue, and no other moves |
| `AsyncPlaces.PollPlaced` | Source/Async.cxx:117-129 | splitting moves exactly the done jobs to the poller's batch, and draining returns its first |
| `AsyncProtocol.WorkerLogged` | Source/Async.cxx:93-96 | each job's tasks have run once each in index order, as far as its worker has come |
| `AsyncProtocol.PollCounted` | Source/Async.cxx:112-130 | jobCount_ stays the number of submitted jobs not yet returned |
| `AsyncProtocol.WorkerTallied` | Source/Async.cxx:97-101 | the eventfd counter stays the length of the done queue but for one write inside the mutex |
| `AsyncProtocol.PollTallied` | Source/Async.cxx:117-124 | read and split under the mutex keep the counter and the done queue in step |
| `AsyncProtocol.PollPolled` | Source/Async.cxx:114-132 | there is a poller while jobs are counted, it alone watches the eventfd, and it wakes only to a raised counter |
| `AsyncProtocol.WorkerAttended` | Source/Async.cxx:83-93 | while a worker is parked every pending job has a worker of its own on the way; parking keeps this |
| `AsyncProtocol.SubmitAttended` | Source/Async.cxx:105-112 | enqueueing and signalling in the lock region keep it |
| `AsyncRuns.StepInv` | Source/Async.cxx:50-135 | every possible step of any thread is safe and keeps mutual exclusion, places, logs, counts, poller and wake-ups together |
| `AsyncRuns.EveryStateInv` | Source/Async.cxx:50-135 | all of it holds in every state of every interleaving, of any length |
| `AsyncRuns.NothingUnsafe` | Source/Async.cxx:80-135 | none takes from an empty queue, blocks in the read, splits an empty ring, watches the eventfd twice, starts a second poller or resumes a fiber that is not suspended |
| `AsyncRuns.JobsAreConserved` | Source/Async.cxx:80-130 | every job is in exactly one place once, its tasks ran in order without repetition, and it is done, drained or returned only after all of its tasks; none returns twice |
| `AsyncTasks.JobsAreSubmissions` | Source/Async.cxx:105-111 | in every run the jobs, with their fibers and task counts, are the calls of awaitTasks one for one and in order |
| `AsyncTasks.SubmittedTasksRun` | Source/Async.cxx:93-111 | a call with n tasks becomes the next job, of that fiber and with n tasks; tasks 0 to n - 1 run in order, each once, and all before the job is done or its fiber resumed |
| `AsyncTasks.SignalWakesOne` | Source/Async.cxx:110 | a signal wakes exactly one parked worker if there is one and touches no other |
| `AsyncTasks.BroadcastWakesAll` | Source/Async.cxx:70 | the broadcast wakes every parked worker and touches no other |
| `AsyncTasks.TestDecides` | Source/Async.cxx:84-90 | a worker leaves once told to, even with jobs pending; otherwise it takes a job if there is one and parks if not |
| `AsyncTasks.FourWorkers` | Source/Async.hxx:38 | there are four workers in every state |
| `AsyncRuns.RunGrows` | Source/Async.cxx:80-130 | over any stretch of a run, tasks run stay run and returned fibers stay returned |
| `AsyncRuns.TakenInOrder` | Source/Async.cxx:80-110 | workers take jobs up in the order of submission: no later job is taken while an earlier one is pending |
| `AsyncRuns.ReturnedInOrder` | Source/Async.cxx:97-129 | fibers are made ready in the order in which their jobs were done |
| `AsyncRuns.CounterIsLength` | Source/Async.cxx:97-124 | whenever the done mutex is free the eventfd counter is the length of the done queue |
| `AsyncRuns.PollerServesJobs` | Source/Async.cxx:112-134 | at every switch a poller exists exactly while jobs are out, jobCount_ is their number, and the suspended fibers are exactly theirs |
| `AsyncRuns.NoLostWakeup` | Source/Async.cxx:83-111 | before shutdown, signalled pending jobs leave a worker unparked, and while any is parked as many are on the way as jobs are pending |
| `AsyncRuns.NeverStuck` | Source/Async.cxx:80-135 | as long as a job is out, some thread can go on without new calls or unasked wake-ups: no deadlock |
| `AsyncLiveness.InternalWorks` | Source/Async.cxx:80-135 | every step of a thread at work, on any side, strictly lessens the work left to do |
| `AsyncLiveness.InternalStepsEnd` | Source/Async.cxx:80-135 | without new calls or unasked wake-ups a run takes no more steps than that work, whatever threads the system lets run |
| `AsyncLiveness.AllReturned` | Source/Async.cxx:80-135 | and where it stops every job has run all its tasks, every fiber has been resumed and the poller is gone |
| `AsyncRuns.JoiningEnds` | Source/Async.cxx:65-78 | after the broadcast no worker is parked and every step brings the workers nearer to their exit |
| `AsyncRuns.JoiningNeverStuck` | Source/Async.cxx:65-78 | until all have exited some worker can move, so the joins return |
| `PoolSizes.PageAligned` | Source/MemoryPool.cxx:116-122 | the bit trick gives the least multiple of a power-of-two page that is not below the size |
| `PoolSizes.OrSetsLowBits` | Source/MemoryPool.cxx:119 | or with the page size minus one sets exactly the bits below the page |
| `PoolSizes.CarvedIs` | Source/MemoryPool.cxx:72-89 | blocks cut from the end down lie in the chunk, abut without overlap, and leave no room for another |
| `PoolSizes.CarvedCount` | Source/MemoryPool.cxx:72-89 | a chunk yields floor(chunkSize / blockSize) blocks |
| `PoolSizes.ChunkHoldsEnough` | Source/MemoryPool.cxx:36-44 | the page-aligned chunk holds at least chunkLength blocks |
| `MemoryPools.MemoryPool.constructor` | Source/MemoryPool.cxx:36-44 | an empty pool whose chunk size is a whole number of pages, holds the blocks asked for and is less than a page larger |
| `MemoryPools.MemoryPool.CarveChunk` | Source/MemoryPool.cxx:72-89 | the loop links exactly the chunk's blocks into a null-ended list |
| `MemoryPools.MemoryPool.ExpandChunkVector` | Source/MemoryPool.cxx:103-112 | the vector doubles and keeps its chunks |
| `MemoryPools.MemoryPool.AllocateBlock` | Source/MemoryPool.cxx:54-62 | a block that was not live, sharing no byte with a live one; the last freed one if any, else the last of a new chunk |
| `MemoryPools.MemoryPool.FreeBlock` | Source/MemoryPool.cxx:64-70 | the block heads the free list; live and free blocks stay all the blocks cut so far |
| `MemoryPools.MemoryPool.NoBlockLost` | Source/MemoryPool.cxx:54-89 | free and live blocks together number floor(chunkSize / blockSize) for every chunk: none is lost or held twice |
| `MemoryPools.MemoryPool.ClientWrites` | Source/MemoryPool.cxx:23-29 | whatever a client writes into its block, the list through the free blocks stays intact |

## Left out

- Stack switching (`Source/RunFiber.cxx`, setjmp and longjmp, region layout, Valgrind hooks): a switch is the choice of the next running fiber; the method that follows it is the next step.
- `Source/Runtime.cxx`, logging, error text and `Source/Main.cxx`: system-call wrappers and output without protocol of their own.
- Failure of system and pthread calls: the program aborts on it, so every call is taken to succeed; only an interrupted `epoll_wait` is modelled.
- Wall-clock time: the clock is a monotonic parameter. That any order of steps returns all jobs within a bounded number of them is proved, how long the system takes for one is not; a task counts as one step.
- Timers with equal due times: the heap is not stable, so no order among them is claimed.
- IOPolling.IOPoll.CreateWatcher: does not model the capacity of the `watchers_` vector (a map here), whose growth is `PowerOfTwo.NextPowerOfTwo`, nor the placement of watchers in the memory pool.
- IOPolling.IOPoll.RemoveEventAwaiter: takes awaiter and dirty queues as sequences; that the ring macros carry these sequence operations, including the comparison of stale links, is proved in `Rings`.
- Scheduling.Scheduler.SwitchFiber: keeps ready and dead queues as sequences for the same reason; one queue item shared by all rings becomes the fact that a fiber has one mode.
- PointerHeap.Heap.Remove: requires a member of the heap; removing an item that is not in it is left undefined, as in the source.
- Scheduling.Scheduler.ResumeFiber: requires a suspended fiber; the source asserts only that it is not the running one, and `AsyncRuns.NothingUnsafe` shows its one caller meets this.
- Scheduling.Scheduler.CallCoroutine: identifies fibers by numbers chosen by the caller in place of allocated addresses, and leaves out the coroutine itself; copy and move overloads are one.
- AsyncSpec.Step: models `doWork`, `awaitTasks` and the destructor as atomic steps on one value, since threads interleave in them; the scheduler's side is reduced to who is suspended and what the poller does.
- AsyncSpec.WorkerStep: counts tasks in unbounded integers, where the source compares an `int` with an `unsigned int`.
- AsyncSpec.PollStep: lets the eventfd counter grow without bound; it never exceeds the number of jobs.
- Fibers that unwatch or close the internal eventfd, and jobs still out when the destructor runs: outside the protocol (after shutdown only the exit of the workers is claimed).
- MemoryPools.MemoryPool.CarveChunk: compares addresses as integers, so an address one block below a chunk does not wrap around.
- MemoryPools.MemoryPool.constructor: does not model overflow of `chunkLength * blockSize` in `size_t`, nor that of the vector's doubled length in 32 bits.
- The pool's destructor, which frees every chunk once, and `heap_dequeue`, which nothing calls.
