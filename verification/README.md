# Furi core and FreeRTOS kernel objects, verified

A Dafny model of the parts of the firmware whose correctness rests on state invariants: the heap, the kernel
queue with its locking protocol, the intrusive list, the co-routine scheduler, the event loop with its timers,
event groups, and the CHIP-8 interpreter. `dafny verify dfyconfig.toml` checks it (Dafny 4.11).

Each component has two layers. A value layer (`HeapBlocks`, `QueueState`, `ListOrder`, `CoRoutineState`,
`TimerOrder`, `EventGroupState`, `EventLoopState`, `Chip8State`) says what an operation does to the state, and
lemmas about it state what is promised over all inputs and all runs. Where the source updates structures in
place, a class with the same fields and loops is proved to do exactly that (`MemmgrHeap`, `KernelQueue`,
`KernelList`, `Croutine`, `EventLoopTimer`, `EventGroups`, `EventLoop`, `Chip8`). Concurrency is a state machine
whose steps are the critical sections of the source, interleaved arbitrarily (`QueueProtocol`,
`EventLoopRuns`, `EventGroupBarrier`).

| file | modules | source |
|---|---|---|
| HeapBlocks.dfy, MemmgrHeap.dfy | heap as a tiling; block headers in memory | furi/core/memmgr_heap.c |
| KernelQueue.dfy, QueueProtocol.dfy | ring buffer as a deque; locked queue under interrupts | lib/FreeRTOS-Kernel/queue.c |
| KernelList.dfy | circular list with a moving index | lib/FreeRTOS-Kernel/list.c |
| Croutine.dfy, CroutineRuns.dfy | co-routine scheduler; waking and sharing over runs | lib/FreeRTOS-Kernel/croutine.c |
| EventLoopTimer.dfy | timers under tick wrap-around | furi/core/event_loop_timer.c |
| EventGroups.dfy | bit waiters, rendezvous | lib/FreeRTOS-Kernel/event_groups.c |
| EventLoop.dfy | subscriptions, level-triggered delivery | furi/core/event_loop.c, furi/core/message_queue.c |
| Chip8.dfy, Chip8Programs.dfy | interpreter core; instructions and short programs | applications_user/chip8/chip8.c |
| Sequences.dfy | sequences of distinct items, for the lists of the others | |

## What turned out not to hold

- Drawing a CHIP-8 sprite twice need not restore the display: the first draw overwrites VF, so the second may
  be elsewhere when VF is an operand, and may read other rows when the sprite reaches past the end of memory,
  where the registers lie (`Chip8State.RegistersAsSprite`). `Chip8State.DrawTwiceExactly` gives the exact
  condition on operands, registers and I.
- A CHIP-8 return undoes a call only when the call found room on the stack (`Chip8State.ReturnUndoesCall`): with a
  full stack, which runs from reset reach (`Chip8State.FullStackIsReachable`), the call jumps without leaving a
  way back.
- A stop that is taken together with the Event flag drops that flag. When the same event loop is run again it
  may sleep on a queue that is not empty (`EventLoopRuns.RestartMayStall`). This happens exactly when the waiting
  list is not empty as the stop is served (`EventLoopRuns.StopDropsExactly`); in runs without such stops
  delivery holds without exception (`EventLoopRuns.DeliveryWithCleanStops`).
- Of the event-loop flags the thread flag alone can be lost without a stop: when it is taken together with the
  Pending flag and neither Event nor Timer (`EventLoopRuns.FlagGoesExactly`, and the run of
  `EventLoopRuns.ThreadFlagIsLost`).
- A send that gives up reports a full queue, but the queue need not be full then: when its time is over on coming
  out of the lock, a slot may have become free in between (`QueueProtocol.SenderGivesUpWithRoom`). A receive looks
  once more and gives up only on an empty queue; `QueueProtocol.LeavesExactly` says when each leaves.
- A co-routine delayed by zero ticks is listed at a tick that has gone by. It wakes at the next tick
  (`CoRoutineRuns.ZeroDelayIsOneTick`), but just before the tick count overflows it sleeps for two whole turns
  (`CoRoutineRuns.ZeroDelaySleepsTwoTurns`). The delay macros exclude it, the function does not;
  `CoRoutineRuns.DelayOnTimeExactly` says that nothing else goes wrong.
- A periodic timer of interval 0, started so (`EventLoopTimer.StartedWithZero`) or restarted before its first
  start was carried out (`EventLoopTimer.RestartedTooSoon`), makes the service divide by zero.
  `TimerOrder.DividesByZeroExactly` gives the condition on the requests, `EventLoopTimer.RequestIsPositive` on each.

## Conventions

- Block headers, pointers and list links are decoded once: the canary exclusive-or is an involution
  (`MemmgrHeap.CanaryIsTransparent`) and links are compared in decoded form.
- Event bits are sets of bit positions; `EventWords` and `EventGroupState.SetBitsOnWords` relate them to 32-bit words
  and packed list item values.
- Heap memory is by words of eight bytes, the size of a block header; a word that a clearing reaches into is
  cleared whole.
- Integer widths are explicit where they matter: 32-bit ticks and start times, 8-bit lock counters, 8- and 16-bit
  CHIP-8 registers, size_t in the heap's overflow tests. True time and true wake times are ghost state.
- Timer structures and event-loop items are values in a map from their addresses; list and tree containers of
  M*LIB are sequences and maps.
- Where the original crashes (`furi_check`, `configASSERT`), the model returns a failure (`Malloc`, `Subscribe`,
  `Unsubscribe`), proves the crash unreachable, or has the check as a precondition of the caller. The division by
  zero of the timer service is one of its outcomes.

## Model

| member | source | states |
|---|---|---|
| HeapBlocks.ReachableInv | furi/core/memmgr_heap.c:311-529 | In every state a run of malloc and free reaches, the blocks tile the region up to the end marker without gap or overlap, no two neighbouring blocks are free, all sizes are aligned; and when nothing is live the heap is the single block it started as, in whatever order the blocks were freed |
| HeapBlocks.FreeListIsGaps | furi/core/memmgr_heap.c:613-669 | A stretch of the region is on the free list if and only if it is a maximal gap between live blocks |
| HeapBlocks.LiveDeterminesHeap | furi/core/memmgr_heap.c:613-669 | Two coalesced tilings of the region with the same live blocks are the same: the free list carries no history |
| HeapBlocks.HistoryIndependence | furi/core/memmgr_heap.c:311-529 | Two runs from the initial heap that end with the same live blocks end with the same heap |
| HeapBlocks.MallocThenFree | furi/core/memmgr_heap.c:387-436 | Freeing the block just handed out, split or not, restores the block list exactly |
| HeapBlocks.AllFreedIsInitial | furi/core/memmgr_heap.c:600-609 | A heap with no live block is the one free block that initialisation builds |
| HeapBlocks.MallocSucceedsIff | furi/core/memmgr_heap.c:367-384 | A first-fit block exists for a request if and only if its rounded size is non-zero and at most the largest free block |
| HeapBlocks.WantedSizeIsLeast | furi/core/memmgr_heap.c:324-350 | The rounded size is the least multiple of the alignment that holds the request and its header, and 0 exactly for an empty request or when that multiple exceeds a size_t |
| HeapBlocks.FirstFitIsLowest | furi/core/memmgr_heap.c:371-380 | The block chosen is free, large enough, and no lower-addressed free block is |
| HeapBlocks.MallocInv | furi/core/memmgr_heap.c:394-422 | Allocation keeps the invariant and the free bytes drop by the size of the block handed out |
| HeapBlocks.MallocTakesLittle | furi/core/memmgr_heap.c:394-412 | The block handed out is at least as large as wanted and at most 16 bytes larger; more than that left over stays free, directly behind it |
| HeapBlocks.AllocateAndRelease | furi/core/memmgr_heap.c:387-389 | Freeing the pointer an allocation returned, eight bytes behind the start of its block, restores the heap |
| HeapBlocks.MallocLive | furi/core/memmgr_heap.c:384-436 | Allocation adds exactly one live block, at the start of the block found, and disturbs no other |
| HeapBlocks.FreeInv | furi/core/memmgr_heap.c:492-521 | Freeing keeps the invariant, adds the size of the block to the free bytes and removes exactly that block from the live ones |
| HeapBlocks.LargestFreeIsMax | furi/core/memmgr_heap.c:687-694 | The largest-block statistic is an upper bound of the free sizes and is attained, or 0 |
| HeapBlocks.SmallestFreeIsMin | furi/core/memmgr_heap.c:687-698 | The smallest-block statistic is a lower bound and is attained; SIZE_MAX exactly when the free list is empty |
| HeapBlocks.LargestAtMostTotal | furi/core/memmgr_heap.c:368 | The early test against the free bytes refuses nothing that fits: the largest free block is at most the free bytes |
| HeapBlocks.InitialInv | furi/core/memmgr_heap.c:567-610 | The block initialisation builds satisfies the invariant |
| MemmgrHeap.CanaryIsTransparent | furi/core/memmgr_heap.c:130-134 | The pointer protection is an involution and injective, so links can be compared and followed in decoded form |
| MemmgrHeap.Taken | furi/core/memmgr_heap.c:394-435 | The header writes of an allocation leave exactly the headers and links of the tiling with that block carved |
| MemmgrHeap.Inserted | furi/core/memmgr_heap.c:626-668 | The header writes of an insertion leave exactly the headers and links of the tiling with that block freed and merged on both sides |
| MemmgrHeap.PayloadIsNoHeader | furi/core/memmgr_heap.c:387-389 | Whatever is written into the payload of a block, no header or link of the heap changes |
| MemmgrHeap.TakeKeepsPayloads | furi/core/memmgr_heap.c:394-435 | The header writes of an allocation touch no word of any live block |
| MemmgrHeap.InsertKeepsPayloads | furi/core/memmgr_heap.c:626-668 | Nor do those of an insertion |
| MemmgrHeap.Heap.constructor | furi/core/memmgr_heap.c:167-176 | Before the first allocation the heap has no end marker and all counters are 0 |
| MemmgrHeap.Heap.RegionFits | furi/core/memmgr_heap.c:567-600 | The managed region and the eight bytes of its end marker lie inside the raw one, aligned to 8, with less than eight bytes lost at either end |
| MemmgrHeap.Heap.HeapInit | furi/core/memmgr_heap.c:567-610 | Initialisation builds one free block up to the end marker, with both byte counters equal to its size |
| MemmgrHeap.Heap.FindBlock | furi/core/memmgr_heap.c:371-380 | The pointer walk ends at the first-fit block and its free-list predecessor, or at the end marker |
| MemmgrHeap.Heap.TakeBlock | furi/core/memmgr_heap.c:394-436 | The three header writes, the split test and the counters of a successful allocation |
| MemmgrHeap.Heap.HandOut | furi/core/memmgr_heap.c:384-469 | The taken branch: the block of the first fit becomes owned at its old address, holds the request, and the free bytes drop by exactly its size, less than the request and 32; the requested bytes are cleared and no live block loses its contents |
| MemmgrHeap.Heap.Malloc | furi/core/memmgr_heap.c:311-469 | Allocation takes the abstract heap to that of the first-fit specification, returns the aligned address eight bytes behind the start of the block found, with room for the request and the requested bytes cleared; the free bytes drop by less than the request and 32; it fails exactly when the specification does, keeps the success and minimum-ever counters exact and leaves the contents of every live block alone |
| MemmgrHeap.Heap.Wipe | furi/core/memmgr_heap.c:467 | Clearing the memory of a block leaves the heap and the contents of all other live blocks as they were |
| MemmgrHeap.Heap.FindInsertionPoint | furi/core/memmgr_heap.c:620-624 | The loop stops at the last free block below the one being freed |
| MemmgrHeap.Heap.InsertBlockIntoFreeList | furi/core/memmgr_heap.c:613-669 | The list is threaded through the freed block, joined with the free neighbours the tiling has |
| MemmgrHeap.Heap.Free | furi/core/memmgr_heap.c:472-529 | Freeing NULL changes nothing; freeing a live pointer takes the abstract heap to that of the specification, counts it, leaves the freed payload cleared and the contents of every other live block alone |
| MemmgrHeap.Heap.GetHeapStats | furi/core/memmgr_heap.c:672-720 | The walk reports the largest, smallest and number of free blocks of the abstract heap, and with them the four counters; the free-byte counter is the sum of the free sizes |
| MemmgrHeap.Heap.WritePayload | furi/core/memmgr_heap.c:387-389 | The application may write any word of its own block without harming the heap or any other block |
| KernelQueue.RingBack | lib/FreeRTOS-Kernel/queue.c:2203-2216 | Writing the slot at the write pointer appends to the sequence between the pointers |
| KernelQueue.RingFront | lib/FreeRTOS-Kernel/queue.c:2217-2254 | Writing the slot at the read pointer and stepping it back puts an item in front |
| KernelQueue.RingTake | lib/FreeRTOS-Kernel/queue.c:2258-2276 | Stepping the read pointer forward drops the first item of the sequence, the one it then rests on |
| KernelQueue.RingPut | lib/FreeRTOS-Kernel/queue.c:2175-2256 | All three send positions act on the ring as on a bounded deque; overwrite on a queue of length one |
| KernelQueue.OperateRefines | lib/FreeRTOS-Kernel/queue.c:2175-2276 | Each send, receive and peek on slots, read pointer and count hands out and leaves what the bounded deque does |
| KernelQueue.FirstInFirstOut | lib/FreeRTOS-Kernel/queue.c:2175-2276 | Over any run of sends to the back, receives and peeks on slots, read pointer and count, what came out followed by what the pointers still enclose is what they enclosed followed by what was accepted, in order |
| KernelQueue.Conservation | lib/FreeRTOS-Kernel/queue.c:2175-2276 | Over any run of sends to either end, overwrites, receives and peeks, the items handed out, left and overwritten are exactly those there and those accepted, and the queue never overfills |
| KernelQueue.RefusedWhenFull | lib/FreeRTOS-Kernel/queue.c:861-866 | A send is refused, and changes nothing, exactly when the ring is full and it does not overwrite; an accepted one adds one item, or replaces the one it overwrites |
| KernelQueue.LastInFirstOut | lib/FreeRTOS-Kernel/queue.c:2217-2232 | What is sent to the front is received next, and leaves the items as they were |
| KernelQueue.OverwriteThenReceive | lib/FreeRTOS-Kernel/queue.c:2234-2250 | What overwrites is received next, and nothing is left |
| QueueState.SendWakesOne | lib/FreeRTOS-Kernel/queue.c:919-948 | A send counts its message, wakes the first waiting receiver and nobody else, and touches no lock |
| QueueState.ReceiveWakesOne | lib/FreeRTOS-Kernel/queue.c:1413-1432 | Likewise a receive with the first waiting sender |
| QueueState.InterruptCounts | lib/FreeRTOS-Kernel/queue.c:1081-1206 | An interrupt does the same to an unlocked queue; on a locked one it wakes nobody and counts one more, up to the number of tasks |
| KernelQueue.Queue.constructor | lib/FreeRTOS-Kernel/queue.c:296-346 | A new queue is empty, unlocked and has no waiting tasks, the read pointer on the last slot |
| KernelQueue.Queue.StoreSlot | lib/FreeRTOS-Kernel/queue.c:2175-2256 | The pointer and slot writes of a send |
| KernelQueue.Queue.CopyDataToQueue | lib/FreeRTOS-Kernel/queue.c:2175-2256 | A send changes the items as the deque operation does and counts the message |
| KernelQueue.Queue.CopyDataFromQueue | lib/FreeRTOS-Kernel/queue.c:2258-2276 | A receive hands out the oldest item and removes it |
| KernelQueue.Queue.Peek | lib/FreeRTOS-Kernel/queue.c:1758-1800 | A peek returns the oldest item, leaves the items and counters as they were, and passes the wakeup on to one further receiver |
| KernelQueue.Queue.TrySend | lib/FreeRTOS-Kernel/queue.c:856-966 | The critical section of a send succeeds exactly when there is room or it overwrites; then it stores and wakes one receiver, else nothing changes |
| KernelQueue.Queue.SendFromISR | lib/FreeRTOS-Kernel/queue.c:1081-1206 | The same from an interrupt, which on a locked queue only counts the event |
| KernelQueue.Queue.TryReceive | lib/FreeRTOS-Kernel/queue.c:1403-1440 | The critical section of a receive succeeds exactly when there is a message; then it returns the oldest and wakes one sender |
| KernelQueue.Queue.ReceiveFromISR | lib/FreeRTOS-Kernel/queue.c:1909-1969 | The same from an interrupt, which on a locked queue only counts the event |
| KernelQueue.Queue.LockQueue | lib/FreeRTOS-Kernel/queue.c:251-263 | Locking marks both directions unless they are locked already |
| KernelQueue.Queue.WakeReceivers | lib/FreeRTOS-Kernel/queue.c:2289-2361 | The unlock loop wakes min(counter, waiting) receivers from the front |
| KernelQueue.Queue.WakeSenders | lib/FreeRTOS-Kernel/queue.c:2370-2391 | The unlock loop wakes min(counter, waiting) senders from the front |
| KernelQueue.Queue.UnlockTx | lib/FreeRTOS-Kernel/queue.c:2279-2365 | The first critical section of the unlock pays the counted posts and unlocks, leaving the items alone |
| KernelQueue.Queue.UnlockRx | lib/FreeRTOS-Kernel/queue.c:2367-2396 | The second does the same for counted receives |
| QueueProtocol.NoLostWakeup | lib/FreeRTOS-Kernel/queue.c:856-1043 | In every interleaving of tasks and interrupts: while receivers wait, messages never exceed the woken receivers still to look plus the posts counted under the lock; likewise senders and free slots; hence with the lock free and nobody woken, no task waits for what is there |
| QueueProtocol.BlocksWhenAlone | lib/FreeRTOS-Kernel/queue.c:999-1015 | A task that calls receive on an empty queue, or send on a full one, with time left and nobody else acting, ends blocked on its event list, with the queue unlocked and otherwise as it was |
| QueueProtocol.HeadOfLoop | lib/FreeRTOS-Kernel/queue.c:1405-1455 | At the head of its loop and on waking a task takes part at once if what it came for is there, leaves if it is not and no time is left, and otherwise goes on to block |
| QueueProtocol.LeavesExactly | lib/FreeRTOS-Kernel/queue.c:1405-1515 | A step ends a call exactly at the head of the loop when it can take part or has no time, at the last look of a receive at an empty queue, or for a send when it comes out of the lock with its time over; a receive gives up only on an empty queue |
| QueueProtocol.NoGiveUpEarly | lib/FreeRTOS-Kernel/queue.c:835-1043 | Over any run with any other tasks and interrupts in which the time of a task is not found to be over, every call of that task that ends has taken part |
| QueueProtocol.TimesOutWhenAlone | lib/FreeRTOS-Kernel/queue.c:1500-1515 | A call whose time is over when it checks leaves everything as it was |
| QueueProtocol.TimeOutWakes | lib/FreeRTOS-Kernel/queue.c:1461-1472 | A task whose time runs out while it is blocked goes back to the head of its loop, off both lists |
| QueueProtocol.SenderGivesUpWithRoom | lib/FreeRTOS-Kernel/queue.c:1031-1040 | A run in which a send gives up, its time over, although there is room |
| QueueProtocol.UnlockWakesAll | lib/FreeRTOS-Kernel/queue.c:2279-2396 | Although the counters are capped, an unlock wakes min(posts, waiting receivers) and min(takes, waiting senders) tasks, from the front of their lists |
| QueueProtocol.UnlockServed | lib/FreeRTOS-Kernel/queue.c:2279-2396 | After the unlock the promise about lost wakeups still holds |
| QueueProtocol.LockCountersFit | lib/FreeRTOS-Kernel/queue.c:270-293 | With at most 127 tasks the assertion on the lock counters never fails and they stay in int8 range |
| QueueProtocol.LockIsExclusive | lib/FreeRTOS-Kernel/queue.c:999-1039 | Only one task at a time is between locking and unlocking, and it has the scheduler suspended |
| QueueProtocol.ReachableInv | lib/FreeRTOS-Kernel/queue.c:835-1043 | The protocol invariant holds in every state any run reaches |
| QueueProtocol.StepInv | lib/FreeRTOS-Kernel/queue.c:1378-1517 | Every step of a task, an interrupt or a time-out keeps the protocol invariant |
| ListOrder.InsertionIsSortedAndStable | lib/FreeRTOS-Kernel/list.c:148-184 | Insertion keeps the values sorted and goes behind every item of equal or smaller value |
| ListOrder.StepRotates | lib/FreeRTOS-Kernel/include/list.h:285-296 | One step of the index hands out the head of the walk and moves it to the tail |
| ListOrder.EveryoneOnce | lib/FreeRTOS-Kernel/include/list.h:285-296 | Any k successive steps over a list of k items visit each once, in order, wherever they start |
| ListOrder.InsertEndWalk | lib/FreeRTOS-Kernel/list.c:98-125 | An item added at the end is visited after every other except the one at the index |
| ListOrder.RemoveWalk | lib/FreeRTOS-Kernel/list.c:199-225 | Removal takes exactly one item out of the walk that starts at the index; none is skipped or repeated |
| KernelList.ListItem.constructor | lib/FreeRTOS-Kernel/list.c:86-95 | A new item is in no list |
| KernelList.List.constructor | lib/FreeRTOS-Kernel/list.c:50-83 | A new list is the ring of its end marker alone, with the index on it |
| KernelList.List.InsertEnd | lib/FreeRTOS-Kernel/list.c:98-125 | The item goes in front of the index and the list stays a well-formed doubly linked ring with the right count |
| KernelList.List.FindPlace | lib/FreeRTOS-Kernel/list.c:148-184 | The search, and its short cut for the maximal value, stops at the item behind which the value belongs |
| KernelList.List.Insert | lib/FreeRTOS-Kernel/list.c:128-196 | The item goes behind all items of at most its value, before all greater ones; the ring stays well formed |
| KernelList.List.Remove | lib/FreeRTOS-Kernel/list.c:199-225 | The item leaves the ring, the index steps back if it was on it, the count is returned |
| KernelList.List.GetNext | lib/FreeRTOS-Kernel/include/list.h:285-296 | The index moves to the head of the walk, over the end marker if need be, and returns it |
| CoRoutineRuns.EveryRunIsTimely | lib/FreeRTOS-Kernel/croutine.c:103-361 | In every run of creations, delays, schedule steps and interrupts between any two of them each co-routine is in exactly one ready or delayed list, and none is still delayed when its wake time is over |
| CoRoutineRuns.StepKeeps | lib/FreeRTOS-Kernel/croutine.c:202-314 | Every step keeps the invariant |
| CoRoutineRuns.SleepsUntilDue | lib/FreeRTOS-Kernel/croutine.c:103-361 | Never early: over any such run that has not reached its wake time, a delayed co-routine that waits for no event is still delayed, with the same wake time |
| CoRoutineRuns.WakesWhenDue | lib/FreeRTOS-Kernel/croutine.c:202-278 | Never late or missed: over any such run in which the wake time comes to an end, one step makes the co-routine ready, delayed until then: the loop over the delayed list at exactly that time or, when an interrupt gave it an event, the loop over the pending list before it |
| CoRoutineRuns.EventIsAnswered | lib/FreeRTOS-Kernel/croutine.c:202-222 | A co-routine an event came for is made ready before any schedule reads the tick count, and so before that schedule picks |
| CoRoutineRuns.PendingUntilReady | lib/FreeRTOS-Kernel/croutine.c:202-278 | A pending co-routine stays so until a step makes it ready |
| CoRoutineRuns.ReadyUntilItDelays | lib/FreeRTOS-Kernel/croutine.c:103-361 | A ready co-routine stays ready until it delays itself |
| CoRoutineRuns.CallsTakeEffect | lib/FreeRTOS-Kernel/croutine.c:103-199 | After a creation the new co-routine is ready with the priority it asked for, or the highest there is; after a delay the caller is delayed, and on the event list if it named one |
| CoRoutineRuns.ScheduleIsSteps | lib/FreeRTOS-Kernel/croutine.c:284-314 | Without interrupts the steps add up to the schedule as one call |
| CoRoutineRuns.DelayOnTimeExactly | lib/FreeRTOS-Kernel/croutine.c:163-199 | A delay keeps true time for some wake time if and only if it is not of zero ticks |
| CoRoutineRuns.ZeroDelayIsOneTick | lib/FreeRTOS-Kernel/croutine.c:174-186 | A delay of zero ticks wakes at the next tick and disturbs nobody, unless the tick count is about to overflow |
| CoRoutineRuns.ZeroDelaySleepsTwoTurns | lib/FreeRTOS-Kernel/croutine.c:174-186 | At the last tick before an overflow it sleeps until exactly 2^33 ticks later |
| CoRoutineState.WakesOnTime | lib/FreeRTOS-Kernel/croutine.c:225-281 | When only ticks pass, a co-routine due at true time w is in a delayed list at every time before w and ready from w on, across counter overflow and list swaps, whether ticks come singly or many in one call |
| CoRoutineState.TickIsExact | lib/FreeRTOS-Kernel/croutine.c:231-278 | One tick makes ready exactly the delayed co-routines whose true wake time it is |
| CoRoutineState.AdvanceOnTime | lib/FreeRTOS-Kernel/croutine.c:233-246 | When the tick count overflows the current delayed list is empty, and after the swap the other list holds this epoch |
| CoRoutineState.DelayOnTime | lib/FreeRTOS-Kernel/croutine.c:163-199 | Delaying by d > 0 ticks records the true wake time now + d, in the list the overflow test selects, and moves no other co-routine |
| CoRoutineState.InitialIsTimely | lib/FreeRTOS-Kernel/croutine.c:319-336 | The empty lists satisfy the invariant |
| CoRoutineState.RunsHighest | lib/FreeRTOS-Kernel/croutine.c:298-314 | The co-routine picked is ready and of the highest ready priority, whenever any is ready; top is left at the highest list in use, and no co-routine moves between lists |
| CoRoutineState.PicksWalk | lib/FreeRTOS-Kernel/croutine.c:309-311 | Successive picks follow the walk over the highest ready list |
| CoRoutineRuns.FairSharing | lib/FreeRTOS-Kernel/croutine.c:284-314 | While nobody is to be woken, any k successive schedules, whatever time passes between them, run each of the k co-routines of the highest ready list once, in list order; and so from any point of the sequence |
| CoRoutineState.CheckPendingKeeps | lib/FreeRTOS-Kernel/croutine.c:202-222 | Readying what interrupts unblocked keeps the invariant and empties the pending list |
| CoRoutineState.AppendIsLast | lib/FreeRTOS-Kernel/croutine.c:68-75 | A co-routine made ready is the last the walk over its list comes to, apart from the one at the index |
| CoRoutineState.DropKeepsOrder | lib/FreeRTOS-Kernel/croutine.c:175 | One that leaves its list is taken out of the walk; the order of the rest is kept |
| CoRoutineState.CreatedAsAsked | lib/FreeRTOS-Kernel/croutine.c:118-150 | A new co-routine gets the priority asked for, or the highest there is, joins the ready list of that priority, becomes current if it is the first, and changes nothing else |
| Croutine.Scheduler.constructor | lib/FreeRTOS-Kernel/croutine.c:319-336 | Initialisation gives empty lists, tick count 0 |
| Croutine.Scheduler.Create | lib/FreeRTOS-Kernel/croutine.c:103-160 | Creation clamps the priority, adds to the ready list, and makes the first co-routine current |
| Croutine.Scheduler.AddToReadyQueue | lib/FreeRTOS-Kernel/croutine.c:68-75 | Readying appends to the list of the priority and raises the top priority if need be |
| Croutine.Scheduler.AddToDelayedList | lib/FreeRTOS-Kernel/croutine.c:163-199 | The delay does what the specification function does; a delay that is not zero keeps every promise about wake times |
| Croutine.Scheduler.CheckPendingReadyList | lib/FreeRTOS-Kernel/croutine.c:202-222 | The loop readies all pending co-routines in order |
| Croutine.Scheduler.ExpireDelayed | lib/FreeRTOS-Kernel/croutine.c:249-278 | The inner loop readies every head whose time has come and stops at the first that is not due |
| Croutine.Scheduler.AdvanceTick | lib/FreeRTOS-Kernel/croutine.c:233-246 | The tick count wraps at 32 bits and a wrap swaps the lists |
| Croutine.Scheduler.ProcessTick | lib/FreeRTOS-Kernel/croutine.c:231-278 | One iteration of the outer loop is one true tick |
| Croutine.Scheduler.CheckDelayedList | lib/FreeRTOS-Kernel/croutine.c:225-281 | One call processes as many ticks as the kernel counted modulo 2^32 and ends in step with it |
| Croutine.Scheduler.Schedule | lib/FreeRTOS-Kernel/croutine.c:284-315 | A schedule runs a ready co-routine of the highest ready priority if and only if one is ready |
| Croutine.Scheduler.LowerTop | lib/FreeRTOS-Kernel/croutine.c:298-307 | The loop lowers the top priority to the highest list in use |
| Croutine.Scheduler.PickNext | lib/FreeRTOS-Kernel/croutine.c:298-311 | It then runs the next co-routine of that list |
| Croutine.Scheduler.RemoveFromEventList | lib/FreeRTOS-Kernel/croutine.c:339-361 | At any point of a schedule, unblocking moves the event item to the pending list, keeps what holds there, and reports whether the priority is at least the running one |
| TimerOrder.CollapseIsSound | furi/core/event_loop_timer.c:53-72 | Keeping only the last request of each timer and draining the queue at one tick gives the same running timers, intervals, start times and list order as carrying out the whole history then |
| TimerOrder.DrainObeysLastRequest | furi/core/event_loop_timer.c:89-116 | After draining exactly those timers run that were last asked to start, from now on and with the interval asked for, and those that ran before and of which nothing was asked |
| TimerOrder.ServiceTouchesOne | furi/core/event_loop_timer.c:118-141 | A service touches the timer due first and no other: that one is gone or, when periodic, started again by whole intervals |
| TimerOrder.ApplyKeepsSorted | furi/core/event_loop_timer.c:89-116 | Each request keeps the list in true deadline order with one entry per timer |
| TimerOrder.NextStartInPhase | furi/core/event_loop_timer.c:131-136 | Servicing a periodic timer keeps its phase and puts the next deadline in (now, now + interval] |
| TimerOrder.NeverDrifts | furi/core/event_loop_timer.c:131-136 | After any number of services, however late, the start time is congruent to the first modulo the interval and the next deadline is within one interval of the last service |
| TimerOrder.DividesByZeroExactly | furi/core/event_loop_timer.c:118-136 | When no periodic timer of interval 0 runs, the queue is drained and then serviced as often as timers run, at any times, some service divides by zero if and only if the queue asked for a periodic timer to start with interval 0 |
| TimerOrder.ServicesDivideExactly | furi/core/event_loop_timer.c:118-136 | As many services as timers run, at any times, divide by zero if and only if a periodic timer of interval 0 is running |
| TimerOrder.DrainLeavesZero | furi/core/event_loop_timer.c:89-116 | After draining, such a timer runs if and only if the queue asked for it or it ran before and nothing was asked of it |
| EventLoopTimer.RequestIsPositive | furi/core/event_loop_timer.c:181-196 | Among periodic timers that run or are to be started all intervals stay positive under a start if and only if it is not of a periodic timer with interval 0, under a restart if and only if the interval in use is not 0 |
| EventLoopTimer.DrainIsPositive | furi/core/event_loop_timer.c:89-116 | Draining keeps them positive and makes no timer periodic |
| EventLoopTimer.ServiceIsPositive | furi/core/event_loop_timer.c:118-144 | So does a service |
| EventLoopTimer.PositiveNeverDivides | furi/core/event_loop_timer.c:131-133 | While they are positive no service, at any time, divides by zero |
| EventLoopTimer.StartedWithZero | furi/core/event_loop_timer.c:131-133 | A run that divides by zero: a periodic timer is started with interval 0 |
| EventLoopTimer.RestartedTooSoon | furi/core/event_loop_timer.c:189-196 | Another: a periodic timer is restarted before its first start, with whatever interval, was carried out |
| EventLoopTimer.StartMoves | furi/core/event_loop_timer.c:131-136 | The 32-bit product of interval and missed events does not overflow, and the wrapped start time is the true one modulo 2^32 |
| EventLoopTimer.InsertFromBack | furi/core/event_loop_timer.c:33-41 | Searching from the back finds the stable sorted position |
| EventLoopTimer.FuriEventLoop.constructor | furi/core/event_loop.c:54-71 | In a new loop no timer exists, runs or has a request |
| EventLoopTimer.FuriEventLoop.Elapse | furi/core/event_loop_timer.c:12-14 | Time passes while the tick count wraps at 32 bits |
| EventLoopTimer.FuriEventLoop.TrueTimes | furi/core/event_loop_timer.c:12-24 | Elapsed and remaining times computed modulo 2^32 are the true ones, for timers attended to within 2^32 ticks |
| EventLoopTimer.FuriEventLoop.FindPosition | furi/core/event_loop_timer.c:31-41 | Comparing saturated 32-bit remaining times finds the place of the true deadline, behind equal ones |
| EventLoopTimer.FuriEventLoop.ScheduleTimer | furi/core/event_loop_timer.c:26-51 | The list stays in true deadline order, stable for ties |
| EventLoopTimer.FuriEventLoop.Alloc | furi/core/event_loop_timer.c:150-171 | A new timer of the kind asked for is in neither list, its intervals 0; no other timer changes |
| EventLoopTimer.FuriEventLoop.EnqueueRequest | furi/core/event_loop_timer.c:53-72 | A request replaces the pending one of the same timer and goes to the back; a timer is queued if and only if it has a request |
| EventLoopTimer.FuriEventLoop.Restart | furi/core/event_loop_timer.c:189-196 | A restart asks for the interval in use, not for one that is still requested |
| EventLoopTimer.FuriEventLoop.TakeRequest | furi/core/event_loop_timer.c:90-95 | The front request is taken and its timer leaves the running list |
| EventLoopTimer.FuriEventLoop.StartTimer | furi/core/event_loop_timer.c:97-103 | A start takes over the pending interval, begins now and is scheduled |
| EventLoopTimer.FuriEventLoop.StopTimer | furi/core/event_loop_timer.c:105-107 | A stop leaves the timer in neither list |
| EventLoopTimer.FuriEventLoop.FreeTimer | furi/core/event_loop_timer.c:109-110 | A free removes the timer altogether |
| EventLoopTimer.FuriEventLoop.ProcessTimerQueue | furi/core/event_loop_timer.c:89-116 | Draining carries out the queued requests in order, on the running timers and on every timer structure, and leaves the queue empty |
| EventLoopTimer.FuriEventLoop.GetTimerWaitTime | furi/core/event_loop_timer.c:78-87 | The wait time is exactly the least remaining time of all running timers, forever when there is none |
| EventLoopTimer.FuriEventLoop.TakeExpired | furi/core/event_loop_timer.c:119-129 | The front timer is taken if and only if some timer is due |
| EventLoopTimer.FuriEventLoop.AdvanceStart | furi/core/event_loop_timer.c:131-135 | The start time of a periodic timer moves on by whole intervals |
| EventLoopTimer.FuriEventLoop.Reschedule | furi/core/event_loop_timer.c:131-136 | It is then scheduled at its next deadline |
| EventLoopTimer.FuriEventLoop.Deactivate | furi/core/event_loop_timer.c:138-140 | A one-shot timer becomes inactive |
| EventLoopTimer.FuriEventLoop.ProcessExpiredTimers | furi/core/event_loop_timer.c:118-144 | A timer fires or the division by zero is reached if and only if one is due, it is the one with the earliest true deadline, the division exactly when it is periodic with interval 0; else the rest of the list is untouched and the timer rescheduled or inactive |
| EventLoopTimer.FuriEventLoop.Fire | furi/core/event_loop_timer.c:129-141 | The branches for the timer that is due |
| EventGroupState.PackingIsLossless | lib/FreeRTOS-Kernel/event_groups.c:564-569 | Wait mask, options and delivered value survive being packed into one list item value |
| EventGroupState.SetBitsOnWords | lib/FreeRTOS-Kernel/event_groups.c:555-621 | Setting bits on 32-bit words and packed list item values does to the sets of bits what the specification on sets does |
| EventGroupState.TestsAreTheSame | lib/FreeRTOS-Kernel/event_groups.c:693-727 | The two match tests on words are the test on sets |
| EventGroupState.PackedWaiter | lib/FreeRTOS-Kernel/event_groups.c:229-245 | A waiter packed into a list item value and read back is the same |
| EventWords.OrIsUnion | lib/FreeRTOS-Kernel/event_groups.c:555 | Or on words is union of their bits |
| EventWords.AndNotIsDifference | lib/FreeRTOS-Kernel/event_groups.c:621 | And-not is difference |
| EventWords.BitsDetermineWord | lib/FreeRTOS-Kernel/event_groups.c:555-621 | Words with the same bits are equal |
| EventGroupState.SetBitsWakesExactly | lib/FreeRTOS-Kernel/event_groups.c:555-621 | Setting bits wakes exactly the waiters whose condition holds for old | set and then clears exactly the bits of the woken clear-on-exit waiters; nobody left on the list has its condition met |
| EventGroupState.MetIsMonotone | lib/FreeRTOS-Kernel/event_groups.c:693-727 | Both kinds of condition are monotone in the bits |
| EventGroupState.MetMeans | lib/FreeRTOS-Kernel/event_groups.c:693-727 | A condition holds when all bits waited for are set, or one of them is |
| EventGroupState.WaitTakes | lib/FreeRTOS-Kernel/event_groups.c:339-359 | A wait whose condition holds returns the bits as they were; with clear-on-exit none of those waited for is left and all others are untouched, without it all bits are |
| EventGroupState.WaitBlocks | lib/FreeRTOS-Kernel/event_groups.c:360-407 | One whose condition does not hold blocks, at the end of the list, exactly when it has time, and otherwise returns the bits and changes nothing |
| EventGroupState.EventIsConsumedOnce | lib/FreeRTOS-Kernel/event_groups.c:339-407 | Of two waits for the same set bit the second blocks if they clear on exit and returns if they do not |
| EventGroupState.SyncReturns | lib/FreeRTOS-Kernel/event_groups.c:212-255 | A rendezvous that completes the bits returns all that were set and leaves none waited for; one that does not blocks when it has time and otherwise returns the bits as they then are |
| EventGroupState.TimeoutReturns | lib/FreeRTOS-Kernel/event_groups.c:426-461 | After a time-out the current bits are returned; if the condition has come true meanwhile the call clears like one that never blocked, else it changes nothing |
| EventGroupState.ClearLeaves | lib/FreeRTOS-Kernel/event_groups.c:473-498 | Clearing takes away exactly the bits named |
| EventGroupState.TimeOutDrops | lib/FreeRTOS-Kernel/event_groups.c:418-426 | A time-out takes one waiter off the list and leaves bits and the others alone |
| EventGroupRuns.AlwaysQuiescent | lib/FreeRTOS-Kernel/event_groups.c:317-625 | In every state any run of set, clear, wait, sync and time-outs reaches, no blocked waiter has its condition met |
| EventGroupRuns.StepQuiescent | lib/FreeRTOS-Kernel/event_groups.c:339-407 | Every call keeps that |
| EventGroupRuns.SyncQuiescent | lib/FreeRTOS-Kernel/event_groups.c:212-255 | So does a rendezvous, whether it completes, blocks or polls |
| EventGroupBarrier.BarrierHolds | lib/FreeRTOS-Kernel/event_groups.c:194-314 | With tasks owning disjoint bits that make up the wait mask: nobody returns from round r before all have arrived in it, nobody is two rounds ahead of another, every released task gets the full mask, and with nobody inside the bits are clear |
| EventGroupBarrier.NeverStuck | lib/FreeRTOS-Kernel/event_groups.c:194-314 | Some task can always arrive or return |
| EventGroupBarrier.CompleteMeansAllInside | lib/FreeRTOS-Kernel/event_groups.c:218 | The arrival of a task completes the mask if and only if everybody else is inside |
| EventGroupBarrier.ArriveEarly | lib/FreeRTOS-Kernel/event_groups.c:229-245 | An arrival that does not complete the mask wakes nobody and blocks |
| EventGroupBarrier.ArriveLast | lib/FreeRTOS-Kernel/event_groups.c:216-227 | The last arrival releases everybody with the full mask, leaves the bits clear and returns at once |
| EventGroupBarrier.ReachableInv | lib/FreeRTOS-Kernel/event_groups.c:194-314 | The barrier invariant holds in every state any run reaches, and rounds never go back |
| EventGroups.EventGroup.constructor | lib/FreeRTOS-Kernel/event_groups.c:165-188 | A new group has no bits and no waiters |
| EventGroups.EventGroup.SetBits | lib/FreeRTOS-Kernel/event_groups.c:533-625 | The loop over the waiters computes the specified group, and every woken waiter is handed the same value old | set |
| EventGroups.EventGroup.WaitBits | lib/FreeRTOS-Kernel/event_groups.c:339-407 | A wait returns the bits, polls or blocks as specified |
| EventGroups.EventGroup.Sync | lib/FreeRTOS-Kernel/event_groups.c:212-255 | A rendezvous sets, then returns, polls or blocks as specified |
| EventGroupState.FewerBitsStayQuiescent | lib/FreeRTOS-Kernel/event_groups.c:473-498 | Clearing bits cannot leave a blocked waiter with its condition met |
| EventGroups.EventGroup.ReturnAfterTimeout | lib/FreeRTOS-Kernel/event_groups.c:426-461 | After a time-out the current bits are returned, and the waited-for bits cleared if the condition has come true meanwhile |
| EventLoopRuns.DeliveryIsNotLost | furi/core/event_loop.c:104-116 | Whenever the loop waits, a level subscription whose object has a message (In) or a free place (Out) is in the waiting list with the Event flag up (or dropped by a stop and not raised since), or the call that brought that about has still to notify |
| EventLoopRuns.DeliveryWithCleanStops | furi/core/event_loop.c:104-116 | In a run that serves a stop only while the waiting list is empty, a high subscribed level has its item in the waiting list with the Event flag up and an Event or Stop pass next, or the call that made it high has still to notify |
| EventLoopRuns.StopDropsExactly | furi/core/event_loop.c:232-234 | Serving a stop and running the loop again leaves it asleep on a waiting item if and only if the waiting list is not empty when the stop is served |
| EventLoopRuns.WaitingIsWoken | furi/core/event_loop.c:227-238 | A loop that waits with items waiting has the Event flag up if and only if no stop dropped it, and then takes an Event or Stop pass next |
| EventLoopRuns.RestartMayStall | furi/core/event_loop.c:232-234 | A run in which a stop drops the Event flag of a waiting item, so that the loop sleeps on a high level when it is run again |
| EventLoopRuns.SubscriptionsAgree | furi/core/event_loop.c:329-350 | In every reachable state an object is in the tree if and only if one of its link slots is of this loop, that slot holds its live item, only one slot is used, unsubscribing succeeds exactly for objects in the tree, and waiting items are subscribed and unique |
| EventLoopRuns.UnsubscribeChecksHold | furi/core/event_loop.c:452-469 | The checks of unsubscribe on owner and link slot never fail for a subscribed object |
| EventLoopRuns.NeverCrashes | furi/core/event_loop.c:231-253 | The crash at the end of the flag chain is unreachable |
| EventLoopRuns.FlagGoesExactly | furi/core/event_loop.c:227-258 | A raised flag goes away if and only if it is served, a stop is served, or it is the thread flag while pending callbacks are served |
| EventLoopRuns.FlagStaysUntilServed | furi/core/event_loop.c:201-206 | Event, Timer, Pending and Stop flags stay up over any run until they are served, except by a stop |
| EventLoopRuns.ThreadFlagIsLost | furi/core/event_loop.c:242-246 | A run in which the thread flag is raised, never served and gone |
| EventLoopRuns.ServedInTurn | furi/core/event_loop.c:143-188 | Unless it is unsubscribed, a waiting item at position k has its callback begun, or its level found low, before more than k other items of the list are looked at |
| EventLoopRuns.CallbackBegins | furi/core/event_loop.c:96-132 | When an item taken off the list is looked at its callback begins if it is an edge item or the object has a message (In) or a free place (Out), and not otherwise |
| EventLoopRuns.CallbackBeginsOnlySo | furi/core/event_loop.c:96-132 | No callback begins in any other way |
| EventLoopRuns.CallbackEnds | furi/core/event_loop.c:107-116 | After its callback a level item whose level is still high is to be listed again, any other is not |
| EventLoopRuns.NotificationLists | furi/core/event_loop.c:587-601 | A notification that finds a subscription of the loop in its slot, edge or level, has its item listed, last and once, and the Event flag raised; another changes nothing |
| EventLoopRuns.QueueCallsNotify | furi/core/message_queue.c:57-210 | A put adds one message and owes the In slot a notification, a get or a reset takes one or all and owes the Out slot |
| EventLoopRuns.SubscribeLists | furi/core/event_loop.c:316-359 | A subscription takes the slot of its direction, and is listed at once exactly when it is for the level and the level is there |
| EventLoopRuns.FlagsAreServed | furi/core/event_loop.c:231-253 | Which pass the flags taken in one go lead to, and what is kept to be put back |
| EventLoopRuns.PendingAreCalled | furi/core/event_loop.c:193-199 | The pass over the pending callbacks calls the oldest, takes it off when done, and goes on until none is left |
| EventLoopRuns.FirstAfterItsTurn | furi/core/event_loop.c:143-156 | When nothing up to it is unsubscribed, after exactly k passes it is at the head of the list |
| EventLoopRuns.UnsubscribedWhileRunning | furi/core/event_loop.c:446-482 | An item unsubscribed inside its own callback leaves tree, slot and waiting list but stays allocated |
| EventLoopRuns.FreedExactlyOnce | furi/core/event_loop.c:136-138 | Such an item is not freed while its callback runs and is freed exactly once over any continuation of the run that settles it |
| EventLoopRuns.CallbacksInOrder | furi/core/event_loop.c:193-199 | Pending callbacks complete in the order they were pended, each once, none lost |
| EventLoopRuns.StepKeeps | furi/core/event_loop.c:172-191 | Every step of the loop, its callbacks, other threads and interrupts keeps the structures, the signals and the delivery promise |
| EventLoop.FuriEventLoop.constructor | furi/core/event_loop.c:54-71 | A new loop has nothing subscribed, waiting or pending |
| EventLoop.FuriEventLoop.Subscribe | furi/core/event_loop.c:316-359 | Subscribing enters tree and link slot together and notifies at once when the level is high; it fails exactly when a check fails |
| EventLoop.FuriEventLoop.Unsubscribe | furi/core/event_loop.c:446-482 | Unsubscribing leaves tree, slot and waiting list, and frees now or, for the running item, later |
| EventLoop.FuriEventLoop.ItemNotify | furi/core/event_loop.c:543-558 | An item is listed at most once and the Event flag is raised |
| EventLoop.FuriEventLoop.LinkNotify | furi/core/event_loop.c:587-601 | Notifying a link lists the item in the slot of that direction, if it is of this loop |
| EventLoop.FuriEventLoop.Put | furi/core/message_queue.c:57-99 | A put notifies the In slot exactly when the message was stored |
| EventLoop.FuriEventLoop.Get | furi/core/message_queue.c:101-141 | A get notifies the Out slot exactly when a message was taken |
| EventLoop.FuriEventLoop.FinishItem | furi/core/event_loop.c:134-188 | After the callback the item is freed, listed again or left alone, by its owner and its status |
| EventLoop.FuriEventLoop.UserCall | furi/core/event_loop.c:294-359 | What user code asks of the loop is the user step of the state machine, and fails exactly when that does |
| EventLoop.FuriEventLoop.IsSubscribed | furi/core/event_loop.c:484-494 | While tree and link slots agree, an object counts as subscribed if and only if one of its slots is of this loop |
| EventLoop.FuriEventLoop.Advance | furi/core/event_loop.c:208-258 | Each piece of the loop between two accesses to shared memory is a step of the state machine |
| Chip8.Machine.Draw | applications_user/chip8/chip8.c:273-294 | The two nested loops with their clipping breaks flip exactly the pixels under a set sprite bit and set VF to 1 exactly when one of them was lit |
| Chip8.Machine.DrawRow | applications_user/chip8/chip8.c:278-291 | One row of them |
| Chip8State.CollisionIsPixelTurnedOff | applications_user/chip8/chip8.c:285-288 | On a display of zeros and ones VF is 1 if and only if some lit pixel was turned off |
| Chip8State.DrawTwiceRestores | applications_user/chip8/chip8.c:273-294 | Drawing again restores the display on every machine when no operand is VF and every row drawn, after clipping, lies in memory |
| Chip8State.DrawTwiceExactly | applications_user/chip8/chip8.c:273-294 | For given registers and I, DRW is its own inverse on every machine, whatever each of the two draws reads behind memory, if and only if the sprite has no rows, or neither operand is VF and every row drawn, after clipping, lies in memory |
| Chip8State.RegistersAsSprite | applications_user/chip8/chip8.c:280 | A concrete input past the end of memory where the second draw does not restore: the sprite rows are the registers, and the first draw changes VF |
| Chip8State.EveryRunFromReset | applications_user/chip8/chip8.c:85-337 | Over every run from reset, with any ROM, keys and random numbers, pixels stay 0 or 1, sp stays at most 16 and pc at most 4350 |
| Chip8State.EveryRunKeepsInv | applications_user/chip8/chip8.c:142-342 | The same from any state that satisfies the invariant, return addresses included |
| Chip8State.StepKeeps | applications_user/chip8/chip8.c:142-342 | Every cycle, timer tick, key change and ROM load keeps the invariant |
| Chip8State.ReturnUndoesCall | applications_user/chip8/chip8.c:177-196 | A return undoes a call if and only if the call found room on the stack |
| Chip8State.FullStackIsReachable | applications_user/chip8/chip8.c:190-196 | A run from reset fills the stack, and there a return does not undo the call |
| Chip8State.AddIsExact | applications_user/chip8/chip8.c:224-229 | Result register and VF together are the exact sum, VF being the carry |
| Chip8State.SubtractIsExact | applications_user/chip8/chip8.c:230-247 | Result register and VF together give the exact difference, VF being 1 when nothing was borrowed |
| Chip8State.ShiftIsExact | applications_user/chip8/chip8.c:236-253 | Result register and VF together give the exact half or double, VF being the bit shifted out |
| Chip8State.DigitsOfRegister | applications_user/chip8/chip8.c:317-323 | Fx33 writes exactly the three decimal digits of the register, and nothing near the end of memory |
| Chip8State.StoreThenFetch | applications_user/chip8/chip8.c:324-333 | Fetching what was stored is the identity on V0 to Vx when the block fits in memory |
| Chip8State.FirstKey | applications_user/chip8/chip8.c:147-153 | The key delivered is the lowest one pressed |
| Chip8.Machine.constructor | applications_user/chip8/chip8.c:85-104 | Reset clears everything and loads the font |
| Chip8.Machine.RunCycle | applications_user/chip8/chip8.c:142-337 | One call of the cycle is one step of the specification, and keeps the invariant |
| Chip8.Machine.Execute | applications_user/chip8/chip8.c:171-337 | The switch over the opcode |
| Chip8.Machine.Arithmetic | applications_user/chip8/chip8.c:218-255 | The 8xyn instructions with 8-bit wrap-around, the flag computed from the operands as they were |
| Chip8.Machine.Call | applications_user/chip8/chip8.c:190-196 | A call pushes the return address if there is room, and jumps either way |
| Chip8.Machine.Return | applications_user/chip8/chip8.c:177-183 | A return pops if the stack is not empty |
| Chip8.Machine.Store | applications_user/chip8/chip8.c:324-328 | The store loop writes V0 to Vx up to the end of memory and nothing else |
| Chip8.Machine.Fetch | applications_user/chip8/chip8.c:329-333 | The fetch loop reads V0 to Vx up to the end of memory and leaves the other registers |
| Chip8.Machine.WaitForKey | applications_user/chip8/chip8.c:146-155 | The wait ends with the lowest pressed key in the register asked for, and only with one |
| Chip8State.TimersCountDown | applications_user/chip8/chip8.c:339-342 | Any k ticks take k off both timers, stopping at 0, and touch nothing else |
| Chip8Programs.BitByBit | applications_user/chip8/chip8.c:224-226 | Or, and and xor act bit by bit |
| Chip8Programs.SpriteColumns | applications_user/chip8/chip8.c:284 | The columns of a sprite row are its bits from the highest to the lowest |
| Chip8Programs.CycleExecutes | applications_user/chip8/chip8.c:163-169 | A cycle executes the opcode at the program counter, high byte first, the counter already past it |
| Chip8Programs.CycleHalts | applications_user/chip8/chip8.c:142-161 | A machine that is stopped or waits for a key executes nothing; one that has run off memory stops |
| Chip8Programs.WaitsForKey | applications_user/chip8/chip8.c:146-155 | Fx0A waits, and the lowest key of the first ones found pressed goes to Vx |
| Chip8Programs.OneOfTwoSkips | applications_user/chip8/chip8.c:198-206 | Of 3xnn and 4xnn exactly one skips, the first when Vx is nn; of 5xy0 and 9xy0, the first when the registers are equal |
| Chip8Programs.OneOfTwoSkipsOnKey | applications_user/chip8/chip8.c:297-305 | Of Ex9E and ExA1 exactly one skips, the first when Vx names a pressed key |
| Chip8Programs.LoadThenSkip | applications_user/chip8/chip8.c:198-212 | 6xnn loads nn, so 3xnn behind it always skips and 4xnn never does |
| Chip8Programs.Addresses | applications_user/chip8/chip8.c:186-188 | 1nnn and Bnnn jump to, and Annn loads, the address of the digits of the opcode, Bnnn with V0 added |
| Chip8Programs.CallThenReturn | applications_user/chip8/chip8.c:177-196 | With room on the stack, 00EE comes back behind the 2nnn that was called, whatever happened to the registers |
| Chip8Programs.AddImmediate | applications_user/chip8/chip8.c:214-216 | 7xnn adds modulo 256 and leaves VF alone |
| Chip8Programs.CopyRegister | applications_user/chip8/chip8.c:220 | 8xy0 copies a register |
| Chip8Programs.LogicIsBitwise | applications_user/chip8/chip8.c:221-223 | 8xy1, 8xy2 and 8xy3 are or, and and xor bit by bit and clear VF |
| Chip8Programs.XorTwiceRestores | applications_user/chip8/chip8.c:223 | 8xy3 twice restores Vx |
| Chip8Programs.RandomIsMasked | applications_user/chip8/chip8.c:269-271 | Cxnn keeps of the random byte the bits set in nn |
| Chip8Programs.TimerMovesRegister | applications_user/chip8/chip8.c:309-314 | Fx15 then Fy07 moves a register, counted down by the ticks in between |
| Chip8Programs.SoundIsSet | applications_user/chip8/chip8.c:315 | Fx18 sets the sound timer |
| Chip8Programs.AddToAddress | applications_user/chip8/chip8.c:316 | Fx1E adds Vx to I modulo 65536 and leaves VF alone |
| Chip8Programs.MemoryAfterLoad | applications_user/chip8/chip8.c:85-133 | After a load the font is at 80, the program at 512, and zeros elsewhere |
| Chip8Programs.MachineAfterLoad | applications_user/chip8/chip8.c:85-138 | All else is zero, the program counter 512, and the machine runs unless the program is empty |
| Chip8Programs.PointsAtGlyph | applications_user/chip8/chip8.c:317 | Fx29 points I at the five bytes of the font for the low digit of Vx |
| Chip8Programs.MemoryInstructions | applications_user/chip8/chip8.c:318-334 | Fx33, Fx55 and Fx65 write digits, store and fetch |
| Chip8Programs.StoreWrites | applications_user/chip8/chip8.c:324-328 | A store writes V0 to Vx from I on, as far as memory goes |
| Chip8Programs.FetchReads | applications_user/chip8/chip8.c:329-333 | A fetch reads V0 to Vx from I on, as far as memory goes |
| Chip8Programs.ClearsScreen | applications_user/chip8/chip8.c:173-176 | 00E0 puts all pixels out and nothing else |
| Chip8Programs.DrawInstruction | applications_user/chip8/chip8.c:273-294 | Dxyn draws with the operands of its digits |
| Chip8Programs.DrawFlipsPixel | applications_user/chip8/chip8.c:273-294 | A pixel is flipped exactly when it lies under a set bit of one of the eight columns and n rows of the sprite |
| Chip8Programs.ArithmeticInstruction | applications_user/chip8/chip8.c:218-255 | 8xyn is the arithmetic of its last digit |
| Chip8Programs.UnknownIsPassedOver | applications_user/chip8/chip8.c:171-337 | Opcodes that name no instruction are passed over |

## Left out

- MemmgrHeap.Heap.Malloc: NULL stands for the crash when nothing is allocated; the crash when called from an interrupt is not modelled.
- MemmgrHeap.Heap.Free: pointers malloc did not hand out, which the original asserts against, and calls from an interrupt are excluded.
- Heap thread tracing and vPortHeapResetState: bookkeeping beside the allocator.
- realloc, calloc and the allocation wrappers of furi/core/memmgr.c: thin layers over the allocator.
- KernelQueue.Queue.CopyDataToQueue: items are slots of any type, not bytes; semaphores are queues of an empty type, and mutex holders with priority inheritance are not modelled.
- KernelQueue.Queue.Peek: the critical section with a message there; receivers that block in a peek are not modelled.
- QueueProtocol.NoLostWakeup: leaves out queue sets, peeking waiters, deletion and suspension of tasks, and resetting a queue in use; tasks.c is not part of this model, so the position a task takes in an event list is arbitrary, and interrupts run between critical sections.
- KernelList.List.Remove: takes the ring position of the item as a ghost argument; item owners and the optional integrity bytes are not modelled.
- Croutine.Scheduler.Schedule: the call without interrupts; interrupts between any two of its steps are those of CoRoutineRuns. The state of the co-routine and its call are not modelled; ready and delayed lists are values of the kind KernelList is proved to implement.
- Croutine.Scheduler.RemoveFromEventList: event lists are one set, so any waiting co-routine may be the one at the head.
- CoRoutineState.DelayOnTime: for delays that are not zero; CoRoutineRuns.DelayOnTimeExactly shows that it fails for the others. Delays are below 2^32 ticks. The shipped configuration does not compile co-routines in.
- CoRoutineState.WakesOnTime: for ticks alone; the statements over whole runs are those of CoRoutineRuns.
- EventLoopTimer.FuriEventLoop.EnqueueRequest: a request for a timer whose free is pending crashes in the original and is excluded.
- EventLoopTimer.FuriEventLoop.ProcessExpiredTimers: what a division by zero, undefined in C, then does is not modelled.
- EventLoopTimer.FuriEventLoop.GetTimerWaitTime: promised while every running timer is serviced within 2^32 ticks of its start and the tick does not change inside the call.
- TimerOrder.CollapseIsSound: compares the running timers; the interval field of a stopped timer may differ from that of the one-by-one history.
- EventGroups.EventGroup.WaitBits: the control bits, which the original asserts to be clear, are outside the bit sets; deletion and the deferred calls from interrupts are not modelled.
- EventGroupBarrier.BarrierHolds: for tasks that wait forever; a rendezvous with a time-out is in EventGroupRuns only.
- EventLoop.FuriEventLoop.Subscribe: the Once flag, stream buffers, semaphores, mutexes and event flags as objects, and the thread-flag subscription are not modelled; the callback and its context are whatever user code does in between.
- EventLoop.FuriEventLoop.Advance: a message queue is never freed, so not inside a callback either; furi/core/event_loop.c:107-116 asks the object for its level once more after the callback.
- EventLoop.FuriEventLoop.Put: argument errors and the blocking send; a put by another thread that is interrupted before it notifies is a step of EventLoopState of its own.
- EventLoopRuns.DeliveryIsNotLost: objects are message queues; a stop drops flags, as EventLoopRuns.RestartMayStall shows.
- Chip8.Machine.Draw: bytes a sprite read takes from behind the memory array, which C leaves undefined, are a parameter, for each draw its own.
- Chip8.Machine.RunCycle: the random number is a parameter; files, screen, keys and the timing of frames are not modelled.
- Console, storage, radio and other applications: input, output and foreign calls.
