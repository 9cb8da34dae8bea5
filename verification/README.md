# FreeRTOS kernel objects and the status frame: a verified model

The repository is the firmware of a remote terminal unit: FreeRTOS V10.0.1 on a 32-bit microcontroller, and an
application that moves two axes and a lift. This project models the kernel objects the firmware is built on, and the
text it sends, in Dafny 4.11, and proves what they are for. `dafny verify dfyconfig.toml` covers all the files.

| files | what they model |
|---|---|
| `HeapModel.dfy`, `Heap4.dfy` | `heap_4.c`: the heap as a tiling of blocks, and the allocator on header words in memory |
| `KernelList.dfy` | `list.c` and the walk of `list.h`: the circular list on linked objects, and its order |
| `RingBuffer.dfy` | `queue.c`: the storage area of a queue as a bounded sequence |
| `QueueProtocol.dfy`, `QueueCalls.dfy`, `SharedQueue.dfy` | `queue.c`: blocking, locking and waking, over every interleaving; what a call gets, and when it gives up; the critical sections on the fields |
| `RecursiveMutex.dfy` | `queue.c`: the recursive mutex, over every interleaving |
| `EventGroup.dfy`, `EventGroupCalls.dfy`, `EventGroupObject.dfy`, `EventGroupList.dfy`, `Rendezvous.dfy` | `event_groups.c`: waiting for bits, the loop of xEventGroupSetBits on values and on the linked list, the N-party rendezvous |
| `ItemList.dfy`, `CoRoutine.dfy`, `CoRoutineEvents.dfy`, `ZeroDelay.dfy`, `CoRoutineScheduler.dfy` | `croutine.c`: the co-routine scheduler with wrapping ticks and interrupts |
| `Printer.dfy`, `Printf.dfy`, `Conversions.dfy`, `StatusFrame.dfy` | `printf-stdarg.c` and the status frame of `net_values.c` |

Each object is modelled twice. A value model says what a call means: a function on a tiling, a sequence, or the state
of a protocol, whose steps are the critical sections of the calls, with a program counter for each task. The laws and the
properties over whole runs are lemmas about it. A class has the fields of the C structure and methods that change them
as the C functions do, loops included; the contracts of the methods tie the new fields to the value model.

Integers have the widths of the port where it matters: addresses, sizes and ticks wrap at 2^32, the queue locks at 8 bits,
the frame cuts its values to 16 and 8 bits. `configASSERT` is disabled in this configuration, so what the code asserts is
a precondition here. Words of event bits are sets of bit positions, so that or, and, and and-not are union, intersection
and difference; `EventWord` says which number a set stands for. Functions of the task scheduler that the kernel objects call are steps of the environment: which task runs
next, when a time-out comes, and where a task goes on an event list are left open.

## Where the code departs from what it promises

- `list.h` says that an item inserted at the end is the last to be returned; it is so exactly when the index stands on the end
  marker (`ListView.InsertEndIsLastIff`). The header also calls sorted lists descending; `vListInsert` sorts ascending.
- An overwriting send on a full queue with items of size zero counts a message too many
  (`RingBuffer.Queue.CopyDataToQueue`).
- `xQueueReset` frees every slot but wakes one sender (`QueueProtocol.ResetKeepsSendersIff`,
  `QueueProtocol.ResetLosesSender`).
- More than 127 interrupt operations in one locked period overflow the lock counter (`QueueProtocol.SignalKeepsBoundIff`),
  and a receiver then sleeps beside a message (`QueueProtocol.OverflowLosesReceiver`).
- 2^32 nested takes of a recursive mutex are forgotten (`RecursiveMutex.NestingForgottenIff`), so that it can be free while
  its taker still owes 2^32 gives (`RecursiveMutex.NestingForgotten`).
- A delay of zero ticks ends at the next tick, except at the last tick before the count wraps, where it lasts 2^33 ticks
  (`ZeroDelay.DelayEndsExactly`); the callers leave a delay of zero out.
- An event that comes while vCoRoutineSchedule processes the ticks is not answered by the call that follows, unless the
  delay of the co-routine is over (`CoRoutineEvents.EventDuringTicks`, `CoRoutineEvents.EventMissesCall`).
- With both flags `-` and `0` the printer pads with zeros on the right, unlike section 7.19.6.1 of ISO/IEC 9899:1999
  (`Numerals.ReadsBackIff`).

## Model

| member | source | states |
|---|---|---|
| `HeapModel.NeededAligned` | freertos/src/heap_4.c:143-155 | A request of n > 0 bytes is rounded to a multiple of 8 of at least 16 that leaves room for the header. |
| `HeapModel.MallocComplete` | freertos/src/heap_4.c:135-175 | First fit is complete: for every n, the call returns a block exactly when some free block has room for the rounded request, and it is the lowest-address such block. |
| `HeapModel.FitImpliesEnoughBytes` | freertos/src/heap_4.c:168-169 | The quick test on xFreeBytesRemaining never refuses a request that some block could satisfy. |
| `HeapModel.AllocKeepsCanonical` | freertos/src/heap_4.c:187-218 | Taking a block, split or whole, keeps blocks tiling the range with no two free neighbours; exactly one live block is added, it exceeds the rounded request by at most 16 bytes, and the free bytes drop by its size. |
| `HeapModel.FreeKeepsCanonical` | freertos/src/heap_4.c:292-296 | Releasing a live block keeps the heap canonical, removes just that block from the live ones, and adds its size to the free bytes. |
| `HeapModel.BytesConserved` | freertos/src/heap_4.c:329-375 | Free bytes and live bytes together are the size prvHeapInit started with. |
| `HeapModel.CanonicalFormUnique` | freertos/src/heap_4.c:377-435 | The live blocks alone determine the heap: two canonical tilings with the same live blocks are equal, free list included. |
| `HeapModel.FreeBlocksAreMaximalRuns` | freertos/src/heap_4.c:377-435 | A free block is in the heap exactly when it is a maximal run of free bytes: coalescing never leaves two free blocks touching. |
| `HeapModel.AllocThenFreeRestores` | freertos/src/heap_4.c:165-296 | Allocating and at once releasing the block restores exactly the previous heap, whether or not the block was split. |
| `HeapModel.MallocKeepsCanonical` | freertos/src/heap_4.c:113-260 | pvPortMalloc keeps the heap canonical, and vPortFree of its result undoes it. |
| `HeapModel.FreesCommute` | freertos/src/heap_4.c:263-308 | The order of two releases does not matter. |
| `HeapModel.FreeAllRestoresFresh` | freertos/src/heap_4.c:263-308 | Releasing all live blocks, in any order, restores the single block prvHeapInit made. |
| `HeapModel.MallocAligned` | freertos/src/heap_4.c:113-260 | Every pointer handed out is 8-byte aligned. |
| `HeapModel.RunKeepsHeap` | freertos/src/heap_4.c:113-308 | After any run of allocations and releases the heap is canonical and no byte is lost, and releasing what is left restores the initial heap. |
| `HeapModel.RunSnug` | freertos/src/heap_4.c:187-205 | After any run, every live block has room for the request it answers and at most 16 bytes more than that, rounded up, needs. |
| `FreeChain.FreshHolds` | freertos/src/heap_4.c:359-374 | The words prvHeapInit writes represent one free block between xStart and the end marker. |
| `FreeChain.InsertHolds` | freertos/src/heap_4.c:377-435 | Linking and merging the headers around the insertion point turns the list of the old blocks into the list of the new ones, and touches no other header. |
| `FreeChain.FirstFitOnList` | freertos/src/heap_4.c:172-180 | The first block on the linked list that is large enough is the lowest-address one in the heap. |
| `FreeChain.WalkEnds` | freertos/src/heap_4.c:172-180 | The walk of the list, which compares sizes before it looks for the end marker, stops inside the list or at the end marker. |
| `Heap4.Heap.constructor` | freertos/src/heap_4.c:95-111 | Before the first allocation nothing has been initialised. |
| `Heap4.Heap.PrvHeapInit` | freertos/src/heap_4.c:329-375 | The aligned range becomes one free block, and both counters its size, wherever ucHeap lies. |
| `Heap4.Heap.FindInsertionPoint` | freertos/src/heap_4.c:383-388 | The walk stops at the last free block below the one to insert. |
| `Heap4.Heap.PrvInsertBlockIntoFreeList` | freertos/src/heap_4.c:377-435 | Of any heap that memory holds: afterwards memory holds the heap with the block released and merged with its free neighbours, and no live block below it has a header touched. |
| `Heap4.Heap.FindFirstFit` | freertos/src/heap_4.c:172-180 | The walk ends at the lowest-address free block that is large enough, or at the end marker. |
| `Heap4.Heap.Unlink` | freertos/src/heap_4.c:181-208 | Unlinking a free block, and putting the rest back when it is worth a block, leaves memory holding the heap with the block taken, whether it is handed out whole or in part. |
| `Heap4.Heap.Split` | freertos/src/heap_4.c:191-207 | Cutting an unlinked block in two and inserting the second part leaves memory holding the heap with the first part taken. |
| `Heap4.Heap.RoundUp` | freertos/src/heap_4.c:143-162 | The size arithmetic yields the rounded request and does not wrap in 32 bits. |
| `Heap4.Heap.PvPortMalloc` | freertos/src/heap_4.c:113-260 | The heap afterwards and the pointer returned are those of the abstract allocation, for every 32-bit size; the memory still represents the heap, and the minimum is taken over the whole history. |
| `Heap4.Heap.VPortFree` | freertos/src/heap_4.c:263-308 | The heap afterwards is that of the abstract release; NULL and a block already free change nothing. |
| `Heap4.Heap.XPortGetFreeHeapSize` | freertos/src/heap_4.c:311-314 | The counter is the sum of the sizes of the free blocks. |
| `Heap4.Heap.XPortGetMinimumEverFreeHeapSize` | freertos/src/heap_4.c:317-320 | The counter is the least number of free bytes after any call so far. |
| `ListView.AdvanceRotates` | freertos/inc/list.h:276-287 | One step of the walk returns the head of the upcoming order and sends it to the back. |
| `ListView.VisitsFollowUpcoming` | freertos/inc/list.h:276-287 | Up to a full turn, the walk returns the upcoming items in order. |
| `ListView.FullTurnVisitsEachOnce` | freertos/inc/list.h:276-287 | n steps on a list of n items visit each item exactly once. |
| `ListView.InsertEndOrder` | freertos/src/list.c:74-100 | vListInsertEnd places the new item behind every other item except the one the index designates. |
| `ListView.InsertEndIsLastIff` | freertos/src/list.c:74-100 | The new item is the last to be returned, as the header describes it, exactly when the index is on the end marker. |
| `ListView.RemoveKeepsOrder` | freertos/src/list.c:170-196 | uxListRemove takes just that item out of the upcoming order, even when the index designates it. |
| `ListView.SortedInsertIsStable` | freertos/src/list.c:103-167 | vListInsert keeps the values ascending and puts the new item behind all items of its value, portMAX_DELAY included. |
| `KernelList.List.constructor` | freertos/src/list.c:37-60 | A new list is the end marker linked to itself, empty, with the index on it. |
| `KernelList.List.InsertEnd` | freertos/src/list.c:74-100 | The links afterwards form the circle with the new item just before the index; container and count follow. |
| `KernelList.List.Insert` | freertos/src/list.c:103-167 | The links afterwards form the circle with the item at its sorted place; container and count follow; an ascending list stays ascending. |
| `KernelList.List.FindPlace` | freertos/src/list.c:116-152 | The search terminates on every well-formed list and finds the place behind all items of the same value or less. |
| `KernelList.List.Remove` | freertos/src/list.c:170-196 | The links afterwards form the circle without the item; the index moves back if it was on it; the count is returned; an ascending list stays ascending. |
| `KernelList.List.GetNextEntry` | freertos/inc/list.h:276-287 | The index moves to the next item, past the end marker, and that item is returned. |
| `KernelList.List.GetDisinheritPriorityAfterTimeout` | freertos/src/queue.c:2015-2035 | With the receivers in the order vListInsert keeps, the value read from the head item is the highest priority of all that wait; the idle priority if nobody does. |
| `BoundedQueue.FirstInFirstOut` | freertos/src/queue.c:2040-2134 | With sends to the back only, the items received followed by the items still queued are the items accepted, in order, over any run. |
| `BoundedQueue.LastInFirstOut` | freertos/src/queue.c:2082-2111 | Items sent to the front of a queue with room for them are received next, the latest first, and then the queue is as before; so a receive straight after one returns that item. |
| `BoundedQueue.ItemsConserved` | freertos/src/queue.c:2040-2134 | Over any run of sends to either end, overwrites, receives and peeks, the items accepted are those received, queued and overwritten. |
| `BoundedQueue.NothingLost` | freertos/src/queue.c:2092-2111 | Only an overwrite loses an item. |
| `BoundedQueue.LatestStays` | freertos/src/queue.c:2092-2111 | What was written over a queue of length one is what every later peek finds. |
| `RingBuffer.PickAppend` | freertos/src/queue.c:2066-2081 | Writing behind the last item of a ring that is not full appends to its contents. |
| `RingBuffer.PickPrepend` | freertos/src/queue.c:2082-2111 | Writing where the last item was read, and stepping back, prepends to its contents. |
| `RingBuffer.PickRest` | freertos/src/queue.c:2119-2134 | Stepping the read position forward drops the first item. |
| `RingBuffer.Queue.Reset` | freertos/src/queue.c:253-260 | The queue is empty with its positions as a new queue has them. |
| `RingBuffer.Queue.CopyDataToQueue` | freertos/src/queue.c:2040-2115 | Send to back puts the item behind the contents, send to front before them, an overwrite in place of them; every copy stays inside the storage. The bound on the count fails exactly for an overwrite of a full queue whose items have size zero. |
| `RingBuffer.Queue.CopyDataFromQueue` | freertos/src/queue.c:2119-2134 | The item copied out is the first one queued. |
| `RingBuffer.Queue.Receive` | freertos/src/queue.c:1266-1277 | Receive removes and returns the first item, or fails on an empty queue. |
| `RingBuffer.Queue.Peek` | freertos/src/queue.c:1634-1645 | Peek returns the first item and changes nothing. |
| `RingBuffer.Queue.GenericSend` | freertos/src/queue.c:746-755 | The send, items of size zero included, is accepted exactly when there is room or it overwrites; then the item is behind the old contents, before them, or all there is, as its position asks. The count leaves its bound exactly when an overwrite of items of size zero finds the queue full. |
| `RingBuffer.Queue.RunCalls` | freertos/src/queue.c:725-1378 | Over any run of sends to either end, overwrites, receives and peeks on the ring itself: no item is made up, none lost but those overwritten; with sends to the back only, the items received followed by those still in the ring are those that were in it followed by those accepted. |
| `EventList.WakeOneSound` | freertos/src/queue.c:808-825 | Waking one waiter accounts for one more item. |
| `EventList.SignalSound` | freertos/src/queue.c:969-1058 | An interrupt on a locked or unlocked queue accounts for the item it adds, short of the limit of the counter. |
| `EventList.UnlockSound` | freertos/src/queue.c:2137-2254 | Unlocking wakes a task for every event counted, as long as there are waiters: the bound holds without the counter afterwards. |
| `EventList.RerunSound` | freertos/src/queue.c:1266-1325 | A task that runs again and takes an item, or finds none, leaves the rest accounted for. |
| `QueueProtocol.ShapeKept` | freertos/src/queue.c:725-1378 | Every step of every task, and of every interrupt that finds the lock counter below its limit, keeps tasks on at most one event list, in the matching part of their call, and each half of the queue locked exactly while the scheduler holder is between locking and unlocking it. |
| `QueueProtocol.PlacementKept` | freertos/src/queue.c:1331-1342 | What arrives between the second look at the queue and the placement on the event list is counted, short of the limit of the counter. |
| `QueueProtocol.ReceiversKept` | freertos/src/queue.c:1239-1378 | Every such step keeps the bound for receivers. |
| `QueueProtocol.SendersKept` | freertos/src/queue.c:725-920 | Every such step but a reset keeps the bound for senders. |
| `QueueProtocol.NoLostWakeUp` | freertos/src/queue.c:725-920 | No lost wake-up: over every interleaving of senders, receivers, peekers, time-outs and interrupts in which no lock counter overflows. |
| `QueueProtocol.NobodySleepsOnAMessage` | freertos/src/queue.c:2137-2254 | From any new queue, over any run in which no lock counter overflows: while a receiver waits, messages are at most the tasks woken that have not looked yet, plus cTxLock while locked; all of them are on their way to look. The dual holds for senders without resets. |
| `QueueProtocol.SignalKeepsBoundIff` | freertos/src/queue.c:1053-1058 | The int8_t lock counter keeps the bound exactly when it is below its limit or nobody waits. |
| `QueueProtocol.OverflowLosesReceiver` | freertos/src/queue.c:1053-1058 | Reached from a new queue: after 127 interrupts in one locked period all is accounted for, and with one more the unlocked queue has a message, a receiver asleep and nobody woken. |
| `QueueProtocol.ResetKeepsSendersIff` | freertos/src/queue.c:262-283 | xQueueReset keeps the bound for senders exactly when waking one is enough. |
| `QueueProtocol.ResetLosesSender` | freertos/src/queue.c:262-283 | A reachable state in which a reset leaves a sender asleep beside a free slot that nobody is there to fill. |
| `QueueCalls.LookInVain` | freertos/src/queue.c:1303-1325 | A call that finds nothing, or no room, leaves messages and waiting lists as they are; it returns at once exactly when it has no block time. |
| `QueueCalls.LookSucceeds` | freertos/src/queue.c:1266-1300 | A call that finds what it asks for returns in that step whatever its block time, with one message less, one more, or as many for a peek or an overwrite, and the first task that waits for that, and no other, is awake. |
| `QueueCalls.InterruptSends` | freertos/src/queue.c:969-1071 | A send from an interrupt adds a message if there is room or it overwrites, and wakes the first receiver, or counts once while the queue is locked; otherwise it changes nothing. |
| `QueueCalls.InterruptReceives` | freertos/src/queue.c:1772-1838 | A receive from an interrupt takes a message if there is one, and wakes the first sender, or counts once while the queue is locked; otherwise it changes nothing. |
| `QueueCalls.TimeOutTakesOne` | freertos/src/queue.c:1331-1342 | A tick that ends the wait of a task takes just it off its list and wakes nobody else. |
| `QueueCalls.ResetEmpties` | freertos/src/queue.c:247-297 | A reset leaves no message, unlocks both halves and wakes the first sender. |
| `QueueCalls.UnlockWakesFirst` | freertos/src/queue.c:2137-2254 | Unlocking wakes as many tasks as were counted, the first of the list, or all there are. |
| `QueueCalls.NeverBlocks` | freertos/src/queue.c:1303-1310 | In any run, a task whose every look at the queue is without a block time never suspends the scheduler, is never on an event list and never blocked. |
| `QueueCalls.FailsWithReason` | freertos/src/queue.c:1239-1378 | A call to receive or peek gives up exactly on an empty queue, in that step, with no block time or its time over; a call to send exactly on a full queue without a block time, or when its time is over. |
| `QueueCalls.LateMessageIsSeen` | freertos/src/queue.c:1358-1375 | A receiver whose time is over beside a message goes back for it. |
| `QueueCalls.LooksAgain` | freertos/src/queue.c:1333-1356 | A task that finds, with the queue locked, that there is something after all, looks again and does not sleep. |
| `QueueCalls.PatientCallsSucceed` | freertos/src/queue.c:1239-1378 | In any run, a call whose block time never ends does not give up. |
| `QueueCalls.ExpiredCallLeaves` | freertos/src/queue.c:1358-1375 | In any run, a task whose time was over at its look at the clock is on no event list until it looks at the queue again. |
| `QueueCalls.MessagesConserved` | freertos/src/queue.c:725-1838 | Over any run, messages are those at the start, plus accepted sends other than overwrites of a message, less successful receives, less what resets discard. |
| `QueueCalls.MostUrgentIsWoken` | freertos/src/queue.c:800-825 | Over any run in which tasks go on the lists by their priorities, as vListInsert puts them, a task that an event takes off a list was before every task it leaves there, and is at least as urgent. |
| `SharedQueue.Queue.LockQueue` | freertos/src/queue.c:232-245 | prvLockQueue on the fields is the protocol step. |
| `SharedQueue.Queue.UnlockTx` | freertos/src/queue.c:2145-2223 | The loop over the tasks waiting to receive is the one-shot unlocking of that side. |
| `SharedQueue.Queue.UnlockRx` | freertos/src/queue.c:2225-2253 | The loop over the tasks waiting to send is the one-shot unlocking of that side. |
| `SharedQueue.Queue.TrySend` | freertos/src/queue.c:746-870 | The critical section of a send is the protocol step: accepted with room or overwriting, then counted and the first receiver woken; otherwise it returns exactly without a block time. |
| `SharedQueue.Queue.TryReceive` | freertos/src/queue.c:1266-1325 | The critical section of a receive is the protocol step: with a message it takes one and wakes the first sender; otherwise it returns exactly without a block time. |
| `SharedQueue.Queue.TryPeek` | freertos/src/queue.c:1628-1694 | The critical section of a peek is the protocol step: with a message it wakes another receiver, as the message stays; otherwise it returns exactly without a block time. |
| `SharedQueue.Queue.SendFromISR` | freertos/src/queue.c:923-1071 | A send from an interrupt is the protocol step, with the counter instead of the list while the queue is locked. |
| `SharedQueue.Queue.ReceiveFromISR` | freertos/src/queue.c:1750-1838 | A receive from an interrupt is the protocol step. |
| `SharedQueue.Queue.GenericReset` | freertos/src/queue.c:247-297 | A reset of a queue in use is the protocol step. |
| `RecursiveMutex.ExclusiveKept` | freertos/src/queue.c:574-664 | Every step, the unprotected tests, reads and writes included, keeps the mutex available exactly when nobody holds it, and only the holder inside the parts that change the count; a task never waits for a mutex it holds. |
| `RecursiveMutex.OthersLeaveHolderAlone` | freertos/src/queue.c:581-596 | No step of another task changes whether a task is the holder, nor the count of the holder: the test of pxMutexHolder needs no protection. |
| `RecursiveMutex.AccountedKept` | freertos/src/queue.c:574-664 | Every step keeps the count in step with the calls that succeeded, in 32 bits. |
| `RecursiveMutex.RecursiveMutexWorks` | freertos/src/queue.c:574-664 | Over every interleaving: available exactly when pxMutexHolder is NULL, and between calls takes less gives are the count for the holder and none for others, modulo 2^32. |
| `RecursiveMutex.CountIsTakesLessGives` | freertos/src/queue.c:574-664 | Exactly so, and at least one for the holder, over runs of any length in which no task has 2^32 takes outstanding at once. |
| `RecursiveMutex.AtMostOneHolds` | freertos/src/queue.c:574-664 | Over runs of any length in which no task has 2^32 takes outstanding at once: at most one task has takes outstanding, and then the mutex is not available. |
| `RecursiveMutex.NestingForgottenIff` | freertos/src/queue.c:640-656 | A take leaves a held mutex with a count of zero exactly when the count was at its 32-bit limit. |
| `RecursiveMutex.Nest` | freertos/src/queue.c:633-664 | A task can nest its takes to any depth below 2^33: a run that does, with the count wrapped at 2^32. |
| `RecursiveMutex.NestingForgotten` | freertos/src/queue.c:574-664 | A run, of 2^32 + 1 takes and one give by one task, that ends with the mutex available and without a holder while that task has 2^32 takes outstanding. |
| `RecursiveMutex.GiveByNonHolderRefused` | freertos/src/queue.c:587-620 | A give by a task that is not the holder is refused and changes nothing, whatever the others do meanwhile. |
| `RecursiveMutex.LastGiveFrees` | freertos/src/queue.c:596-604 | The give that unwinds the count always finds room to return the mutex. |
| `RecursiveMutex.AcquireWaits` | freertos/src/queue.c:1420-1500 | A take of a mutex held by another changes nothing while it has time left, and times out when it has none; a take of a free mutex makes the caller its holder even at the last moment. |
| `RecursiveMutex.OutcomesRight` | freertos/src/queue.c:574-664 | A take succeeds for the holder alone, and times out only while another holds the mutex; a give succeeds for the holder and is refused to others. |
| `RecursiveMutex.PatientTakesSucceed` | freertos/src/queue.c:633-664 | In any run, a take whose block time never ends does not time out. |
| `RecursiveMutex.Mutex.constructor` | freertos/src/queue.c:452-475 | A new mutex is available, without a holder, with a count of zero. |
| `RecursiveMutex.Mutex.GiveMutexRecursive` | freertos/src/queue.c:574-626 | The function takes the steps of the protocol, passes exactly for the holder. |
| `RecursiveMutex.Mutex.TakeMutexRecursive` | freertos/src/queue.c:633-664 | The function takes the steps of the protocol, passes exactly when the mutex is free or held by the caller. |
| `RecursiveMutex.Mutex.SemaphoreTake` | freertos/src/queue.c:1420-1441 | Taking the mutex makes the caller its holder. |
| `RecursiveMutex.Mutex.GenericSend` | freertos/src/queue.c:2049-2063 | Giving it leaves it without a holder. |
| `EventBits.OrderDoesNotMatter` | freertos/src/event_groups.c:504-596 | Bits, values handed out and the set of tasks left do not depend on the order of the waiting list. |
| `EventBits.KeptIn` | freertos/src/event_groups.c:526-585 | Exactly the waiters that the new bits do not satisfy stay. |
| `EventBits.KeptInOrder` | freertos/src/event_groups.c:526-585 | What stays keeps its order. |
| `EventBits.SetBitsSplits` | freertos/src/event_groups.c:504-596 | A waiter for all its bits stays exactly when one of them is not set, a waiter for any exactly when none is; who goes is handed the bits and the bit that says why, and nothing else. |
| `EventBits.SetBitsClears` | freertos/src/event_groups.c:560-590 | A bit is set afterwards exactly when it was or is being set and no waiter that goes wants it cleared. |
| `EventBits.ConditionIs` | freertos/src/event_groups.c:656-690 | prvTestWaitCondition, bit by bit: each bit awaited is set, or some bit is. |
| `EventGroupObject.EventGroup.SetBits` | freertos/src/event_groups.c:504-596 | The loop over the list amounts to the one-shot outcome: it removes exactly the waiters satisfied by old or set, hands each of them that with the unblocked flag, keeps the rest in order, and leaves those bits minus what the removed waiters clear. |
| `EventGroupObject.EventGroup.LookAt` | freertos/src/event_groups.c:532-585 | One turn of the loop, on the list as a sequence walked by position: the item leaves and the next takes its place, or the pass goes on behind it. |
| `EventGroupList.LookAt` | freertos/src/event_groups.c:530-585 | One turn of the loop on the linked list: pxNext, fetched before the item may leave, is the item that followed it; the item leaves, handed the bits, exactly when they satisfy it. |
| `EventGroupList.WakeWaiters` | freertos/src/event_groups.c:526-586 | The loop walks the linked list while items leave it: it ends, the items that stay are the unsatisfied ones in their order, every other is off the list with the bits in its value, and the mask to clear is that of the items gone. |
| `EventGroupList.SetBits` | freertos/src/event_groups.c:504-596 | On the linked list the call has the one-shot outcome of EventBits.SetBits: bits left and waiters left. |
| `EventWord.WordOfNumber` | freertos/src/event_groups.c:540-546 | Every set of bit positions is the word of a 32-bit number, so that item values can hold any event bits. |
| `EventWord.NumberOfBit` | freertos/src/event_groups.c:540-546 | Bit b of a word is worth 2^b. |
| `EventGroupObject.EventGroup.MatchesBits` | freertos/src/event_groups.c:540-560 | The test in the loop: each of the bits waited for is set, or some bit is, control bits apart. |
| `EventGroupObject.EventGroup.ClearBits` | freertos/src/event_groups.c:446-470 | Exactly the bits named are cleared; the bits before are returned. |
| `EventGroupObject.EventGroup.WaitBits` | freertos/src/event_groups.c:296-382 | Up to its block, the call is the protocol step: it returns at once exactly without a block time, or with each bit awaited set, or some bit for any; with the bits as they were, and the bits awaited cleared exactly if they were met and are to be. |
| `EventGroupObject.EventGroup.Sync` | freertos/src/event_groups.c:176-234 | Up to its block, the call is the three protocol steps, which leave the scheduler running; it returns at once exactly without a block time, or if each bit awaited was set or is being set, and then clears those. |
| `EventGroupObject.EventGroup.Unblock` | freertos/src/event_groups.c:384-440 | What a call does when its task runs again is the protocol step: it returns the bits handed over, or, timed out, the bits there are, control bits apart. |
| `EventGroup.SoundKept` | freertos/src/event_groups.c:176-596 | Every step keeps every waiter blocked on a false condition, and every control bit out of the bits. |
| `EventGroup.NobodyLeftBlocked` | freertos/src/event_groups.c:176-596 | Over every interleaving of set, clear, wait, sync and time-outs: of the bits a waiting task awaits, one is missing if it waits for all, and none is set if it waits for any; no control bit is ever set; and a task unblocked by bits returns each of its bits, or some bit of them. |
| `EventGroupCalls.ClearBitsClears` | freertos/src/event_groups.c:446-470 | A clear takes away exactly the bits named and changes nothing else. |
| `EventGroupCalls.WaitBitsReturns` | freertos/src/event_groups.c:319-382 | A wait returns at once, with the bits there were, exactly when they meet it or it has no block time, and else goes to the end of the list with an item that says what for; it clears exactly the bits awaited, exactly when met and to be cleared. |
| `EventGroupCalls.SyncReturns` | freertos/src/event_groups.c:191-234 | What the end of a sync returns, clears, or blocks for. |
| `EventGroupCalls.RunAgainReturns` | freertos/src/event_groups.c:384-440 | A task that runs again returns the bits it was handed, or, timed out, the bits there are, and then clears its bits exactly if they have come after all. |
| `EventGroupCalls.TimeOutTakesOne` | freertos/src/event_groups.c:384-440 | A tick takes just this task off the list, its item as it was. |
| `EventGroupCalls.StaysClear` | freertos/src/event_groups.c:504-596 | Over any run, a bit that nobody sets stays clear. |
| `EventGroupCalls.StaysSet` | freertos/src/event_groups.c:176-596 | Over any run, a set bit that nobody clears, by call or on leaving a wait, stays set. |
| `Rendezvous.RoundGoesOn` | freertos/src/event_groups.c:191-234 | A party that sets its bits while others are missing wakes no party. |
| `Rendezvous.RoundCompletes` | freertos/src/event_groups.c:191-234 | The last party to set its bits wakes all the others with all the bits, and the next round begins. |
| `Rendezvous.RoundStep` | freertos/src/event_groups.c:176-293 | Every permitted step keeps every party in round r or just inside the next, with its bits set exactly while it waits. |
| `Rendezvous.NobodyLeavesEarly` | freertos/src/event_groups.c:176-293 | No call of a party returns before every party has entered its call of the same number, and every value returned contains all the bits, for any number of parties and any other tasks that do not write their bits. |
| `Rendezvous.BitsClearWhenComplete` | freertos/src/event_groups.c:176-293 | When every party has entered equally often, and no call is under way, nobody waits and the bits are clear. |
| `ItemList.InsertIsSorted` | freertos/src/list.c:103-167 | The list insertion used here is that of vListInsert. |
| `CoRoutine.AddToReadyOk` | freertos/src/croutine.c:67-74 | The ready lists and uxTopCoRoutineReadyPriority stay in step. |
| `CoRoutine.DispatchesHighest` | freertos/src/croutine.c:286-303 | vCoRoutineSchedule calls the next in turn of the highest priority with a ready co-routine, or none when none is ready. |
| `CoRoutine.DescendFinds` | freertos/src/croutine.c:286-294 | The descent stops at the highest priority with a ready co-routine. |
| `CoRoutine.WakeTime` | freertos/src/croutine.c:165-188 | The comparison of the wrapped wake time with the tick count tells whether the delay ends after the wrap. |
| `CoRoutine.TickKept` | freertos/src/croutine.c:225-241 | A tick keeps the invariant; when the count wraps, the list retired is empty. |
| `CoRoutine.HeadIsDue` | freertos/src/croutine.c:244-270 | A delay ends only at the very tick it was to end. |
| `CoRoutine.InvKept` | freertos/src/croutine.c:102-350 | Every step of scheduler, co-routines and interrupts keeps the invariant. |
| `CoRoutine.ListsStayConsistent` | freertos/src/croutine.c:102-350 | In every reachable state each generic item is on exactly one ready or delay list, each event item on at most one list and only while its co-routine is delayed, and uxTopCoRoutineReadyPriority bounds the ready priorities. |
| `CoRoutine.RetiredListIsEmpty` | freertos/src/croutine.c:231-241 | Whenever the lists are swapped the one retired is empty. |
| `CoRoutine.WakesExactly` | freertos/src/croutine.c:159-275 | A co-routine that delays itself by d at time T, unbounded, becomes ready by its delay exactly while tick T + d is processed, wherever the count wraps, or by an event no later. |
| `CoRoutine.CaughtUp` | freertos/src/croutine.c:220-275 | After the ticks have been processed, the count is the tick count read, and every co-routine that is not ready is due later. |
| `CoRoutine.SchedulesHighest` | freertos/src/croutine.c:278-305 | In every reachable state the call goes to a ready co-routine of maximal priority, or to none when none is ready. |
| `CoRoutineEvents.EventGoesPending` | freertos/src/croutine.c:328-350 | An event leaves the first item of its list last on the pending list, and every other item where it was. |
| `CoRoutineEvents.EventReadies` | freertos/src/croutine.c:197-350 | Over any run: the co-routine taken by an event, while a co-routine runs or pending ones are made ready, has become ready exactly once, and is ready, when the next co-routine is called. |
| `CoRoutineEvents.EventDuringTicks` | freertos/src/croutine.c:220-350 | If the event comes while the ticks are processed, that is so exactly when its delay is over by then; otherwise the co-routine is still pending at that call. |
| `CoRoutineEvents.PendingIsServed` | freertos/src/croutine.c:197-305 | Whatever is pending at a call of a co-routine has become ready exactly once, and is ready, at the call after it. |
| `CoRoutineEvents.EventMissesCall` | freertos/src/croutine.c:278-305 | A run in which an event comes too late for the next call. |
| `CoRoutineEvents.EventTakesMostUrgent` | freertos/src/croutine.c:186-194 | In every reachable state, the co-routine that an event takes has the highest priority of all that wait for it. |
| `CoRoutineEvents.DelayAwaits` | freertos/src/croutine.c:159-194 | A delay takes the current co-routine off the ready lists and puts it on the event list given, or on none. |
| `CoRoutineEvents.CreatedIsReady` | freertos/src/croutine.c:102-156 | A new co-routine is ready at the priority asked for, or the highest there is; its turn comes last but for the one whose turn it is. |
| `CoRoutineEvents.WokenInTurn` | freertos/src/croutine.c:197-271 | So does the turn of a co-routine made ready by an event or by its delay; nothing changes at other priorities. |
| `CoRoutineEvents.TurnsAreFair` | freertos/src/croutine.c:278-305 | With n co-routines ready at the highest ready priority, n calls of the scheduler call each of them once. |
| `CoRoutine.ZeroDelayAtWrap` | freertos/src/croutine.c:165-188 | Of all delays below 2^32 only zero, at the last tick before the wrap, would be left on the list that is retired; ZeroDelay.DelayEndsExactly says when it ends. |
| `ZeroDelay.DelayEndsExactly` | freertos/src/croutine.c:159-275 | The exact end of every delay 0 <= d < 2^32 at any time T, whatever runs: T + d for d > 0; for zero the next tick, but 2^33 ticks later at the last tick before the wrap; or an event makes the co-routine ready no later. |
| `CoRoutineScheduler.CoRoutines.constructor` | freertos/src/croutine.c:308-325 | The variables start as the initial state of the model. |
| `CoRoutineScheduler.CoRoutines.AddCoRoutineToReadyQueue` | freertos/src/croutine.c:67-74 | The macro is the model function. |
| `CoRoutineScheduler.CoRoutines.CreateCoRoutine` | freertos/src/croutine.c:102-156 | The call is the model step, at the priority asked for or the highest there is. |
| `CoRoutineScheduler.CoRoutines.AddToDelayedList` | freertos/src/croutine.c:159-194 | The call is the model step. |
| `CoRoutineScheduler.CoRoutines.RemoveFromEventList` | freertos/src/croutine.c:328-350 | The interrupt is the model step: the first item goes from the event list to the end of the pending list; it reports whether the co-routine is at least as urgent as the current one. |
| `CoRoutineScheduler.CoRoutines.CheckPendingReadyList` | freertos/src/croutine.c:197-217 | The loop ends, whatever interrupts come, with the pending list empty; what it does is a run of model steps. |
| `CoRoutineScheduler.CoRoutines.ExpireAll` | freertos/src/croutine.c:244-271 | The inner loop ends, whatever interrupts come; what it does is a run of model steps that leaves no delay over at this tick. |
| `CoRoutineScheduler.CoRoutines.CheckDelayedList` | freertos/src/croutine.c:220-275 | The nested loops are a run of model steps that processes every tick passed. |
| `CoRoutineScheduler.CoRoutines.Schedule` | freertos/src/croutine.c:278-305 | The whole call is a run of model steps, ends with the count caught up, and picks a ready co-routine of maximal priority. |
| `Numerals.DigitsReadBack` | freertos/src/printf-stdarg.c:103-109 | The digits of any number, in any base, read back as it. |
| `Numerals.DigitsFit` | freertos/src/printf-stdarg.c:79-80 | A number has at most k digits exactly when it is less than the k-th power of the base. |
| `Numerals.DigitBufferIff` | freertos/src/printf-stdarg.c:79-80 | The 12-byte digit buffer has room for every 32-bit number exactly when the base is at least eight. |
| `Numerals.NaturalFits` | freertos/src/printf-stdarg.c:82-122 | With its sign, every number fits the digit buffer. |
| `Numerals.FormattedLength` | freertos/src/printf-stdarg.c:49-122 | The field is as long as the width asked for, or as the number needs. |
| `Numerals.FormattedReads` | freertos/src/printf-stdarg.c:82-122 | What any field reads back as, for every 32-bit value, width and flags. |
| `Numerals.ReadsBackIff` | freertos/src/printf-stdarg.c:82-122 | It is the value exactly, unless zeros are asked for on the right and put behind a number that is not zero. |
| `Printf.Prints` | freertos/src/printf-stdarg.c:49-77 | The padded string is written, nothing else is touched, and its length returned. |
| `Printf.PrintDigits` | freertos/src/printf-stdarg.c:100-109 | The digits fill the buffer from its end. |
| `Printf.Printi` | freertos/src/printf-stdarg.c:82-122 | The field is written, nothing else is touched, and its length returned, for every 32-bit value. |
| `Printf.ParseSpec` | freertos/src/printf-stdarg.c:135-147 | The loops read flags, width and letter of a conversion. |
| `Conversions.SpecReadsBack` | freertos/src/printf-stdarg.c:135-147 | Whatever sign, zeros, width and letter are written are read: the flags, the width in tens, the letter, and where the specification ends. |
| `Conversions.OneConversion` | freertos/src/printf-stdarg.c:131-182 | In a text with one conversion, the converted argument takes its place, and nothing does if the letter is no conversion; the rest is copied. |
| `Conversions.PercentSign` | freertos/src/printf-stdarg.c:133-186 | Two percent signs stand for one. |
| `Conversions.LonePercent` | freertos/src/printf-stdarg.c:131-134 | One at the end stands for nothing. |
| `Conversions.IntReadsBack` | freertos/src/printf-stdarg.c:152-167 | d reads back as the int, u, x and X as the unsigned int of the same bits, in tens or sixteens, for every width and flags, exactly unless zeros go behind a number that is not zero; the field is as long as asked for. |
| `Conversions.IntCharacters` | freertos/src/printf-stdarg.c:152-167 | Only d writes a sign; x writes small letters, X capital ones. |
| `Conversions.TextPadded` | freertos/src/printf-stdarg.c:147-175 | A string, "(null)" or a character stands at the end the minus sign asks for, the rest of the width is blanks or zeros. |
| `Printf.PrintOne` | freertos/src/printf-stdarg.c:131-182 | One turn of the loop writes the next part of the text. |
| `Printf.Sprintf` | freertos/src/printf-stdarg.c:125-214 | The text the format stands for is written with its terminator, nothing else is touched, and its length returned. |
| `StatusFrame.FrameLength` | com/src/net_values.c:75-78 | The status frame has at most 91 characters. |
| `StatusFrame.FrameDecodes` | com/src/net_values.c:42-78 | A receiver that takes just the fourteen words of the protocol decodes the frame to exactly the values it was made from. |
| `StatusFrame.FrameText` | com/src/net_values.c:75-78 | The text of the frame, word by word, with the words for each flag. |
| `StatusFrame.RendersFrame` | com/src/net_values.c:75-78 | The format string yields the frame: twelve words, a blank behind each. |
| `StatusFrame.RTUData.SetFlag` | com/src/net_values.c:42-68 | The word of a flag just fills its nine characters. |
| `StatusFrame.RTUData.SetNumbers` | com/src/net_values.c:37-72 | Positions are copied, frequencies cut to 16 bits, the server status to 8. |
| `StatusFrame.RTUData.NetValuesToSendFromRTU` | com/src/net_values.c:30-81 | Every member has the value, or the word, that the axis or the lift calls for; frame and terminator end inside the 100-byte buffer and nothing behind them is written; the frame decodes to every value. |

## Left out

- Payload bytes of the heap: only the header words are in memory, by address; a program that overwrites a header is outside the model.
- Freeing a pointer that pvPortMalloc never returned: a precondition, as in the code.
- What list items own: pvOwner is a task number, and the walk returns the item whose owner the macro reads. Apart from EventGroupList, other modules use lists by value.
- Queue sets, the registry, tracing, static allocation and the MPU wrappers: configured out.
- Priority inheritance and everything else inside the task scheduler; on an event list every position is considered for a new task, and QueueCalls.MostUrgentIsWoken speaks of runs in which priorities stay as they are.
- RingBuffer.Queue.RunCalls: an overwrite in the run is of items that have a size; RingBuffer.Queue.CopyDataToQueue says what one of size zero does.
- Task deletion and suspension while a task waits on a queue: the bounds do not account for a woken task that never runs.
- QueueProtocol.NobodySleepsOnAMessage: speaks of runs in which every interrupt finds the lock counter below 127, as the code loses events otherwise; QueueProtocol.SignalKeepsBoundIff says when, and QueueProtocol.OverflowLosesReceiver shows a run that does.
- The queue calls of co-routines: they wake one co-routine per interrupt on purpose.
- RecursiveMutex.Mutex.TakeMutexRecursive: the method is one call without other tasks in between, so a wait for the mutex ends with the time-out at once; the lemmas on runs are about every interleaving of its steps.
- The value returned by xEventGroupSetBits, which is read after the scheduler has been resumed; in EventGroupObject.EventGroup.SetBits nothing comes in between.
- vEventGroupDelete and the calls that interrupts defer to the timer task: they add only easy steps.
- The list links under the co-routine lists: those lists are sequences of items; KernelList is about the links.
- printf to the serial port, and a width beyond the range of int.
- The receiving half of net_values.c, the axis and lift control, start-up code and network plumbing: finite tables, or code around files that are not part of this model.
