# Verified models of the RT-Thread kernel and its Kconfig evaluator

This project models the uniprocessor RT-Thread 4.0.0 kernel (`src/`, `include/rtservice.h`) and two parts of
`tools/kconfiglib.py` in Dafny, and proves what their data structures and protocols keep over every run.

- **IPC** (`IpcList`, `Mailbox`, `MessageQueue`, `Event`, `Mutex`). Each stretch of code with interrupts disabled is one
  atomic step; a call that blocks or opens a second section is several steps, and any other thread, interrupt or
  time-out may come between them. A pure `Step` function gives the protocol, lemmas give what every step and every run
  keeps, and a class carries the source's fields, with one method per section proved equal to its step. What the steps
  mean is also stated apart from them, over the callers' actions: `MailsInOrder`, `QueueIsDeque`, `BitsStay`,
  `PriorityIsInherited`.
- **Allocators** (`Tiling`, `SmallHeap` for mem.c, `Ring` and `MemHeap` for memheap.c, `PageRuns` and `Slab` for slab.c).
  Headers are maps from addresses to fields, written in the source's order; a ghost layout says what they mean.
- **Timers** (`TimerSpec`, `Timer`). A stable sorted list on an unbounded clock is the specification; the skip list on
  wrapping 32-bit ticks is proved to be it.
- **Scheduler** (`FirstBit`, `Ready`, `Scheduler`). Queues by priority, the two-level bitmap that speeds up the search,
  and the thread operations that move threads between them.
- **Kconfig** (`KconfigExpr`, `KconfigMemo`). The expression printer against the token parser, and the memoised
  evaluator with its early-stopping invalidation against evaluation without caches, whose values are the least ones that
  meet the demands on each symbol (`SolutionIsLeast`).

`dafny verify dfyconfig.toml` checks everything.

Where the code does not keep a tempting property, the model follows the code and states when it does:

- The small heap's search bound is strict: with a lowest hint an allocation fails exactly when every free block with room
  is the exactly fitting last one (`FailsThoughRoom`), as on every new heap asked for all of it (`WholeHeapRefused`). A
  shrinking realloc leaves free space below the hint exactly when the cut lies below the hint and the hint is not on the
  block the cut merges with (`Heap.Realloc`, `ShrinkStrandsSpace`). `prev` of the end marker is not maintained and not
  claimed.
- A mutex's nesting counter has 8 bits (`NestedTakeExact`, `OverrunFails`); a FIFO hand-over boosts nobody
  (`FifoHandOverExact`, `FifoHandOverFails`).
- slab.c promises that power-of-two allocations are aligned to their size. Up to the page size this always holds; above
  it, exactly when the page that will serve the request is aligned (`Allocator.Malloc`), and it fails for every such size
  (`Misaligned`, `MisalignedChunk`). The source's comment says that freed chunks are used first; the code uses fresh ones
  first, and so does the model. A freed large block keeps its page type in the table.

Assumptions: 32-bit addresses with RT_ALIGN_SIZE 4, headers of 12 bytes in mem.c, 24 in memheap.c and 36 for
a slab zone; 4096-byte pages;
256 priorities; RT_ASSERT conditions are preconditions. Time-outs, the choice of a skip-list height, the waiting time of
a call and thread priorities are parameters or separate steps, so they are arbitrary.

## Model

| member | source | states |
|---|---|---|
| `SmallHeap.Heap.constructor` | rt-thread--backups--LK--12.8/src/mem.c:204-265 | the new heap is one free block and the end marker, the hint is lowest, nothing is counted as used |
| `SmallHeap.Heap.PlugHoles` | rt-thread--backups--LK--12.8/src/mem.c:156-194 | the freed block is merged with both free neighbours, no two free blocks are adjacent afterwards, used bytes, live blocks and their data stay, and a hint that was lowest stays lowest |
| `SmallHeap.Heap.SplitBlock` | rt-thread--backups--LK--12.8/src/mem.c:331-352 | the headers written by a split describe the tiling with the block cut in two; `prev` stays the inverse of `next` except at the end marker; no live byte is overwritten |
| `SmallHeap.Heap.Search` | rt-thread--backups--LK--12.8/src/mem.c:305-320 | finds the first fitting block from the hint on; null exactly when none below the strict search bound fits |
| `SmallHeap.Heap.AdvanceHint` | rt-thread--backups--LK--12.8/src/mem.c:380-387 | the hint moves to a free block or the end marker, and to the lowest one if it was lowest before |
| `SmallHeap.Heap.Malloc` | rt-thread--backups--LK--12.8/src/mem.c:272-410 | the blocks tile the heap, no two free blocks adjacent, `used_mem` is the sum over used blocks; null exactly when the request is zero, too big or has no fitting block from the hint below the bound, and with a lowest hint exactly when every free block with room is the exactly fitting last one; otherwise the first fitting block is split or given whole, and every byte of every live block kept; `max_mem` is the greatest `used_mem` so far |
| `SmallHeap.Heap.Free` | rt-thread--backups--LK--12.8/src/mem.c:546-609 | exactly the freed block leaves the live set, `used_mem` falls by its length, shape and accounting hold, other data are kept, a lowest hint stays lowest |
| `SmallHeap.Heap.Shrink` | rt-thread--backups--LK--12.8/src/mem.c:471-493 | shrinking keeps shape and data; whether the hint remains lowest is decided by the hint, the cut and the next block before the call |
| `SmallHeap.Heap.Move` | rt-thread--backups--LK--12.8/src/mem.c:500-513 | the copy carries the first min(old, new) bytes to the new block, and all other live data stay |
| `SmallHeap.Heap.Realloc` | rt-thread--backups--LK--12.8/src/mem.c:421-513 | which of the four outcomes happens (refused, in place, moved, failed) and when; the first min(old, new) bytes of the block and all bytes of every other live block are kept, `used_mem` follows, also for a null pointer and for size 0; a lowest hint stays lowest unless the shrink strands space, decided before the call |
| `SmallHeap.Heap.Recovered` | rt-thread--backups--LK--12.8/src/mem.c:546-609 | when nothing is allocated the heap is again one free block with `used_mem` 0 and, for a lowest hint, the hint at offset 0 |
| `SmallHeap.NoFitMeansFull` | rt-thread--backups--LK--12.8/src/mem.c:305-307 | with a lowest hint a failed search means that no free block anywhere below the bound fits |
| `SmallHeap.ExactLastBlockSkipped` | rt-thread--backups--LK--12.8/src/mem.c:305-307 | of the free blocks with room the search passes over one if and only if it is the last block and fits exactly |
| `SmallHeap.FailsThoughRoom` | rt-thread--backups--LK--12.8/src/mem.c:305-307 | with a lowest hint no block is found if and only if every free block with room is the exactly fitting last one |
| `SmallHeap.WholeHeapRefused` | rt-thread--backups--LK--12.8/src/mem.c:272-307 | on a new heap of any size a request for all of it returns null |
| `SmallHeap.ShrinkHint` | rt-thread--backups--LK--12.8/src/mem.c:471-493 | after a shrink the hint is lowest if and only if it is not above the new free block |
| `SmallHeap.ShrinkStrandsSpace` | rt-thread--backups--LK--12.8/src/mem.c:471-493 | two allocations on a new heap and a shrinking realloc of the first leave a free block below the hint |
| `Tiling.CoalesceKeeps` | rt-thread--backups--LK--12.8/src/mem.c:156-194 | merging a free block with its neighbours keeps the tiling, the used bytes and the live blocks, and leaves no two free blocks adjacent |
| `Tiling.SplitKeeps` | rt-thread--backups--LK--12.8/src/memheap.c:188-236 | cutting a block keeps the tiling and changes used and free bytes by the exact amounts |
| `Tiling.BlocksReplace` | rt-thread--backups--LK--12.8/src/memheap.c:188-236 | exchanging neighbouring blocks for others of the same extent exchanges exactly those members of the set of blocks |
| `Ring.InsertFront` | rt-thread--backups--LK--12.8/include/rtservice.h:58-65 | the four pointer writes behind the list head put the node first and keep the circular doubly linked list |
| `Ring.InsertAt` | rt-thread--backups--LK--12.8/include/rtservice.h:58-80 | inserting behind any node puts the new node at that position of the list |
| `Ring.Remove` | rt-thread--backups--LK--12.8/include/rtservice.h:86-92 | the pointer writes of a removal leave the list without exactly that node |
| `MemHeap.Heap.constructor` | rt-thread--backups--LK--12.8/src/memheap.c:50-121 | one free block and the used tail tile the pool, the free list holds that block |
| `MemHeap.Heap.FreeInsert` | rt-thread--backups--LK--12.8/src/memheap.c:221-225 | the block becomes the first of the free ring |
| `MemHeap.Heap.FreeRemove` | rt-thread--backups--LK--12.8/src/memheap.c:215-219 | exactly that block leaves the free ring, and the others keep their order |
| `MemHeap.Heap.Search` | rt-thread--backups--LK--12.8/src/memheap.c:170-181 | the first block in free-list order that fits, or none exactly when no free block fits |
| `MemHeap.Heap.Alloc` | rt-thread--backups--LK--12.8/src/memheap.c:138-281 | null exactly when the rounded request is not below `available_size` or no free block fits; otherwise the first block of the free list that fits gives one new live block of at least the rounded size; ring, free list and `available_size` consistent, and the data of all live blocks kept; the block leaves the free list, a split-off rest goes to its front and all others keep their order; `max_used_size` is the greatest use so far |
| `MemHeap.Heap.MergeLeft` | rt-thread--backups--LK--12.8/src/memheap.c:541-557 | merging into a free predecessor keeps the tiling and the free list and counts the header as available |
| `MemHeap.Heap.MergeRight` | rt-thread--backups--LK--12.8/src/memheap.c:560-578 | a free successor is absorbed and leaves the free list; afterwards no two free blocks are adjacent |
| `MemHeap.Heap.Free` | rt-thread--backups--LK--12.8/src/memheap.c:495-595 | exactly the freed block leaves the live set, the free list again holds exactly the unused blocks with `available_size` their sum, and no header write touches live data; a free successor leaves the free list, and the block goes to its front unless it was merged into its predecessor, which stays where it is |
| `MemHeap.Heap.Move` | rt-thread--backups--LK--12.8/src/memheap.c:408-416 | the moved block starts with all bytes of the old one, and no other live data change |
| `MemHeap.Heap.GrowInPlace` | rt-thread--backups--LK--12.8/src/memheap.c:350-401 | growing over a free successor enlarges the block to the request and re-lists the remainder |
| `MemHeap.Heap.ShrinkInPlace` | rt-thread--backups--LK--12.8/src/memheap.c:432-491 | the cut-off end becomes a free block, merged to the right and listed |
| `MemHeap.Heap.Realloc` | rt-thread--backups--LK--12.8/src/memheap.c:284-492 | stays in place exactly when it shrinks, fits or can grow over its successor, with the resulting length; otherwise moved, or null exactly when an allocation would fail; the first min(old, new) bytes and the data of all other live blocks are kept |
| `IpcList.Suspend` | rt-thread--backups--LK--12.8/src/ipc.c:79-125 | FIFO: at the end; PRIO: behind all threads at least as urgent and before all others |
| `IpcList.SuspendSorted` | rt-thread--backups--LK--12.8/src/ipc.c:93-122 | a list ordered by priority stays ordered and equally urgent threads keep their arrival order |
| `IpcList.WakesFirst` | rt-thread--backups--LK--12.8/src/ipc.c:133-148 | the thread woken is the first of the list, on a PRIO object the most urgent; it alone leaves, and the others keep their places |
| `IpcList.SuspendsOne` | rt-thread--backups--LK--12.8/src/ipc.c:79-125 | a thread that suspends stands at its place, is no longer counted as woken, and moves nobody else |
| `IpcList.TimesOutOne` | rt-thread--backups--LK--12.8/src/thread.c:744-766 | exactly the waiter whose time is up leaves, it is not counted as woken, and the others keep their places |
| `IpcList.PutKeeps` | rt-thread--backups--LK--12.8/src/ipc.c:133-148 | one new unit and one wake-up keep the no-lost-wakeup relation |
| `IpcList.TakeKeeps` | rt-thread--backups--LK--12.8/src/ipc.c:1667-1688 | a thread taking a unit, woken for it or overtaking, keeps the relation |
| `IpcList.WakeAllKeeps` | rt-thread--backups--LK--12.8/src/ipc.c:156-182 | waking everybody keeps the relation |
| `Mailbox.StepKeepsInv` | rt-thread--backups--LK--12.8/src/ipc.c:1439-1752 | every interrupt-disabled section and every time-out keeps both wake-up relations and the FIFO order |
| `Mailbox.RunKeepsInv` | rt-thread--backups--LK--12.8/src/ipc.c:1439-1752 | the same for every interleaving of sections, time-outs and resets |
| `Mailbox.NoLostWakeups` | rt-thread--backups--LK--12.8/src/ipc.c:1439-1752 | in every reachable state: a waiting receiver means no more mails than woken receivers, a waiting sender means no more free slots than woken senders; mails leave in the order they were accepted |
| `Mailbox.NothingDropped` | rt-thread--backups--LK--12.8/src/ipc.c:1530-1690 | without resets the i-th mail delivered is the i-th accepted, and the rest is still in the ring |
| `Mailbox.AcceptedIsSent` | rt-thread--backups--LK--12.8/src/ipc.c:1526-1542 | in every run the accepted mails are the values of the send calls that found room, in order |
| `Mailbox.ReceivedIsSent` | rt-thread--backups--LK--12.8/src/ipc.c:1458-1711 | in every run without resets, what the receive calls took followed by what the ring holds is what the ring held followed by what was sent |
| `Mailbox.MailsInOrder` | rt-thread--backups--LK--12.8/src/ipc.c:1458-1711 | from initialisation, the i-th mail received is the i-th mail sent |
| `Mailbox.Box.constructor` | rt-thread--backups--LK--12.8/src/ipc.c:1291-1318 | an empty ring |
| `Mailbox.Box.SendSection` | rt-thread--backups--LK--12.8/src/ipc.c:1458-1559 | done exactly when there is room, and then the value sent, and no other, is appended to the mails and the first receiver is woken; otherwise nothing is accepted, and the sender is refused or put at its place of the list as the time-out says |
| `Mailbox.Box.RecvSection` | rt-thread--backups--LK--12.8/src/ipc.c:1604-1711 | done exactly when there is a mail, and then the oldest one accepted and still there is returned and leaves, and the first sender is woken; otherwise the mails stay and the receiver gives up or is put at its place of the list |
| `Mailbox.Box.SenderTimeout` | rt-thread--backups--LK--12.8/src/thread.c:744-766 | the timed-out sender leaves the list and nothing else changes |
| `Mailbox.Box.ReceiverTimeout` | rt-thread--backups--LK--12.8/src/thread.c:744-766 | the timed-out receiver leaves the list and nothing else changes |
| `Mailbox.Box.ResetBox` | rt-thread--backups--LK--12.8/src/ipc.c:1723-1752 | all waiters on both sides are woken and the ring is emptied |
| `MessageQueue.StepKeepsPartition` | rt-thread--backups--LK--12.8/src/ipc.c:1961-2323 | each pool node stays in exactly one of the free chain, the queue, or one call's hands; the counts sum to max_msgs |
| `MessageQueue.StepKeepsTracked` | rt-thread--backups--LK--12.8/src/ipc.c:1961-2264 | every linked message is queued, in one receiver's hands, delivered once or dropped |
| `MessageQueue.StepKeepsIntact` | rt-thread--backups--LK--12.8/src/ipc.c:1961-2264 | queued and taken nodes still hold the bytes of their message, and what was delivered agrees with what was sent |
| `MessageQueue.StepKeepsAwake` | rt-thread--backups--LK--12.8/src/ipc.c:2020-2031 | a waiting receiver means no more messages than woken receivers |
| `MessageQueue.RunKeepsInv` | rt-thread--backups--LK--12.8/src/ipc.c:1961-2323 | all of these hold after every interleaving of sections, copies, time-outs and resets |
| `MessageQueue.RunSettles` | rt-thread--backups--LK--12.8/src/ipc.c:1961-2323 | a message's fate, once delivered or dropped, never changes |
| `MessageQueue.EveryRun` | rt-thread--backups--LK--12.8/src/ipc.c:1778-2323 | from initialisation on, every run satisfies the invariant and every continuation respects earlier deliveries |
| `MessageQueue.FifoWithoutUrgent` | rt-thread--backups--LK--12.8/src/ipc.c:2003-2018 | while nobody sends urgently, messages are queued in the order they were linked |
| `MessageQueue.RunKeepsPlaced` | rt-thread--backups--LK--12.8/src/ipc.c:2003-2018 | in every run, of two queued messages the one linked later stands ahead of the other if and only if it was sent urgently |
| `MessageQueue.UrgentIsNext` | rt-thread--backups--LK--12.8/src/ipc.c:2091-2099 | a receive right after an urgent message was linked takes exactly that message, and leaves the queue as it was before |
| `MessageQueue.RunSimulates` | rt-thread--backups--LK--12.8/src/ipc.c:1961-2264 | over any interleaving the nodes and their payloads stand for the deque that the callers' requests make: plain ones are appended and urgent ones prepended when their second section runs, receivers take the first |
| `MessageQueue.QueueIsDeque` | rt-thread--backups--LK--12.8/src/ipc.c:1778-2264 | the same from initialisation, with the messages linked so far in link order and every pair of queued messages in its place |
| `MessageQueue.ResetDrops` | rt-thread--backups--LK--12.8/src/ipc.c:2277-2323 | a reset drops exactly the queued messages, whose nodes become free, and leaves those in other calls' hands alone |
| `MessageQueue.Queue.constructor` | rt-thread--backups--LK--12.8/src/ipc.c:1778-1825 | the pool is chained into the free list |
| `MessageQueue.Queue.ReserveNode` | rt-thread--backups--LK--12.8/src/ipc.c:1975-1995 | the first free node goes to the sender with its request, or nothing changes and the error says whether the message is too long or the pool exhausted |
| `MessageQueue.Queue.FillNode` | rt-thread--backups--LK--12.8/src/ipc.c:1997-2000 | the copy with interrupts enabled puts the message at the front of the buffer of the sender's node and changes no other buffer |
| `MessageQueue.Queue.LinkTail` | rt-thread--backups--LK--12.8/src/ipc.c:2003-2036 | the second section of a send appends the message: last in the queue and at the tail, recorded as not urgent, with the first receiver woken |
| `MessageQueue.Queue.LinkHead` | rt-thread--backups--LK--12.8/src/ipc.c:2091-2120 | the second section of an urgent send puts the message before all queued ones and at the head, recorded as urgent, with the first receiver woken |
| `MessageQueue.Queue.RecvSection` | rt-thread--backups--LK--12.8/src/ipc.c:2159-2248 | unlinks the front message exactly when there is one, into the receiver's hands; otherwise queue and calls stay, and the receiver gives up or is put at its place of the list |
| `MessageQueue.Queue.CopyOut` | rt-thread--backups--LK--12.8/src/ipc.c:2250-2251 | the bytes handed over are the first min(sent, requested) bytes of the message |
| `MessageQueue.Queue.ReleaseNode` | rt-thread--backups--LK--12.8/src/ipc.c:2253-2259 | the node becomes the first free one and leaves the receiver's hands; queue, log and buffers stay |
| `MessageQueue.Queue.ReceiverTimeout` | rt-thread--backups--LK--12.8/src/thread.c:744-766 | the timed-out receiver leaves the list and nothing else changes |
| `MessageQueue.Queue.ResetQueue` | rt-thread--backups--LK--12.8/src/ipc.c:2277-2323 | the loop empties the queue into the free chain, marks exactly the queued messages as dropped and wakes all receivers, whatever is in other calls' hands |
| `Event.ScanServesAll` | rt-thread--backups--LK--12.8/src/ipc.c:1053-1099 | after the scan no waiter that was passed over is satisfied by the final set, although later waiters cleared bits |
| `Event.ScanConsumes` | rt-thread--backups--LK--12.8/src/ipc.c:1053-1099 | exactly the bits of clearing receivers leave the set |
| `Event.ScanExclusive` | rt-thread--backups--LK--12.8/src/ipc.c:1053-1099 | a bit consumed by one receiver is given to nobody after it |
| `Event.ScanSplits` | rt-thread--backups--LK--12.8/src/ipc.c:1053-1099 | the waiters are split in order into served and left; AND receivers get all they want, OR receivers a non-empty part |
| `Event.InTurn` | rt-thread--backups--LK--12.8/src/ipc.c:1053-1099 | the k-th waiter sees the set without the bits that those before it consumed, and is woken with the wanted bits among them exactly when they meet its condition |
| `Event.BitsStay` | rt-thread--backups--LK--12.8/src/ipc.c:1026-1209 | in every run without CLEAR and reset the set is what it was joined with all bits sent |
| `Event.OptionsMean` | rt-thread--backups--LK--12.8/src/ipc.c:1154-1171 | AND is met when no wanted bit is missing and OR when some wanted bit is there; which bits of the option mean what |
| `Event.ShareParts` | rt-thread--backups--LK--12.8/src/ipc.c:1168-1182 | a receiver gets exactly the wanted bits that are set, and CLEAR takes away these and no others |
| `Event.StepKeepsNobodyMet` | rt-thread--backups--LK--12.8/src/ipc.c:1026-1274 | send, receive, time-out and reset leave no satisfied waiter suspended |
| `Event.RunKeepsNobodyMet` | rt-thread--backups--LK--12.8/src/ipc.c:1026-1274 | the same for every run |
| `Event.ImmediateClearsItsShare` | rt-thread--backups--LK--12.8/src/ipc.c:1168-1182 | an immediate receiver that clears all it asked for removes exactly the bits delivered |
| `Event.Event.constructor` | rt-thread--backups--LK--12.8/src/ipc.c:912-931 | no bits and no waiters |
| `Event.Event.SendBits` | rt-thread--backups--LK--12.8/src/ipc.c:1026-1108 | the loop over the waiters computes the scan; who is woken, with what, and what remains of the set |
| `Event.Event.ScanWaiters` | rt-thread--backups--LK--12.8/src/ipc.c:1053-1099 | the list-editing loop equals the recursive scan |
| `Event.Event.RecvSection` | rt-thread--backups--LK--12.8/src/ipc.c:1124-1209 | error, received, timed out or suspended exactly as request, set and time-out say; received bits leave the set only with CLEAR, error and time-out change nothing, and a suspended receiver is put at its place with its request while the set stays |
| `Event.Event.WaiterTimeout` | rt-thread--backups--LK--12.8/src/thread.c:744-766 | the timed-out waiter leaves the list |
| `Event.Event.ResetEvent` | rt-thread--backups--LK--12.8/src/ipc.c:1246-1274 | all waiters are woken and the set is zero |
| `Mutex.StepKeepsInv` | rt-thread--backups--LK--12.8/src/ipc.c:651-878 | owner, value and hold agree; only the owner is boosted and its acquisition priority is remembered; PRIO waiters are sorted and the owner is at least as urgent as all of them |
| `Mutex.RunKeepsInv` | rt-thread--backups--LK--12.8/src/ipc.c:651-878 | the same for every run that does not nest 256 deep |
| `Mutex.InheritanceHolds` | rt-thread--backups--LK--12.8/src/ipc.c:651-878 | every reachable state of a PRIO mutex, from initialisation |
| `Mutex.OutermostRelease` | rt-thread--backups--LK--12.8/src/ipc.c:825-868 | the outermost release returns the releaser to its acquisition priority, even after waiters timed out, and hands over to the most urgent, first-arrived waiter |
| `Mutex.OnlyTheOwnerGivesUp` | rt-thread--backups--LK--12.8/src/ipc.c:787-878 | nobody else's step changes owner or depth |
| `Mutex.DepthCounts` | rt-thread--backups--LK--12.8/src/ipc.c:677-690 | takes and releases by the owner nest |
| `Mutex.TakeExact` | rt-thread--backups--LK--12.8/src/ipc.c:706-745 | a thread that cannot have the mutex and does not wait changes nothing; one that waits stands at its place, nobody else moves, and only the owner's priority changes, at most, to the newcomer's if that is more urgent |
| `Mutex.TimeoutExact` | rt-thread--backups--LK--12.8/src/thread.c:744-766 | exactly the waiter whose time is up leaves, the others keep their order, and the boost stays |
| `Mutex.RunLifts` | rt-thread--backups--LK--12.8/src/ipc.c:651-878 | in every run, on mutexes of both flags, the owner's priority is exactly the most urgent of its own and those of all threads that came to wait since it took the mutex |
| `Mutex.PriorityIsInherited` | rt-thread--backups--LK--12.8/src/ipc.c:651-878 | the same for every run from initialisation |
| `Mutex.NestedTakeExact` | rt-thread--backups--LK--12.8/src/ipc.c:677-682 | a nested take keeps the invariant if and only if the 8-bit counter has room |
| `Mutex.OverrunFails` | rt-thread--backups--LK--12.8/src/ipc.c:677-682 | from initialisation, 256 takes by one thread break the invariant, and after 257 one release gives the mutex up |
| `Mutex.FifoHandOverExact` | rt-thread--backups--LK--12.8/src/ipc.c:843-858 | after a FIFO hand-over the new owner covers the remaining waiters if and only if it is at least as urgent as each of them |
| `Mutex.FifoHandOverFails` | rt-thread--backups--LK--12.8/src/ipc.c:843-858 | from initialisation, four calls lead to a FIFO hand-over that leaves the new owner below a waiter |
| `Mutex.Mutex.constructor` | rt-thread--backups--LK--12.8/src/ipc.c:527-550 | a free mutex satisfies the invariant |
| `Mutex.Mutex.TakeSection` | rt-thread--backups--LK--12.8/src/ipc.c:651-745 | acquired exactly when free or already owned, with depth and remembered priority as in the source; refused without a change; or suspended at its place, with the owner raised to the newcomer's priority if that is more urgent |
| `Mutex.Mutex.ReleaseMutex` | rt-thread--backups--LK--12.8/src/ipc.c:787-878 | accepted exactly from the owner; an inner release only lowers the depth; the outermost one restores all priorities and frees the mutex or hands it to the first waiter, at depth 1, with its priority remembered |
| `Mutex.Mutex.WaiterTimeout` | rt-thread--backups--LK--12.8/src/thread.c:744-766 | exactly the timed-out waiter leaves the list and nothing else changes, so the owner keeps its boost |
| `TimerSpec.InsertPosition` | rt-thread--backups--LK--12.8/src/timer.c:343-370 | stable insertion: behind all timers due no later, before all others |
| `TimerSpec.CheckFires` | rt-thread--backups--LK--12.8/src/timer.c:494-553 | the check ends, firing exactly the due timers, each once, in list order, with re-armed cyclic timers left in the future |
| `TimerSpec.CheckAffects` | rt-thread--backups--LK--12.8/src/timer.c:524-543 | what a check does to one timer: kept, removed, or re-armed one period later |
| `TimerSpec.StepKeepsInv` | rt-thread--backups--LK--12.8/src/timer.c:296-553 | start, stop and tick keep the list sorted with all deadlines ahead of now and within half the clock |
| `TimerSpec.TickFires` | rt-thread--backups--LK--12.8/src/timer.c:507-545 | one tick fires a timer exactly when its deadline has come |
| `TimerSpec.Quiet` | rt-thread--backups--LK--12.8/src/timer.c:422-447 | a timer that is not pending does not fire |
| `TimerSpec.ExactFiring` | rt-thread--backups--LK--12.8/src/timer.c:494-553 | over every run that does not touch it, a pending timer fires exactly at its deadline and, if cyclic, every period after it |
| `TimerSpec.TiesInOrder` | rt-thread--backups--LK--12.8/src/timer.c:494-553 | of two timers due at the same tick the one listed first fires first, whatever is done to other timers in between |
| `TimerSpec.TiesInStartOrder` | rt-thread--backups--LK--12.8/src/timer.c:343-391 | a timer started while another with the same deadline is pending fires after it, in every run that touches neither |
| `TimerSpec.StartBehind` | rt-thread--backups--LK--12.8/src/timer.c:354-366 | a started timer goes behind every pending one that is due no later |
| `TimerSpec.SetTimeFires` | rt-thread--backups--LK--12.8/src/timer.c:459-485 | a new time set on a pending timer does not move its next firing; a cyclic timer keeps the new time from there on |
| `TimerSpec.FiresAfterDelay` | rt-thread--backups--LK--12.8/src/timer.c:296-413 | started at T with delay d it fires at T + d |
| `Timer.Compare` | rt-thread--backups--LK--12.8/src/timer.c:356-366 | inside half the clock the wrapping 32-bit comparison agrees with the unbounded one |
| `Timer.RowOfRow` | rt-thread--backups--LK--12.8/src/timer.c:341-368 | each row of the skip list is a subsequence of the row below |
| `Timer.RowInsert` | rt-thread--backups--LK--12.8/src/timer.c:379-391 | inserting in the base order inserts at the corresponding place of every row up to the timer's height |
| `Timer.RowRemove` | rt-thread--backups--LK--12.8/src/timer.c:121-129 | removal from one row, also for a timer linked only to itself |
| `Timer.TimerList.Search` | rt-thread--backups--LK--12.8/src/timer.c:341-368 | the level-by-level descent ends, in every row, at the last timer that is not due later |
| `Timer.TimerList.Position` | rt-thread--backups--LK--12.8/src/timer.c:354-366 | the wrapping test finds the place of stable sorted insertion on the unbounded clock |
| `Timer.TimerList.StartTimer` | rt-thread--backups--LK--12.8/src/timer.c:296-413 | for any number of levels and any height the bottom row becomes the stable insertion and every row stays a subsequence |
| `Timer.TimerList.StopTimer` | rt-thread--backups--LK--12.8/src/timer.c:422-447 | stops exactly a linked timer |
| `Timer.TimerList.SetTime` | rt-thread--backups--LK--12.8/src/timer.c:471-473 | any time on a timer that is not pending or not cyclic, a time it could be started with otherwise; the list stays as it is |
| `Timer.TimerList.SetMode` | rt-thread--backups--LK--12.8/src/timer.c:475-481 | one-shot or periodic from now on; the list stays as it is |
| `Timer.TimerList.Unlink` | rt-thread--backups--LK--12.8/src/timer.c:121-129 | the timer leaves every row |
| `Timer.TimerList.CheckTimers` | rt-thread--backups--LK--12.8/src/timer.c:494-553 | the loop on the skip list equals the check on the sorted list |
| `Timer.TimerList.TickIncrease` | rt-thread--backups--LK--12.8/src/clock.c:74-100 | one clock tick is one step of the specification, through wrap-around |
| `Timer.TimerList.NextTimeout` | rt-thread--backups--LK--12.8/src/timer.c:108-119 | the earliest deadline, or RT_TICK_MAX when nothing is pending |
| `Timer.TimerList.constructor` | rt-thread--backups--LK--12.8/src/timer.c:679-687 | empty rows |
| `Timer.TimerList.Register` | rt-thread--backups--LK--12.8/src/timer.c:178-196 | a new timer, with any time, is self-linked in every row and inactive |
| `FirstBit.TableIsFirst` | rt-thread--backups--LK--12.8/src/kservice.c:1247-1265 | the table entry of every non-zero byte is the position of its lowest set bit |
| `FirstBit.FfsIsFirst` | rt-thread--backups--LK--12.8/src/kservice.c:1277-1290 | one more than the position of the lowest set bit of every 32-bit word, 0 only for zero |
| `Ready.StepKeepsInv` | rt-thread--backups--LK--12.8/src/scheduler.c:632-758 | scheduler start, start-up, suspend, resume, time-out, delete, priority change, schedule and critical sections keep: every READY thread but the running one is exactly once in the queue of its current priority, and nobody else is in any queue |
| `Ready.RunKeepsInv` | rt-thread--backups--LK--12.8/src/scheduler.c:632-758 | the same for every run |
| `Ready.SchedulePicks` | rt-thread--backups--LK--12.8/src/scheduler.c:385-482 | after a schedule with some runnable thread the running thread is READY and at least as urgent as every queued one |
| `Ready.OneTurn` | rt-thread--backups--LK--12.8/src/scheduler.c:385-482 | among equally urgent top threads one call moves the circle on by one |
| `Ready.RoundRobin` | rt-thread--backups--LK--12.8/src/scheduler.c:385-482 | k calls run each of the k equally urgent top threads exactly once, in rotation, and restore the circle |
| `Ready.ScheduleExact` | rt-thread--backups--LK--12.8/src/scheduler.c:385-482 | a schedule changes nothing if nobody is queued or the running thread is READY and more urgent than every queued one; otherwise the first thread of the most urgent queue runs, and a running thread that is still READY goes behind all others of its priority |
| `Ready.PriorityChanged` | rt-thread--backups--LK--12.8/src/thread.c:568-610 | a change of priority changes the three priority fields of that thread and nothing else; a READY thread that is not running ends last in the queue of its new priority and in no other, and the remaining threads keep their order |
| `Ready.PriorityLasts` | rt-thread--backups--LK--12.8/src/thread.c:286-766 | a run that neither starts a thread nor sets its priority leaves its priority as it is, and only a deletion closes it |
| `Ready.PrioritySet` | rt-thread--backups--LK--12.8/src/thread.c:568-610 | after any run the priority of a thread is the one last set, whatever came before it |
| `Ready.ResumeExact` | rt-thread--backups--LK--12.8/src/thread.c:701-735 | only a suspended thread is resumed: it becomes READY, behind all others of its priority, and nobody else moves |
| `Ready.StartUpExact` | rt-thread--backups--LK--12.8/src/thread.c:286-318 | a started thread is READY at its initial priority, last in that queue and in no other |
| `Ready.SuspendExact` | rt-thread--backups--LK--12.8/src/thread.c:656-691 | the running thread becomes suspended exactly if it is READY, and the queues stay as they are |
| `Ready.DeleteExact` | rt-thread--backups--LK--12.8/src/thread.c:429-460 | a deleted thread is closed and in no queue, and the others keep their places |
| `Ready.BootKeepsInv` | rt-thread--backups--LK--12.8/src/scheduler.c:187-263 | the same for every run from initialisation, through the start of the scheduler; once a thread runs, some thread always does |
| `Ready.FirstRunKeeps` | rt-thread--backups--LK--12.8/src/scheduler.c:242-263 | the start of the scheduler runs the first thread of the least non-empty priority, which leaves its queue and is at least as urgent as all others; nothing else changes |
| `Ready.BootShared` | rt-thread--backups--LK--12.8/src/scheduler.c:242-263 | threads of one priority started before the scheduler share the processor from its start on, in start order, so the round robin applies to a state that is reached |
| `Ready.LockedKeepsRunning` | rt-thread--backups--LK--12.8/src/scheduler.c:792-869 | while the scheduler is locked no sequence of operations takes the processor from the running thread |
| `Ready.EnterThenExit` | rt-thread--backups--LK--12.8/src/scheduler.c:792-869 | leaving undoes entering: a nested pair changes nothing, an outermost pair makes up for all schedules skipped inside with one |
| `Scheduler.SetBits` | rt-thread--backups--LK--12.8/src/scheduler.c:649-660 | setting both bits keeps the index in agreement with the queues |
| `Scheduler.ClearBits` | rt-thread--backups--LK--12.8/src/scheduler.c:741-754 | clearing the table bit, and the group bit when its byte is empty, keeps the agreement |
| `Scheduler.LookUp` | rt-thread--backups--LK--12.8/src/scheduler.c:158-178 | the two-level look-up finds the least non-empty priority |
| `Scheduler.Kernel.constructor` | rt-thread--backups--LK--12.8/src/scheduler.c:187-236 | empty queues and no bits |
| `Scheduler.Kernel.InsertThread` | rt-thread--backups--LK--12.8/src/scheduler.c:632-665 | the thread is READY and, unless it is running, last in the queue of its priority; bits agree |
| `Scheduler.Kernel.RemoveThread` | rt-thread--backups--LK--12.8/src/scheduler.c:728-758 | the thread is out of the queue of its priority, the rest in order; bits agree |
| `Scheduler.Kernel.GetHighest` | rt-thread--backups--LK--12.8/src/scheduler.c:158-180 | the first thread of the least non-empty priority, through `__rt_ffs` |
| `Scheduler.Kernel.DoSchedule` | rt-thread--backups--LK--12.8/src/scheduler.c:385-482 | locked: nothing; unlocked: the schedule step, after which the running thread is READY and most urgent |
| `Scheduler.Kernel.StartScheduler` | rt-thread--backups--LK--12.8/src/scheduler.c:242-263 | the first thread of the least non-empty priority runs and leaves its queue, and nothing else changes; bits agree |
| `Scheduler.Kernel.ResumeThread` | rt-thread--backups--LK--12.8/src/thread.c:701-735 | accepted exactly for a suspended thread, which becomes READY and stands last in its queue; otherwise nothing changes; bits agree |
| `Scheduler.Kernel.SuspendSelf` | rt-thread--backups--LK--12.8/src/thread.c:656-691 | accepted exactly for a READY thread, whose state becomes suspended; the queues stay; bits agree |
| `Scheduler.Kernel.StartupThread` | rt-thread--backups--LK--12.8/src/thread.c:286-318 | the thread becomes READY with its bits split from its initial priority and, before the scheduler runs, last in its queue; a schedule follows when someone runs |
| `Scheduler.Kernel.TimeoutThread` | rt-thread--backups--LK--12.8/src/thread.c:744-766 | the suspended thread is queued and a schedule follows |
| `Scheduler.Kernel.SetThreadPriority` | rt-thread--backups--LK--12.8/src/thread.c:568-610 | the three priority fields of that thread get the new priority and nothing else changes; a READY thread that is not running stands last in its new queue and in no other, the others keep their order; bits agree |
| `Scheduler.Kernel.DeleteThread` | rt-thread--backups--LK--12.8/src/thread.c:429-460 | the thread is closed and in no queue, the others keep their order; bits agree |
| `Scheduler.Kernel.ExitCritical` | rt-thread--backups--LK--12.8/src/scheduler.c:847-869 | leaving the outermost section schedules, and the count never goes below zero |
| `PageRuns.CanonicalUnique` | rt-thread--backups--LK--12.8/src/slab.c:272-322 | an address-ordered run list with gaps is determined by its set of free pages |
| `PageRuns.StretchInOneRun` | rt-thread--backups--LK--12.8/src/slab.c:245-263 | any stretch of free pages lies inside one run |
| `PageRuns.PageAllocator.constructor` | rt-thread--backups--LK--12.8/src/slab.c:327-334 | one run of all pages |
| `PageRuns.PageAllocator.PageAlloc` | rt-thread--backups--LK--12.8/src/slab.c:236-270 | the lowest place where that many free pages lie together, or null exactly when there is none; exactly these pages leave the free set; the list in the page headers stays canonical |
| `PageRuns.PageAllocator.PageFree` | rt-thread--backups--LK--12.8/src/slab.c:272-322 | exactly these pages join the free set and the list in the page headers is again its unique maximal-run form |
| `PageRuns.PageAllocator.Conserved` | rt-thread--backups--LK--12.8/src/slab.c:236-322 | free pages plus held pages are the initial count |
| `Slab.ZoneIndexRounds` | rt-thread--backups--LK--12.8/src/slab.c:401-457 | the index is below NZONES, the chunk size is that index's size, and the waste is below 8 bytes or an eighth |
| `Slab.ZoneIndexTight` | rt-thread--backups--LK--12.8/src/slab.c:401-457 | no smaller zone would hold the request |
| `Slab.SameChunkSameZone` | rt-thread--backups--LK--12.8/src/slab.c:401-457 | chunk size and zone index determine each other, the index grows with the request, and rounding is idempotent |
| `Slab.HeldSize` | rt-thread--backups--LK--12.8/src/slab.c:535-568 | z_nfree counts the chunks not handed out; a zone is entirely free exactly when it equals z_nmax |
| `Slab.TakeChunkOk` | rt-thread--backups--LK--12.8/src/slab.c:539-568 | taking a chunk, fresh ones first, hands out one that was not out and keeps z_nfree = (z_nmax - 1 - z_uindex) + free chunks |
| `Slab.FreshFirst` | rt-thread--backups--LK--12.8/src/slab.c:548-568 | a chunk that was never out is handed out as long as the zone has one, and then the chunk freed last |
| `Slab.PutChunkOk` | rt-thread--backups--LK--12.8/src/slab.c:829-843 | a returned chunk is exactly removed from those out, the accounting holds |
| `Slab.NewZoneOk` | rt-thread--backups--LK--12.8/src/slab.c:628-652 | a new zone has z_nmax >= 2 and exactly its first chunk out |
| `Slab.UsedInside` | rt-thread--backups--LK--12.8/src/slab.c:628-648 | chunks lie behind the zone header and inside the zone |
| `Slab.ChunkAligned` | rt-thread--backups--LK--12.8/src/slab.c:631-638 | a power-of-two chunk is aligned to its size if and only if its zone is; up to the page size it always is |
| `Slab.Misaligned` | rt-thread--backups--LK--12.8/src/slab.c:152-153 | for every power of two above the page size, a constructed allocator returns a misaligned address to the first request |
| `Slab.MisalignedChunk` | rt-thread--backups--LK--12.8/src/slab.c:152-153 | a constructed allocator returns a misaligned 8192-byte chunk of a zone |
| `Slab.OddPage` | rt-thread--backups--LK--12.8/src/slab.c:152-153 | an odd page is aligned to no power of two above the page size |
| `Slab.LeadsBack` | rt-thread--backups--LK--12.8/src/slab.c:821-827 | the memusage entry of an allocation's page gives its zone, or the page count of a large block |
| `Slab.LiveApart` | rt-thread--backups--LK--12.8/src/slab.c:478-669 | any two allocations, chunks or large blocks, are disjoint |
| `Slab.LiveInside` | rt-thread--backups--LK--12.8/src/slab.c:478-669 | every byte of an allocation lies on a page taken from the page allocator for it |
| `Slab.ZoneSizeFor` | rt-thread--backups--LK--12.8/src/slab.c:375-377 | the largest of 32K, 64K and 128K reached by doubling while twice the size stays below a 1024th of the memory |
| `Slab.Allocator.constructor` | rt-thread--backups--LK--12.8/src/slab.c:344-395 | the zone size from the memory size, the page table taken out of the pages, nothing allocated |
| `Slab.Allocator.Malloc` | rt-thread--backups--LK--12.8/src/slab.c:478-669 | null exactly when the size is zero or nothing listed, retired or contiguous is left; otherwise one new allocation of the rounded size, all others as they were; a power-of-two request up to the page size is aligned to its size, and a larger one if and only if the page it is served from, determined before the call, is |
| `Slab.Allocator.MallocLarge` | rt-thread--backups--LK--12.8/src/slab.c:489-527 | whole pages, recorded in the page table, or null exactly when no run is long enough |
| `Slab.Allocator.TakeListed` | rt-thread--backups--LK--12.8/src/slab.c:535-568 | the first listed zone gives a chunk, one never used as long as it has one and then the one freed last, and leaves its list exactly with its last chunk |
| `Slab.Allocator.Free` | rt-thread--backups--LK--12.8/src/slab.c:771-903 | exactly that allocation is gone, whichever of its zone's fates follows |
| `Slab.Allocator.FreeLarge` | rt-thread--backups--LK--12.8/src/slab.c:797-819 | the pages go back; the table keeps the page type with a count of 0 |
| `Slab.Allocator.FreeChunk` | rt-thread--backups--LK--12.8/src/slab.c:821-865 | the chunk returns to the front of its zone's list; the zone is retired exactly when nothing else of it is out and its list holds another zone |
| `Slab.Allocator.Retire` | rt-thread--backups--LK--12.8/src/slab.c:858-902 | an entirely free zone leaves its list and no other does; at most two retired zones are kept, and a third gives its own pages back |
| `Slab.Allocator.Separated` | rt-thread--backups--LK--12.8/src/slab.c:478-903 | in every reachable state allocations are disjoint and on held pages |
| `KconfigExpr.RoundTrip` | rt-thread--backups--LK--12.8/tools/kconfiglib.py:5059-5102 | parsing the printed tokens of any expression succeeds and gives the tree with chains hung to the right, with the same value under every assignment and the same printed form |
| `KconfigExpr.PrintDetermines` | rt-thread--backups--LK--12.8/tools/kconfiglib.py:5059-5102 | expressions that print alike have the same value |
| `KconfigExpr.RightValue` | rt-thread--backups--LK--12.8/tools/kconfiglib.py:4986-5008 | re-association to the right keeps the value, short-circuiting included |
| `KconfigExpr.RightPrint` | rt-thread--backups--LK--12.8/tools/kconfiglib.py:5059-5102 | re-association to the right keeps the printed tokens |
| `KconfigExpr.AndParse` | rt-thread--backups--LK--12.8/tools/kconfiglib.py:2779-2787 | what an operand of && parses to, before any continuation |
| `KconfigExpr.OrParse` | rt-thread--backups--LK--12.8/tools/kconfiglib.py:2737-2777 | what an operand of \|\| parses to, before any continuation |
| `KconfigExpr.RewritingParse` | rt-thread--backups--LK--12.8/tools/kconfiglib.py:2737-2821 | on every token list the parser that rewrites m accepts the same tokens and gives the same expression with every lone m, and nothing else, replaced by m && MODULES |
| `KconfigExpr.GatedValue` | rt-thread--backups--LK--12.8/tools/kconfiglib.py:2799-2805 | the rewritten expression has the value of the original with m switched off where MODULES is |
| `KconfigExpr.ConditionRoundTrip` | rt-thread--backups--LK--12.8/tools/kconfiglib.py:2737-2821 | a printed condition that is read back with the rewriting has that value, and the value of the original when MODULES is y |
| `KconfigExpr.ValueIsStrict` | rt-thread--backups--LK--12.8/tools/kconfiglib.py:4986-5008 | skipping operands that cannot matter still gives the minimum and the maximum; negation turns one into the other and undoes itself |
| `KconfigExpr.Parser.ParseExpression` | rt-thread--backups--LK--12.8/tools/kconfiglib.py:2737-2777 | the token-index parser computes the grammar's result and stops where it should, or fails |
| `KconfigExpr.Parser.ParseAndExpression` | rt-thread--backups--LK--12.8/tools/kconfiglib.py:2779-2787 | the same for && chains |
| `KconfigExpr.Parser.ParseFactorExpression` | rt-thread--backups--LK--12.8/tools/kconfiglib.py:2789-2821 | the same for symbols, relations, negation and parentheses, with the rewriting of m |
| `KconfigExpr.Parser.CheckToken` | rt-thread--backups--LK--12.8/tools/kconfiglib.py:2009-2016 | consumes the next token exactly if it is the one asked for |
| `KconfigMemo.CachedIsFresh` | rt-thread--backups--LK--12.8/tools/kconfiglib.py:3585-3662 | when each cached entry follows from cached entries it reads, every cached value equals the solution of the definitions |
| `KconfigMemo.FreshSolves` | rt-thread--backups--LK--12.8/tools/kconfiglib.py:3585-3662 | evaluation from the bottom up gives every symbol the value of its definition |
| `KconfigMemo.SolutionUnique` | rt-thread--backups--LK--12.8/tools/kconfiglib.py:3585-3662 | acyclic definitions have one solution |
| `KconfigMemo.SolutionIsLeast` | rt-thread--backups--LK--12.8/tools/kconfiglib.py:3603-3649 | the solutions are exactly the assignments in which every symbol has the least value that is not below its selects, nor the user's value as far as visible or without one the default that counts and the implies, and that is m only where m is allowed |
| `KconfigMemo.UserValueCounts` | rt-thread--backups--LK--12.8/tools/kconfiglib.py:3613-3649 | a visible symbol with a user value that nothing selects has that value cut down to its visibility, or y where that is an m it does not take |
| `KconfigMemo.ValueBounds` | rt-thread--backups--LK--12.8/tools/kconfiglib.py:3585-3662 | a value is never below its selects, a bool is never m, and a user value of an invisible symbol makes no difference |
| `KconfigMemo.VisibilityIsGreatest` | rt-thread--backups--LK--12.8/tools/kconfiglib.py:5215-5242 | the visibility is the greatest value of a prompt condition, m counting as y unless the symbol is a tristate |
| `KconfigMemo.ChangeIsLocal` | rt-thread--backups--LK--12.8/tools/kconfiglib.py:4032-4052 | a change of user values makes no difference to symbols that depend on none of the changed ones |
| `KconfigMemo.SetIsRead` | rt-thread--backups--LK--12.8/tools/kconfiglib.py:3713-3796 | set, then read: the value set, cut down to the visibility, unless selects ask for more; for a bool that is fully visible and not selected exactly the value set |
| `KconfigMemo.StrcmpIsDictionaryOrder` | rt-thread--backups--LK--12.8/tools/kconfiglib.py:5292-5296 | zero exactly for equal strings, negative exactly when the first stands before the second in a dictionary, and antisymmetric |
| `KconfigMemo.WordsAgree` | rt-thread--backups--LK--12.8/tools/kconfiglib.py:5877-5887 | the words n, m and y, the values they mean, and the constants of these names agree, in both directions |
| `KconfigMemo.HoldsMeans` | rt-thread--backups--LK--12.8/tools/kconfiglib.py:5010-5038 | symbols that both read as numbers compare as these and any others as texts, and the six relations agree with each other |
| `KconfigMemo.KnownGrows` | rt-thread--backups--LK--12.8/tools/kconfiglib.py:4986-5008 | what a short-circuiting evaluation yields does not change when more symbols get values |
| `KconfigMemo.ClearKept` | rt-thread--backups--LK--12.8/tools/kconfiglib.py:4001-4030 | dropping one symbol unsettles at most its dependents that have cached values |
| `KconfigMemo.UserChange` | rt-thread--backups--LK--12.8/tools/kconfiglib.py:4032-4052 | a user value matters only to its own symbol, and not at all to a symbol without a prompt |
| `KconfigMemo.Evaluator.constructor` | rt-thread--backups--LK--12.8/tools/kconfiglib.py:2827-2866 | nothing cached; dependents worked out |
| `KconfigMemo.Evaluator.BuildDep` | rt-thread--backups--LK--12.8/tools/kconfiglib.py:2827-2872 | a symbol's dependents are exactly the defined symbols whose properties mention it |
| `KconfigMemo.Evaluator.MakeDependOn` | rt-thread--backups--LK--12.8/tools/kconfiglib.py:5244-5260 | enters a dependent for exactly the non-constant symbols of an expression |
| `KconfigMemo.Evaluator.Coherent` | rt-thread--backups--LK--12.8/tools/kconfiglib.py:4001-4030 | any cached value, visibility or text is what an evaluation without caches gives |
| `KconfigMemo.Evaluator.Read` | rt-thread--backups--LK--12.8/tools/kconfiglib.py:3585-3662 | after any mix of reads, sets and unsets a read returns the uncached value |
| `KconfigMemo.Evaluator.TriValue` | rt-thread--backups--LK--12.8/tools/kconfiglib.py:3585-3662 | fills the caches consistently and only adds entries |
| `KconfigMemo.Evaluator.Visibility` | rt-thread--backups--LK--12.8/tools/kconfiglib.py:3675-3682 | the same for the visibility |
| `KconfigMemo.Evaluator.VisibilityFor` | rt-thread--backups--LK--12.8/tools/kconfiglib.py:5215-5242 | the maximum over the prompt conditions, m promoted where the type is not tristate |
| `KconfigMemo.Evaluator.ExprValue` | rt-thread--backups--LK--12.8/tools/kconfiglib.py:4986-5038 | the value of the expression from the values it needed to read |
| `KconfigMemo.Evaluator.TextValue` | rt-thread--backups--LK--12.8/tools/kconfiglib.py:3444-3460 | the cached text agrees with the cached value |
| `KconfigMemo.Evaluator.RecInvalidate` | rt-thread--backups--LK--12.8/tools/kconfiglib.py:4001-4030 | ends on any dependency graph, and whatever was settled still is although it stops at dependents without cached visibility; MODULES drops everything |
| `KconfigMemo.Evaluator.InvalidateAll` | rt-thread--backups--LK--12.8/tools/kconfiglib.py:2902-2911 | nothing defined stays cached and whatever was settled still is |
| `KconfigMemo.Evaluator.SetValue` | rt-thread--backups--LK--12.8/tools/kconfiglib.py:3713-3796 | accepted exactly for the numbers and words of the symbol's type, stored as a number, and the caches stay coherent; a bool that is fully visible and not selected then has the value set |
| `KconfigMemo.Evaluator.SetThenRead` | rt-thread--backups--LK--12.8/tools/kconfiglib.py:3713-3796 | after an accepted set of a fully visible, unselected bool a read through the caches returns the value set |
| `KconfigMemo.Evaluator.UnsetValue` | rt-thread--backups--LK--12.8/tools/kconfiglib.py:3798-3805 | the user value is gone and the caches stay coherent |

## Left out

- All RT_USING_SMP code: per-CPU state, spinlocks and inter-processor interrupts.
- Signals and the -RT_EINTR retry of rt_mutex_take; threads that die owning a mutex; several mutexes held by one thread,
  for which the code does not restore base priorities in general.
- Detaching and deleting IPC objects, and applications that resume a waiting thread directly.
- Semaphores and memory pools: the semaphore repeats a part of the mailbox protocol; the memory pool's waiter count is
  not reduced on time-outs.
- Soft timers, rt_tick_set, timer functions that start or stop timers, and timers started with zero ticks: for a cyclic
  one the check loop would not end.
- The remaining time of a blocked call that waits again: a call may wait again or give up at any re-check, whatever its
  clock says.
- 32-bit wrap-around of sizes in the allocators (a request within 4 bytes of 2^32): sizes are unbounded there.
- Builds with 64-bit pointers, RT_USING_MEMTRACE, or at most 32 priorities.
- The 16 bits of the scheduler's lock counter: it is unbounded here.
- Object registry, names, hooks, logging, devices, idle clean-up and the list of defunct threads.
- Context switch, stack set-up and interrupt masking: only the atomicity of masked sections is kept. In the slab, a
  call is one step although rt_malloc releases the heap semaphore around the page allocator.
- rt_realloc and rt_calloc of slab.c: allocate, copy and free in a row.
- The slab's free-chunk, zone and retired-zone lists are sequences in the zone record and the allocator, not links in
  memory; the page list is modelled in the page headers.
- The bit test for powers of two in slab.c is stated arithmetically.
- Kconfig choices, menus, string, int and hex symbols, ranges, warnings, `_write_to_conf` and `assignable`; a MODULES
  symbol that is itself a tristate. The number a text denotes is a parameter. Files, macros and .config I/O.
- Strings in the expression round trip: it is stated on tokens, not characters.
- TimerSpec.ExactFiring: assumes one check per tick and periods of 1 up to, but not including, RT_TICK_MAX / 2.
- Timer.TimerList.SetTime: on a pending cyclic timer only times it could be started with, because re-arming asserts the
  same bound and zero would not end the check.
