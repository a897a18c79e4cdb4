# A model of the TDK toolkit's core

TDK is a C++ toolkit for asynchronous servers. This project models the parts of it whose correctness is not
visible in any single function, and proves what they are for:

- the event loop and its completion port (`EventLoop.dfy`, `EventLoopExit.dfy`, `EventLoopHandles.dfy`,
  `EventLoopHistory.dfy`, `EventLoopCode.dfy`), with any number of threads submitting work while one thread runs the
  loop;
- the two timer schedulers (`TimerList.dfy`, `Scheduler.dfy`, `TaskScheduler.dfy`) and the serial executor
  (`SerialQueue.dfy`), whose callbacks re-enter them;
- the intrusive queue they are all built on (`SlistQueue.dfy`);
- the copy-on-write buffer and the block with cursors (`BufferBase.dfy`, `MemoryBlock.dfy`, `BlockWorld.dfy`,
  `SharedBlocks.dfy`), the counter that threads share (`SharedCount.dfy`), and the PKCS padding written through the
  block (`Padding.dfy`);
- SHA-1 and MD5 as streaming hashes (`Sha1*.dfy`, `Md5*.dfy`, `Streaming.dfy`, `Words.dfy`), CRC-32 (`Crc32*.dfy`) and
  Base64 (`Base64.dfy`).

Code that changes state in the original changes it here: contexts, queues, schedulers, buffers, blocks and the loop
are classes whose methods follow the original statement by statement, and each method's contract ties the new state
to a specification that is written down separately: the message absorbed so far, a sequence of nodes, books of what
entered and left a list, a first-in-first-out queue of bytes, a run of a step machine. The lemmas are about those.
Where such a specification is a function that the code calls too, as the hashes' steps, the alphabets and the list
operations are, it is tied to published values, to plain numbers, or to laws that only it meets.

## How the model is cut

- **Threads.** `EventLoop` is a step machine. A step is one atomic access, one locked section, or one kernel call;
  atomics are sequentially consistent; a run is any interleaving. `EventLoopCode.Loop` has the methods of the
  original; each leaves behind a run of that machine, and between two steps of a method the contract of `Interfere`
  lets the other threads take any steps of their own (its body does nothing, and no caller may rely on that).
- **The completion port** is a bag of null packets and of I/O packets, and `wait` returns for a packet or when its
  time has passed. Posting a null packet succeeds. On failure the original resets the flag
  (src/tdk/io/iocp.cpp:36-38), and callers that were coalesced meanwhile get no wake-up.
- **Time** is a natural number; the clock does not go back; an expiry does not change while its timer is queued. The
  timeout of a wait starts at the clock sample it was computed from.
- **The loop thread** is thread 0, fixed before the others start.
- **Words.** `unsigned long` and `unsigned int` are 32 bits and the host is little-endian, as the overlay at
  src/tdk/crypto/sha1.cpp:50-53 needs. The bit counters are numbers below 2^32 whose shifts and masks are written as
  divisions and remainders; additions that wrap are written out.
- **Cursors** of a memory block stay within `int32_t`, to which the original casts lengths.
- **Storage.** `Storage` is an allocation with the counter in its header; `handles` and the `Registry` are ghost
  book-keeping: which handles live, and which allocations are not yet freed.

## What the code does that its documentation does not say

- `sha1::update` overwrites whole blocks of the caller's data with schedule words
  (src/tdk/crypto/sha1.cpp:61 and 126). `Sha1.Context.Update` says exactly which bytes change and to what;
  `Sha1.KeepsInputIff` says for which lengths every input is safe. MD5 leaves its input alone.
- After `value`, both hashes hold an all-zero chaining value; without `reset` the next digest is the one from the
  zero chaining value. `Value` is stated for whatever chaining value the context started from.
- `run` may return while a thread that has queued a task is still inside `wake_up`
  (`EventLoopExit.ExitMayPrecedeWakeUp`). A thread that holds an `add_active` of its own from before `execute` until
  after it is never left behind, whatever the other threads do with theirs
  (`EventLoopHandles.OwnHandleKeepsRunning`, `EventLoopHandles.ExitIsClean`); one that holds none can be left behind,
  however many handles the others hold (`EventLoopHandles.LeftIffNoneOfItsOwn`).
- `base64::decode` does not reject characters outside the alphabet: each counts as six bits
  (`Base64.ForeignCharacterIsDecoded`). `encode` gives the empty text above 1024968 bytes, and the round trip holds
  exactly up to that size (`Base64.RoundTripLimit`).
- `memory_block::move( marker )` refuses a saved write position equal to the capacity, and move assignment leaves the
  source's cursors behind (`MemoryBlock.MemoryBlock.MoveTo`, `MemoryBlock.MemoryBlock.MoveAssign`).
- `pkcs5_data_size` trusts the last byte; its result is a length of the data exactly when that byte is small enough
  (`Padding.DataSizeInRange`).
- `next_schedule` answers 100 ms when the first timer is already due (src/tdk.task/task/scheduler.cpp:34-37).

## Model

| member | source | states |
|---|---|---|
| EventLoop.StepKeepsInv | src/tdk/event_loop/event_loop.cpp:17-107 | every atomic step of any thread keeps: the work count equals handles, queued tasks, pending timers, half-counted submissions and work in flight, corrected for a timer operation half done; timer operations stay on the loop thread; tasks leave in queue order; timers are conserved, and forwarded ones arrive; the wait ends by the first deadline; a taken flag is backed; a queued task will be spliced or a wake-up is coming |
| EventLoop.RunKeepsInv | src/tdk/event_loop/event_loop.cpp:17-107 | the invariant holds at every state of every run of every interleaving, whatever the threads |
| EventLoop.ExitMeansDone | src/tdk/event_loop/event_loop.cpp:62-70 | `run` leaves its loop only when there is no handle, task, timer or counted submission left, every task ever queued has run in queue order, and every timer, those forwarded by other threads among them, fired or was cancelled |
| EventLoop.NoLostWakeUp | src/tdk/io/iocp.cpp:33-56 | when the loop is at its wait with tasks queued, a null packet is queued or a thread is still on its way through `wake_up` |
| EventLoop.FlagIsBacked | src/tdk/io/iocp.cpp:33-56 | whenever the flag is taken there is a null packet, a thread between its compare-exchange and its post, or the loop between dequeue and reset |
| EventLoop.BlockedMeansEmpty | src/tdk/io/iocp.cpp:33-56 | with no packet queued and no thread inside `wake_up`, a waiting loop has an empty queue and has run everything queued |
| EventLoop.RanIsPrefix | src/tdk/event_loop/event_loop.cpp:72-85 | at every instant the tasks started are the first ones queued, in order, none skipped or repeated |
| EventLoop.TimersFireOnceAndOnTime | src/tdk/event_loop/event_loop.cpp:39-60 | each timer scheduled is pending, fired or cancelled, counted with multiplicity; none fires before its expiry; the timers carried by forwarded tasks that have run are among those scheduled, except the one whose task is just running |
| EventLoop.NeverSleepsPastDeadline | src/tdk/event_loop/event_loop.cpp:64-66 | the wait's end is not after the earliest deadline, unless it has already passed |
| EventLoop.WaitIsChosen | src/tdk/event_loop/scheduler.cpp:59-67 | the wait ends at the first expiry when that is ahead, at once when it has passed, and after 100 s without timers |
| EventLoop.TimeOutFindsHeadDue | src/tdk/event_loop/event_loop.cpp:64-66 | in every run, a wait that times out with timers pending finds the first of them due |
| EventLoop.FiresEarliest | src/tdk/event_loop/scheduler.cpp:32-45 | in every run, what fires is a timer that no pending one precedes and that has expired, and the firing stops only when none has |
| EventLoop.ExitsIffNothingLeft | src/tdk/event_loop/event_loop.cpp:62-70 | in every run, the loop's test ends `run` exactly when there is no handle, task, timer or counted submission, and goes on to wait otherwise |
| EventLoopHistory.ForwardedCallsAreMade | src/tdk/event_loop/event_loop.cpp:39-60 | at every state of every run, among the forwarded `schedule` and `cancel` tasks that have started, each but the one whose call is still to do has had its own insertion or removal, once |
| EventLoopHistory.RemovalTakesThatTimer | src/tdk/event_loop/event_loop.cpp:50-54 | a removal moves one occurrence of that very timer from the list to those cancelled, or finds none and changes nothing; other expiries keep their order |
| EventLoopHistory.InsertionAddsThatTimer | src/tdk/event_loop/event_loop.cpp:39-42 | an insertion adds that very timer, behind those of its expiry |
| EventLoopHistory.WakeUpsAreCoalesced | src/tdk/io/iocp.cpp:33-56 | in every run, null packets posted and about to be posted are at most one more than resets of the flag, however many threads call `wake_up` |
| EventLoopHistory.PacketsConserved | src/tdk/io/iocp.cpp:33-56 | in every run, the packets in the port are those posted or arrived and not dequeued |
| EventLoopHandles.HandlesAreHeld | src/tdk/event_loop/event_loop.cpp:101-107 | at every state of every run the loop's number of handles is the sum, over the threads, of what each has added and not removed |
| EventLoopHandles.OwnHandleKeepsRunning | src/tdk/event_loop/event_loop.cpp:62-70 | when no thread removes more than it added, `run` does not return at any point of any run where some thread holds a handle of its own, whatever the others do with theirs |
| EventLoopHandles.ExitIsClean | src/tdk/event_loop/event_loop.cpp:17-23 | if, over the whole run, no thread removes more handles than it added and each thread but the loop's starts its calls only while it holds one of its own, every thread is out of the loop's methods at any exit |
| EventLoopHandles.LeftIffNoneOfItsOwn | src/tdk/event_loop/event_loop.cpp:17-70 | a thread inside `wake_up` can be left behind, by steps of the others on the loop and on their own handles, if and only if it holds none of its own |
| EventLoopExit.LeftBehindIffUnheld | src/tdk/event_loop/event_loop.cpp:17-70 | from any reachable state with a thread inside `wake_up`, and without touching the handles, the loop can be driven to return with that thread still where it is, if and only if no handle is held |
| EventLoopExit.ExitMayPrecedeWakeUp | src/tdk/event_loop/event_loop.cpp:17-23 | a run in which the loop returns while a thread that queued a task has not yet touched the port |
| EventLoopCode.Loop.Execute | src/tdk/event_loop/event_loop.cpp:17-33 | against any interference the thread's own steps are count, enqueue, compare-exchange, and the post only when it took the flag; the task is in the queue's history, after what was there |
| EventLoopCode.Loop.WakeUp | src/tdk/io/iocp.cpp:33-40 | one compare-exchange, and one post exactly when the flag was free |
| EventLoopCode.Loop.Schedule | src/tdk/event_loop/event_loop.cpp:39-48 | on the loop thread inserts at the upper bound and then counts; from another thread queues a one-shot task carrying the timer |
| EventLoopCode.Loop.Cancel | src/tdk/event_loop/event_loop.cpp:50-60 | on the loop thread takes the first occurrence of that timer out of the list and into those cancelled, and uncounts only when it was there; from another thread queues a one-shot task, which `RunTasks` then runs |
| EventLoopCode.Loop.Wait | src/tdk/io/iocp.cpp:42-67 | the loop thread's own steps are a null packet or a timeout and then the reset of the flag, or an I/O packet, a handler's calls and no reset; either way the timers come next |
| EventLoopCode.Loop.ScheduleDue | src/tdk/event_loop/scheduler.cpp:32-45 | fires the head while it is due, with re-entrant callbacks; the count it returns is by how much the fired timers have grown, no task has started, and it ends only with no timer due |
| EventLoopCode.Loop.RunTasks | src/tdk/event_loop/event_loop.cpp:72-99 | starts exactly the tasks queued when it took the queue, in order, against any interference, and returns their number; one after the other, each forwarded `schedule` takes exactly its insertion and each forwarded `cancel` exactly its removal |
| EventLoopCode.Loop.Run | src/tdk/event_loop/event_loop.cpp:62-70 | the loop's statements are a run of the machine, and when it returns by itself nothing is left to do |
| EventLoopCode.OthersKeep | src/tdk/event_loop/event_loop.cpp:17-107 | any stretch of other threads' steps leaves this thread's place, and for the loop thread its phase and timer list, alone |
| TimerList.UpperBoundUnique | src/tdk/event_loop/scheduler.cpp:15-19 | only one position has nothing later before it and something later at it |
| TimerList.InsertAmong | src/tdk/event_loop/scheduler.cpp:14-21 | a new timer goes behind those of its own expiry and changes no other expiry's order |
| TimerList.InsertSorted | src/tdk/event_loop/scheduler.cpp:14-21 | insertion keeps the list sorted |
| TimerList.RemoveAmong | src/tdk/event_loop/scheduler.cpp:23-30 | cancelling takes the first occurrence out of its own expiry's line and touches no other |
| TimerList.SortedIsCanonical | src/tdk/event_loop/scheduler.cpp:14-21 | a sorted list is determined by its lines, one for each expiry |
| Scheduler.Scheduler.Schedule | src/tdk/event_loop/scheduler.cpp:14-21 | the upper bound found by halving is where the timer is inserted; the books record it |
| Scheduler.Scheduler.Cancel | src/tdk/event_loop/scheduler.cpp:23-30 | true exactly when the timer was queued; one occurrence leaves |
| Scheduler.Scheduler.Drain | src/tdk/event_loop/scheduler.cpp:32-45 | the drain with re-entrant callbacks follows the books, returns the number fired, and stops only with nothing due |
| Scheduler.Scheduler.ScheduleAfter | src/tdk/event_loop/scheduler.cpp:59-67 | never beyond any deadline, exactly the time to the first one when it is ahead, 100 s for an empty list |
| Scheduler.DrainBalances | src/tdk/event_loop/scheduler.cpp:32-45 | under any callbacks the list stays sorted, and every timer inserted is queued, fired or cancelled, once |
| Scheduler.NeverEarly | src/tdk/event_loop/scheduler.cpp:36-39 | the k-th timer fired had expired at the clock reading of its own turn, and earlier firings are not disturbed |
| Scheduler.FirstInFirstOut | src/tdk/event_loop/scheduler.cpp:14-45 | whatever callbacks insert and cancel, the timers of one expiry that are not cancelled have fired, and are queued to fire, in insertion order |
| Scheduler.LineAccounts | src/tdk/event_loop/scheduler.cpp:14-45 | what that line lacks of the insertions is exactly what was cancelled |
| Scheduler.ActKeepsOrder | src/tdk/event_loop/scheduler.cpp:14-30 | inserting or cancelling, for any books at all, keeps every expiry's order |
| Scheduler.NoneCancelledLine | src/tdk/event_loop/scheduler.cpp:14-45 | when none of an expiry is cancelled, its line is just the insertions |
| Scheduler.InsertionsSortStably | src/tdk/event_loop/scheduler.cpp:14-21 | any sequence of insertions is a stable sort |
| Scheduler.QuietDrain | src/tdk/event_loop/scheduler.cpp:32-45 | when callbacks do nothing, exactly the timers due fire, in list order |
| Scheduler.TimersInTurn | src/tdk/event_loop/scheduler.cpp:34-42 | one timer at a time: it leaves the list before its callback's calls take effect, and the loop goes on from what they leave |
| Scheduler.ActsSnoc | src/tdk/event_loop/scheduler.cpp:32-45 | a callback's calls take effect one after the other |
| TaskScheduler.Scheduler.Cancel | src/tdk.task/task/scheduler.cpp:64-73 | moves the entry to the cancelled list and keeps the loop's reference count |
| TaskScheduler.Scheduler.Drain | src/tdk.task/task/scheduler.cpp:41-62 | both loops with re-entrant callbacks follow the ledger; it ends early only when the given callbacks are used up, one completed entry for each; when it completes, everything cancelled before it has been aborted, in order, and no active timer was due at its clock sample |
| TaskScheduler.Scheduler.NextSchedule | src/tdk.task/task/scheduler.cpp:28-39 | zero with something cancelled, 100 ms with nothing queued or something due, otherwise exactly the time to the first expiry |
| TaskScheduler.DrainConserves | src/tdk.task/task/scheduler.cpp:41-62 | references held for timers equal active, cancelled and running entries; entries are aborted in cancel order; each entry scheduled is active, withdrawn or succeeded, once; entries of one expiry succeed in the order they were scheduled |
| TaskScheduler.SucceededWereDue | src/tdk.task/task/scheduler.cpp:51-61 | every entry completed with success was due at the one clock sample, and that loop aborts nothing |
| TaskScheduler.AbortsBeforeAnythingSucceeds | src/tdk.task/task/scheduler.cpp:41-62 | whatever the callbacks do, what was cancelled before the drain is aborted first, in the order of cancellation, and nothing succeeds while some of it waits |
| TaskScheduler.QuietDrain | src/tdk.task/task/scheduler.cpp:41-62 | when callbacks do nothing, exactly the cancelled entries are aborted and exactly those due succeed, in list order, each returning one reference |
| TaskScheduler.EntriesInTurn | src/tdk.task/task/scheduler.cpp:44-60 | one entry at a time: it leaves its list, its callback's calls take effect, its reference goes back |
| TaskScheduler.DueSchedule | src/tdk.task/task/scheduler.cpp:51-61 | everything that the callbacks run schedule is scheduled, in order |
| SlistQueue.Queue.constructor | src/tdk/util/list_node.hpp:61-67 | walking an existing chain adopts all of it |
| SlistQueue.Queue.AddFront | src/tdk/util/list_node.hpp:73-81 | the node comes before the sequence, chain and ends kept |
| SlistQueue.Queue.AddTail | src/tdk/util/list_node.hpp:83-90 | the node comes after the sequence, chain and ends kept |
| SlistQueue.Queue.PopFront | src/tdk/util/list_node.hpp:96-105 | the first node leaves with a null link, so it can be queued again; an empty queue stays empty |
| SlistQueue.Queue.Splice | src/tdk/util/list_node.hpp:107-113 | concatenates in constant time and leaves the other queue empty |
| SlistQueue.Queue.Count | src/tdk/util/list_node.hpp:119-128 | the walk counts every node and ends |
| SlistQueue.ChainIsUnique | src/tdk/util/list_node.hpp:61-67 | a head node starts only one well-formed chain |
| SerialQueue.Queue.Execute | src/tdk/task/queue.cpp:16-40 | a busy queue only takes the operation in; the thread that finds it free runs everything submitted meanwhile, in lock order, and leaves it free and empty |
| SerialQueue.RunKeepsInv | src/tdk/task/queue.cpp:16-40 | at every state of every run there is at most one runner, it accounts for the running operation, a free queue is empty, and operations are conserved in order |
| SerialQueue.MutualExclusion | src/tdk/task/queue.cpp:26-28 | no two threads are inside operations at once |
| SerialQueue.LockOrder | src/tdk/task/queue.cpp:16-40 | operations start and finish in the order their submitters took the lock, each once, one at a time |
| SerialQueue.FreeMeansDone | src/tdk/task/queue.cpp:31-40 | no running operation means an empty queue and everything submitted finished |
| SerialQueue.UnlockedReadIsStable | src/tdk/task/queue.cpp:26-28 | no other thread's step changes what the runner reads outside the lock |
| BufferBase.BufferBase.Copy | src/tdk/buffer/buffer_base.cpp:49-58 | a copy joins the storage's handles and the counter follows; without counted storage it fails and changes nothing |
| BufferBase.BufferBase.Release | src/tdk/buffer/buffer_base.cpp:45-47 | the storage is freed exactly when the last of its handles goes, and was not freed before |
| BufferBase.CountsSharers | src/tdk/buffer/buffer_base.cpp:112-126 | the counter in the header is the number of live handles that share the storage |
| BufferBase.BufferBase.Swap | src/tdk/buffer/buffer_base.cpp:128-132 | handles change places on the storages' lists; no counter changes |
| BufferBase.BufferBase.CopyAssign | src/tdk/buffer/buffer_base.cpp:60-67 | copy, swap and release: the old storage is freed exactly when this was its last handle; self-assignment is harmless |
| BufferBase.BufferBase.MoveAssign | src/tdk/buffer/buffer_base.cpp:79-88 | the old storage is released, the other handle's is taken over without counting, and it is left on nothing |
| BufferBase.BufferBase.Reserve | src/tdk/buffer/buffer_base.cpp:134-142 | the only handle on enough bytes stays; any other gets storage of its own with the bytes that fit, and the storage it leaves is freed exactly when it was the last |
| BufferBase.Apart | src/tdk/buffer/buffer_base.cpp:134-142 | after `reserve`, no other live handle sees the bytes of this one |
| MemoryBlock.MemoryBlock.Reserve | src/tdk/buffer/memory_block.cpp:135-139 | the contents are cut only when shared storage is left for a smaller one; the cursors stay in order |
| MemoryBlock.MemoryBlock.Write | src/tdk/buffer/memory_block.cpp:176-181 | appends every byte, reports them all, reads nothing away, and leaves the bytes of every other handle as they were |
| MemoryBlock.MemoryBlock.Append | src/tdk/buffer/memory_block.cpp:230-233 | appends the other block's unread bytes, also when both share storage |
| MemoryBlock.MemoryBlock.Peek | src/tdk/buffer/memory_block.cpp:184-188 | copies the first unread bytes and changes neither block nor the rest of the caller's buffer |
| MemoryBlock.MemoryBlock.Read | src/tdk/buffer/memory_block.cpp:191-194 | takes the first unread bytes, as many as there are |
| MemoryBlock.MemoryBlock.Align | src/tdk/buffer/memory_block.cpp:123-132 | forgets what was read, keeps what was not, on storage of the block's own, every other handle's bytes unchanged |
| MemoryBlock.MemoryBlock.Clear | src/tdk/buffer/memory_block.cpp:142-146 | empties the block on storage of its own |
| MemoryBlock.MemoryBlock.MoveTo | src/tdk/buffer/memory_block.cpp:162-169 | refused at capacity or beyond; a position not beyond the write position cuts the contents back to it and rewinds the reading |
| MemoryBlock.MemoryBlock.MoveWrite | src/tdk/buffer/memory_block.cpp:78-87 | moves by the amount asked, limited so that the cursors stay in order |
| MemoryBlock.MemoryBlock.MoveRead | src/tdk/buffer/memory_block.cpp:107-116 | moves by the amount asked, limited so that the cursors stay in order |
| MemoryBlock.MemoryBlock.CopyAssign | src/tdk/buffer/memory_block.cpp:37-41 | the block becomes a second view of the other's contents |
| MemoryBlock.MemoryBlock.Move | src/tdk/buffer/memory_block.cpp:44-50 | the new block has the contents, and the old one is empty and usable |
| MemoryBlock.MemoryBlock.MoveAssign | src/tdk/buffer/memory_block.cpp:53-58 | the contents, storage and capacity move; the source stays in order exactly when nothing had been written to it |
| MemoryBlock.MemoryBlock.Padding | src/tdk/buffer/memory_block.cpp:217-228 | fills up to a multiple of the alignment with the fewest bytes and returns their number |
| SharedBlocks.Run | src/tdk/buffer/memory_block.cpp:77-233 | any sequence of writes, reads, peeks, seeks, unwrites, aligns, clears, reserves that grow or shrink, paddings, appends, assignments, swaps, marks and restores, over any number of blocks however they share storage, gives the answers, contents, capacities and sharing of separate byte queues; a block that none of them changes shows the same bytes and positions |
| BlockWorld.FirstInFirstOut | src/tdk/buffer/memory_block.hpp:10-14 | over any run of writes, reads, marks, paddings, appends, aligns and growing reserves on a block, and anything on the others, the bytes taken from it followed by those left are those there were followed by those given, in order |
| BlockWorld.MarkRestores | src/tdk/buffer/memory_block.cpp:158-169 | after a mark and any run of writes, reads, peeks, seeks, paddings and appends, and of reserves, moves back and restores of other marks that stay at or above its write position, restoring it gives exactly the queue of the time of the mark; it is refused exactly when the capacity is then the marked write position |
| BlockWorld.NextValid | src/tdk/buffer/memory_block.hpp:13 | every operation, a shrinking reserve of shared storage too, keeps 0 <= read <= write <= capacity |
| SharedBlocks.Create | src/tdk/buffer/memory_block.cpp:13-19 | a new block shares nothing |
| SharedBlocks.Lend | src/tdk/buffer/memory_block.cpp:21-29 | a block over the caller's memory shares nothing and shows what the memory holds |
| SharedBlocks.Share | src/tdk/buffer/memory_block.cpp:31-35 | a copy has the contents, capacity and storage of its original; without counted storage there is no copy |
| SharedBlocks.Destroy | src/tdk/buffer/memory_block.cpp:60-62 | the other blocks are as they were, and the storage is freed exactly when no other block shares it |
| BlockWorld.OthersUntouched | src/tdk/buffer/buffer_base.cpp:134-142 | a cell that no operation of a run changes keeps contents, capacity and storage; `SharedBlocks.Run` carries it to the blocks |
| BlockWorld.OperationsMean | src/tdk/buffer/memory_block.cpp:77-233 | what every operation does to its block and answers, in bytes and numbers: which bytes are read, how far cursors move, how many bytes a padding takes |
| BlockWorld.WritersAreAlone | src/tdk/buffer/buffer_base.cpp:134-142 | an operation that writes or reserves leaves its block on storage shared with no other |
| SharedBlocks.CopiesAreIndependent | src/tdk/buffer/memory_block.cpp:13-35 | from nothing: a block, a copy of it on the same storage, and any run over the two give the answers of two separate queues |
| SharedCount.RunKeepsInv | src/tdk/buffer/buffer_base.cpp:90-142 | at every state of any interleaving of counter accesses and byte copies by threads that share one storage, the counter is the number of handles that have raised it and not lowered it; a handle being copied stays; what a `reserve` has copied is what the storage holds |
| SharedCount.FreedOnceByTheLast | src/tdk/buffer/buffer_base.cpp:112-126 | the storage is freed exactly when the last handle is gone, once, and no thread can do anything to it afterwards |
| SharedCount.LoadOfOneIsStable | src/tdk/buffer/buffer_base.cpp:134-137 | after `reserve` has seen a count of one, no other thread can take any step on the storage until the handle goes on |
| SharedCount.AsIfUnshared | src/tdk/buffer/buffer_base.cpp:134-142 | until a handle lowers the counter, the bytes it sees are those its own writes leave, whatever other threads do |
| SharedCount.ReserveCopies | src/tdk/buffer/buffer_base.cpp:138-139 | the byte-by-byte copy of a `reserve` is of the bytes at its load, whatever steps of others come between |
| Padding.Pkcs5 | src/tdk/crypto/padding.cpp:7-17 | the unread bytes become their padded form of section 6.3 of RFC 5652, through the growing byte-by-byte writes |
| Padding.PaddedIsAligned | src/tdk/crypto/padding.cpp:11-17 | the padded length is a positive multiple of the alignment, the next one |
| Padding.RoundTrip | src/tdk/crypto/padding.cpp:19-22 | for every alignment from 1 to 255 the data size of the padded data is the length of the data, which is its beginning |
| Padding.PadBytes | src/tdk/crypto/padding.cpp:7-17 | every byte added is the number of bytes added |
| Padding.PaddedInjective | src/tdk/crypto/padding.cpp:7-22 | different data pad to different bytes |
| Padding.DataSizeInRange | src/tdk/crypto/padding.cpp:19-22 | on any bytes, the unsigned result is at most the size exactly when the last byte is |
| Sha1Transform.Transform | src/tdk/crypto/sha1.cpp:48-98 | the 80 unrolled operations over the in-place circular schedule compute the compression of section 6.1 of RFC 3174 for every state and block, and leave schedule words 64 to 79 where the block was |
| Sha1Transform.WindowSlot | src/tdk/crypto/sha1.cpp:34-36 | the 16-word window holds the last 16 words of the 80-word schedule, and ahead of them the block's own |
| Sha1Transform.Blk | src/tdk/crypto/sha1.cpp:35-36 | the masked indices yield the next schedule word and overwrite the oldest |
| Sha1Transform.RoundFunctions | src/tdk/crypto/sha1.cpp:39-43 | the rewritten choose and majority expressions are those of section 5 of RFC 3174 |
| Sha1.Context.Update | src/tdk/crypto/sha1.cpp:116-134 | for every split the context stands for the whole message; exactly which of the caller's bytes are overwritten, and by what |
| Sha1.Context.Value | src/tdk/crypto/sha1.cpp:139-165 | the digest of everything absorbed, and a wiped context |
| Sha1.PadIndex | src/tdk/crypto/sha1.cpp:148-150 | the loop condition on the counter ends the padding at the number of zeros of section 4 of RFC 3174, not before |
| Sha1.DigestOfChunks | src/tdk/crypto/sha1.cpp:116-188 | for every message and every way of cutting it into updates, the result is the digest of the whole, padded as in section 4 of RFC 3174 |
| Sha1.KeepsInputIff | src/tdk/crypto/sha1.cpp:61-126 | an update leaves every input of its length alone if and only if it does not reach the end of a second block; otherwise an input of one bits is damaged |
| Sha1Example.DigestOfAbc | src/tdk/crypto/sha1.cpp:29-111 | the digest of "abc" is the one published in section 7.3 of RFC 3174, through all 80 steps |
| Sha1Spec.ExpandBit | src/tdk/crypto/sha1.cpp:35-36 | bit i + 1 of the next schedule word, modulo 32, is the sum of the bits i of the four words before it |
| Sha1Spec.StepReadsWord | src/tdk/crypto/sha1.cpp:39-43 | two blocks lead to the same registers in a step exactly when they give it the same schedule word |
| Sha1Spec.RoundsInjective | src/tdk/crypto/sha1.cpp:65-88 | for every block the 80 steps permute the registers |
| Sha1Spec.LengthIsNumber | src/tdk/crypto/sha1.cpp:143-146 | the eight bytes after the padding spell the bit length modulo 2^64, most significant first |
| Words.RotLBit | src/tdk/crypto/sha1.cpp:29 | for every amount, bit i of a word is bit i + n modulo 32 of its rotation |
| Streaming.CarryTest | src/tdk/crypto/md5.cpp:102-105 | the comparison after the wrapping addition is the carry, and the two words then hold the sum |
| Streaming.CountAdd | src/tdk/crypto/md5.cpp:102-105 | the two-word counter keeps the bit length modulo 2^64 |
| Streaming.FoldAppend | src/tdk/crypto/md5.cpp:109-119 | hashing whole blocks piece by piece is hashing them together |
| Streaming.PaddedInjective | src/tdk/crypto/md5.cpp:34-38 | two messages are padded alike only if they are equal |
| Md5Transform.Transform | src/tdk/crypto/md5.cpp:155-238 | the 64 unrolled statements compute the rounds of section 3.4 of RFC 1321 for every state and block, which is left alone |
| Md5Transform.Encode | src/tdk/crypto/md5.cpp:243-251 | words to bytes, least significant first |
| Md5Transform.Decode | src/tdk/crypto/md5.cpp:256-262 | bytes to words, least significant first |
| Md5Transform.DecodeOfEncode | src/tdk/crypto/md5.cpp:243-262 | decoding undoes encoding, for all words |
| Md5Transform.EncodeOfDecode | src/tdk/crypto/md5.cpp:243-262 | encoding undoes decoding, for all whole-word byte strings |
| Md5.Context.Update | src/tdk/crypto/md5.cpp:91-125 | for every split the context stands for the whole message, without overflow in the index loop for any non-negative `int` size; the input is unchanged |
| Md5.Context.Value | src/tdk/crypto/md5.cpp:130-151 | the digest of everything absorbed, and a zeroed context |
| Md5.DigestOfChunks | src/tdk/crypto/md5.cpp:91-151 | for every message and every way of cutting it into updates, the result is the digest of sections 3.1 to 3.5 of RFC 1321 |
| Md5Example.DigestOfAbc | src/tdk/crypto/md5.cpp:40-85 | the digest of "abc" is the one published in section A.5 of RFC 1321, through all 64 operations |
| Md5Transform.Schedule1 | src/tdk/crypto/md5.cpp:160-176 | word, rotation and constant of each operation of round 1 |
| Md5Transform.Schedule2 | src/tdk/crypto/md5.cpp:178-194 | the same of round 2 |
| Md5Transform.Schedule3 | src/tdk/crypto/md5.cpp:196-212 | the same of round 3 |
| Md5Transform.Schedule4 | src/tdk/crypto/md5.cpp:214-230 | the same of round 4 |
| Md5Spec.StepReadsWord | src/tdk/crypto/md5.cpp:54-73 | two blocks lead to the same registers in an operation exactly when they give it the same message word |
| Md5Spec.RoundsInjective | src/tdk/crypto/md5.cpp:155-238 | for every block the 64 operations permute the registers |
| Md5Spec.LengthIsNumber | src/tdk/crypto/md5.cpp:130-151 | the eight bytes after the padding spell the bit length modulo 2^64, least significant first |
| Crc32Table.TableEntry | src/tdk/crypto/crc32.cpp:8-77 | all 256 table entries are eight bit-steps of their index with the polynomial 0xEDB88320 |
| Crc32Table.StepsLinear | src/tdk/crypto/crc32.cpp:89-93 | bit-steps distribute over exclusive or |
| Crc32.ByteStepIsFeed | src/tdk/crypto/crc32.cpp:92 | one table lookup is eight bits of the bit-serial register, for every register and byte |
| Crc32.Crc32.Update | src/tdk/crypto/crc32.cpp:89-93 | over any sequence of updates the register is that of the concatenated message; a negative size does nothing |
| Crc32.Crc32.Value | src/tdk/crypto/crc32.cpp:95-97 | the bit-serial reflected CRC of section 8 of RFC 1952, of everything absorbed |
| Crc32.FeedInjectiveInRegister | src/tdk/crypto/crc32.cpp:89-93 | no input merges two registers |
| Crc32.FeedInjectiveInBits | src/tdk/crypto/crc32.cpp:89-93 | up to 32 bits are told apart by the register they lead to |
| Crc32.DetectsBitBurst | src/tdk/crypto/crc32.cpp:89-97 | two messages of one length that differ only within a window of at most 32 bits, byte-aligned or not, have different values |
| Crc32.DetectsByteBurst | src/tdk/crypto/crc32.cpp:89-97 | two messages of one length that differ only within four consecutive bytes have different values |
| Crc32.Residue | src/tdk/crypto/crc32.cpp:89-97 | every message followed by its own value, least significant byte first, leaves the register 0xDEBB20E3 |
| Crc32.ValueOfDigits | src/tdk/crypto/crc32.cpp:80-97 | the value of the digits 1 to 9 is 0xCBF43926 |
| Crc32.ValueOfNothing | src/tdk/crypto/crc32.cpp:80-97 | the value of the empty message is 0 |
| Base64.Encode | src/tdk/crypto/base64.cpp:30-56 | although the accumulator overflows without bound, the text is that of section 4 of RFC 4648, four characters for every three bytes begun, and empty above 1024968 bytes |
| Base64.Decode | src/tdk/crypto/base64.cpp:58-81 | writes exactly floor(6k/8) bytes for k characters that are not skipped, their 6-bit values regrouped, and no other byte of the buffer |
| Base64.SymbolRoundTrip | src/tdk/crypto/base64.cpp:8-19 | the two tables are inverse on all 64 values |
| Base64.SymbolIs | src/tdk/crypto/base64.cpp:8 | the table by number: the upper-case letters from 65, the lower-case ones from 97, the digits from 48, then 43 and 47 |
| Base64.ReverseSymbolIs | src/tdk/crypto/base64.cpp:10-19 | the reverse table by number, for every character; 64 outside the alphabet |
| Base64.SkippedIs | src/tdk/crypto/base64.cpp:67 | the characters passed over, by number |
| Base64.TextEnds | src/tdk/crypto/base64.cpp:38-55 | the text ends in as many '=' as its last group of three bytes lacks, and has no other |
| Base64.SextetsAreTheBits | src/tdk/crypto/base64.cpp:43-54 | the four values of a group are the 24 bits of its three bytes, in order |
| Base64.OctetsAreTheBits | src/tdk/crypto/base64.cpp:73-78 | the three bytes of a group are the 24 bits of its four values, in order |
| Base64.SpaceCarriesNothing | src/tdk/crypto/base64.cpp:67-69 | white space anywhere changes nothing |
| Base64.RoundTrip | src/tdk/crypto/base64.cpp:30-81 | decoding the encoded text, with white space inserted anywhere, gives back every byte string |
| Base64.RoundTripLimit | src/tdk/crypto/base64.cpp:33-36 | the original's encoder is undone exactly for strings within its size limit |
| Base64.ForeignCharacterIsDecoded | src/tdk/crypto/base64.cpp:70-74 | anywhere in any text, a character outside the alphabet counts as six zero bits and sets the bit before them |

## Left out

- EventLoopCode.Loop.Run: is given a number of turns and of timer callbacks, since the original may run for ever; what it says of returning holds for every number.
- EventLoopCode.Loop.ScheduleDue: is given a number of callbacks, since callbacks may insert due timers for ever.
- Scheduler.Scheduler.Drain: takes the clock readings and what the callbacks do as a finite list, and reports whether the list was long enough.
- TaskScheduler.Scheduler.Drain: takes what the callbacks do as a finite list, and reports whether it was long enough; the lock is held throughout, so only callbacks re-enter.
- SerialQueue.Queue.Execute: the operations submitted while one runs are a parameter; the interleavings themselves are those of the step machine beside it.
- EventLoop.NeverSleepsPastDeadline: does not count the delay between computing the timeout and starting to wait, nor the rounding of the timeout to milliseconds.
- Sha1.Context.Update: sizes below 2^31, as the `int` parameter has them, and data that is not the context's own buffer.
- Md5.Context.Update: sizes below 2^31, as the `int` parameter has them, and data that is not the context's own buffer.
- Base64.Decode: characters from 128 up, for which the original reads outside its table; the size argument, which the original does not use; and buffers too small for the result, which it does not check.
- MemoryBlock.MemoryBlock.Write: cursors beyond `int32_t`; and a block's own bytes as input when they would have to be reallocated, where the original reads freed memory.
- BufferBase.BufferBase.External: memory handed over with an allocator, for which the original takes no reference, and memory that another handle already uses.
- SharedBlocks.Run: restores of positions beyond the write position, and raising it over bytes not written through the block, which would show bytes nobody wrote; appending a block to itself; and moves between blocks, which are stated one at a time in `MemoryBlock`. Blocks are created, lent, copied and destroyed between runs.
- Threads and the methods of a buffer: `BufferBase` and `MemoryBlock` take one call at a time; the races on a shared counter are those of the step machine of `SharedCount`, where one handle is used by one thread, copying it apart, writes follow a `reserve`, and there are fewer than 2^31 handles.
- Unchecked setters of a memory block (`wr_ptr( uint8_t* )`, `rd_ptr( uint8_t* )`, `length( l )`) and writing through `wr_ptr()`: they bypass copy on write or the order of the cursors.
- The text forms of `memory_block::write` and `write_fmt`: they only compute a length.
- Fairness and liveness of the loop: that a thread inside `wake_up`, or the kernel, eventually takes its step.
- `event_loop::run` called from a callback, and a change of the owning thread.
- The task objects themselves: how one-shot and handler tasks are allocated and deleted.
- `scheduler::schedule( slist_queue& )` and the templates of `event_loop.hpp`: the same list operations again.
- The exit test of the other event loop in src/tdk.task/task/event_loop.cpp: the engine that releases posted operations is not part of this model; only its scheduler's references are.
- The epoll port, sockets, SSL filters, zlib, ADO and .NET code: wrappers over kernels and libraries.
- SEED, date and time conversion, string helpers, logging, `rc_ptr`, singletons and the loop group: easier members, or functions that are not part of this model.
