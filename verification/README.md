# Kernel primitives of Zephyr 1.13

A Dafny model of the concurrency core of the Zephyr 1.13 kernel in this repository: the code that
queues threads, moves data between them and decides which of them runs. The uniprocessor,
non-tickless configuration is modelled, as the kernel runs on one hart here.

Every component comes in two layers. A *declared* layer says on values what one call does, and
proves what holds over whole runs: any sequence of calls and time-outs, or any interleaving of
atomic steps. Its `Effects` modules say when each call gives which answer and what becomes of every
waiter, in terms of positions and priorities only. A *code* layer is a class or method that updates fields, arrays and queues the way the
C code does and is proved to do what is declared.

| file | what it models |
|---|---|
| `WaitQueue` (with `Basics`) | the priority-sorted wait queue that every blocking object uses |
| `PipeSpec`, `PipeQueues`, `PipeRuns`, `PipeEffects`, `Pipe` (with `Circular`) | pipes: a byte stream spread over a ring buffer, waiting readers and waiting writers |
| `RunQueue`, `Bits`, `MultiQueue`, `TreeQueue`, `RbTree`, `RbDepth`, `RbOps`, `RbWalk`, `RbQueue`, `Lockstep` | the three run queues and their equivalence, down to the red-black tree, its depth record and its iterator |
| `Scheduler`, `SchedulerRuns`, `SchedulerEffects`, `Rotation`, `Kernel` | the next-thread cache, the preemption rule, yielding and time slices |
| `Mutex`, `MutexEffects` | the recursive mutex with priority inheritance and a ceiling |
| `TimeoutSpec`, `TimeoutRuns`, `TimeoutLedger`, `SysClock`, `Ticks` | the delta list of timeouts and the tick arithmetic |
| `MessageQueue`, `MessageRuns`, `MessageEffects` | the message queue with its one shared wait queue |
| `MailboxSpec`, `MailboxRuns`, `MailboxEffects`, `Mailbox` | rendezvous matching and the life of a message |
| `Slab`, `SlabEffects`, `Alert` | the block allocator and the lock-free alert delivery |

Nine things the code or its documentation suggests turn out not to hold; each comes with an input
that shows it and with the exact condition under which it does hold:

- An announcement spanning several deadlines handles the later timeouts first
  (`TimeoutSpec.LaterHandledFirst`, `TimeoutSpec.FiredInDeadlineOrderIff`).
- The precise millisecond conversion can overshoot by a tick or more (`Ticks.OneSecondGrows`,
  `Ticks.PreciseTightIff`).
- A tick count too large for its 32 bits is cut off to one that is negative or too short
  (`Ticks.LongDelayCutOff`, `Ticks.NarrowCoversIff`).
- An alert whose 32-bit count wraps is submitted a second time (`Alert.WrapSubmitsTwice`,
  `Alert.RunInvIff`).
- A message queue with room for no message lets readers and writers wait side by side
  (`MessageRuns.NoRoomMixes`, `MessageRuns.UniformIffRoom`).
- A mutex owner above the priority ceiling is demoted below its own priority by another thread's
  time-out (`Mutex.AboveCeilingDemoted`, `Mutex.SafeForAllRunsIff`).
- The tree queue is not first-in first-out past its last order key (`TreeQueue.WrapBreaksFifo`,
  `TreeQueue.RunAgreesIff`).
- A nested scheduler unlock can give the processor away, against the comment at kernel.h:1211-1213
  (`SchedulerRuns.NestedUnlockGivesWay`, `SchedulerRuns.NestedLocksKeepIff`).
- A mailbox message with both data and a block loses the block (`MailboxRuns.BlockLost`,
  `MailboxRuns.BlockReleasedIff`).

Conventions: a numerically smaller priority is more urgent; a thread is its number; each API call is
one atomic step and a waiter's time-out is a step of its own. A thread's priority does not change
while it waits, except through the mutex and the scheduler calls that are modelled. Interrupts, the
timer hardware, memory pools and the moment a time-out fires are parameters or events.

## Model

| member | source | states |
|---|---|---|
| `WaitQueue.Add` | zephyr-zephyr-v1.13.0/kernel/sched.c:469-484 | the walk of `_priq_dumb_add` puts a thread behind everyone at least as urgent and in front of everyone less urgent |
| `WaitQueue.EnqueueSorted` | zephyr-zephyr-v1.13.0/kernel/sched.c:469-484 | adding keeps the queue in priority order |
| `WaitQueue.EnqueueFifo` | zephyr-zephyr-v1.13.0/kernel/sched.c:469-484 | adding puts the thread last among its equals and moves nobody of another priority |
| `WaitQueue.SortedFifoUnique` | zephyr-zephyr-v1.13.0/kernel/sched.c:469-484 | priority order and arrival order within each priority determine the queue: any implementation with both is this one |
| `WaitQueue.WithoutChosen` | zephyr-zephyr-v1.13.0/kernel/sched.c:486-491 | removing a thread leaves exactly the others, in their order |
| `Pipe.CopyIn` | zephyr-zephyr-v1.13.0/kernel/pipes.c:196-209 | copying into the buffer writes exactly the first min(room, size) bytes at the index and nothing else |
| `Pipe.CopyOut` | zephyr-zephyr-v1.13.0/kernel/pipes.c:196-209 | copying out of the buffer yields exactly the first min(room, available) bytes from the index |
| `Pipe.Pipe.constructor` | zephyr-zephyr-v1.13.0/kernel/pipes.c:134-146 | a new pipe of any size, zero included, is empty with nobody waiting |
| `Pipe.Pipe.PutPass` | zephyr-zephyr-v1.13.0/kernel/pipes.c:228-243 | one pass appends a prefix of the source to the contents; unless all that fits was written it stopped at the physical end |
| `Pipe.Pipe.BufferPut` | zephyr-zephyr-v1.13.0/kernel/pipes.c:219-246 | two passes append exactly min(source, free) bytes and keep the write index at read index plus used bytes, modulo the size |
| `Pipe.Pipe.GetPass` | zephyr-zephyr-v1.13.0/kernel/pipes.c:264-279 | one pass removes a prefix of the contents, in order |
| `Pipe.Pipe.BufferGet` | zephyr-zephyr-v1.13.0/kernel/pipes.c:256-282 | two passes remove exactly min(room, used) bytes from the front, in order |
| `Pipe.XferPrepare` | zephyr-zephyr-v1.13.0/kernel/pipes.c:314-377 | fails exactly when the call may not wait and demand plus space is below the minimum; otherwise splits the queue into requests that fit completely and a rest whose head does not |
| `Pipe.ServeReaders` | zephyr-zephyr-v1.13.0/kernel/pipes.c:478-496 | every reader on the transfer list is filled completely, in order, before it is readied |
| `Pipe.TakeFromWriters` | zephyr-zephyr-v1.13.0/kernel/pipes.c:626-650 | bytes taken plus bytes still listed are what was there; listed writers stop being drained only when the reader is satisfied |
| `Pipe.TakeFromHead` | zephyr-zephyr-v1.13.0/kernel/pipes.c:652-661 | the head of the remaining queue gives exactly what the reader still wants and it still has, from the front of its data |
| `Pipe.Pipe.RefillFromWriters` | zephyr-zephyr-v1.13.0/kernel/pipes.c:668-680 | the writers still listed are drained into the buffer completely, in queue order |
| `Pipe.Pipe.ReadOut` | zephyr-zephyr-v1.13.0/kernel/pipes.c:610-661 | bytes read, buffer, listed writers and remaining queue concatenate to what was there before |
| `Pipe.Pipe.Refill` | zephyr-zephyr-v1.13.0/kernel/pipes.c:668-689 | the buffer is topped up from the listed writers and then from the head of the queue, up to its size |
| `Pipe.Pipe.Transfer` | zephyr-zephyr-v1.13.0/kernel/pipes.c:610-689 | a read takes a prefix of the stream, leaves the rest in order, and if writers remain the buffer is full again |
| `Pipe.Pipe.Put` | zephyr-zephyr-v1.13.0/kernel/pipes.c:432-577 | the code of a write, with time-outs firing while it copies, does what the declared write does to buffer, queues, woken and timed-out waiters and result, which `PutQueues` and `PutAnswer` pin down |
| `Pipe.Pipe.Get` | zephyr-zephyr-v1.13.0/kernel/pipes.c:579-719 | the code of a read does what the declared read does, the same way, which `GetQueues`, `GetMoves` and `GetAnswer` pin down |
| `Pipe.PutAgrees` | zephyr-zephyr-v1.13.0/kernel/pipes.c:478-576 | the declared write expressed through the transfer list and the head of the remaining queue |
| `Pipe.GetAgrees` | zephyr-zephyr-v1.13.0/kernel/pipes.c:610-718 | the declared read expressed through the transfer list and the head of the remaining queue |
| `PipeQueues.FillDelivers` | zephyr-zephyr-v1.13.0/kernel/pipes.c:478-511 | serving readers hands over exactly the given bytes, in queue order, each reader's new bytes appended to what it had |
| `PipeQueues.DrainTakes` | zephyr-zephyr-v1.13.0/kernel/pipes.c:626-689 | draining writers removes exactly the front of their concatenated bytes |
| `PipeRuns.GetTakesFront` | zephyr-zephyr-v1.13.0/kernel/pipes.c:579-719 | with S the buffer followed by the waiting writers' bytes, a read returns the first min(wanted, length of S) bytes of S; whatever times out meanwhile, the buffer and the writers that still owe bytes together hold exactly the rest of S, those who timed out leave with their share, and every writer it readies is fully drained |
| `PipeRuns.PutSplits` | zephyr-zephyr-v1.13.0/kernel/pipes.c:432-577 | a write's data is cut into the part for readers, the part for the buffer and the part kept, in that order and without loss |
| `PipeRuns.PutServesInOrder` | zephyr-zephyr-v1.13.0/kernel/pipes.c:478-511 | waiting readers receive the front of the data in queue order and every reader readied is completely filled |
| `PipeRuns.PutOvertakesNobody` | zephyr-zephyr-v1.13.0/kernel/pipes.c:513-576 | whatever times out meanwhile, a writer that has to wait queues behind the buffered bytes and every waiting writer at least as urgent |
| `PipeRuns.PutShape` | zephyr-zephyr-v1.13.0/kernel/pipes.c:298-310 | a write keeps: readers wait only on an empty pipe without waiting writers, writers wait only on a full one, every waiter still needs a byte |
| `PipeRuns.GetShape` | zephyr-zephyr-v1.13.0/kernel/pipes.c:298-310 | a read keeps the same shape, for pipes of size zero as well |
| `PipeRuns.NoWaitAllOrNothing` | zephyr-zephyr-v1.13.0/kernel/pipes.c:326-340 | without waiting, a call either fails with -EIO having moved nothing or succeeds having moved at least the minimum; -EAGAIN does not occur |
| `PipeRuns.StepStream` | zephyr-zephyr-v1.13.0/kernel/pipes.c:432-719 | every call moves bytes from writers to the back and from the front to readers of one and the same stream |
| `PipeRuns.StepReports` | zephyr-zephyr-v1.13.0/kernel/pipes.c:478-719 | what each call reports, together with what timed-out and pending callers already moved, balances the bytes that crossed the pipe |
| `PipeRuns.PipeSafety` | zephyr-zephyr-v1.13.0/kernel/pipes.c:298-310 | in every run from a fresh pipe: the shape holds, delivered bytes are a prefix of the bytes writers parted with and the rest is the buffer, and reported plus pending bytes written equal reported plus pending bytes read plus the buffer |
| `PipeEffects.ReaderShare` | zephyr-zephyr-v1.13.0/kernel/pipes.c:478-511 | each reader served gets exactly the bytes after those the readers in front of it took, as many as it wants and there are, and nothing else about it changes |
| `PipeEffects.WriterShare` | zephyr-zephyr-v1.13.0/kernel/pipes.c:626-661 | each writer drained parts with its next bytes once those in front of it have none left, and nothing else about it changes |
| `PipeEffects.PutQueues` | zephyr-zephyr-v1.13.0/kernel/pipes.c:432-577 | after a write, readers completely served are readied; of the others exactly those whose timeout fired meanwhile have left, with the bytes they got, and the rest stay in order; writers likewise, with the caller's own entry behind everyone at least as urgent if it waits |
| `PipeEffects.PutAnswer` | zephyr-zephyr-v1.13.0/kernel/pipes.c:432-577 | a write is refused, changing nothing, exactly if it may not wait and there is no place for the minimum; else it moves what there is place for and answers success, is posted, or waits, exactly by whether all was moved, it is asynchronous, and it may wait |
| `PipeEffects.GetQueues` | zephyr-zephyr-v1.13.0/kernel/pipes.c:579-719 | the same of a read: drained writers are readied, writers and readers whose timeout fired have left with what they moved, the rest stay in order, and the caller queues if it waits |
| `PipeEffects.GetMoves` | zephyr-zephyr-v1.13.0/kernel/pipes.c:579-719 | a read delivers the front of buffer and writers together and refills the buffer with what follows |
| `PipeEffects.GetAnswer` | zephyr-zephyr-v1.13.0/kernel/pipes.c:579-719 | a read is refused, changing nothing, exactly if it may not wait and there is less than the minimum; else it answers success or waits, exactly by whether it got all and may wait |
| `PipeEffects.ExpireExactly` | zephyr-zephyr-v1.13.0/kernel/include/timeout_q.h:66-102 | a timeout between calls takes off exactly that thread's requests and moves no byte |
| `PipeEffects.AnswersAfterWaiting` | zephyr-zephyr-v1.13.0/kernel/pipes.c:391-403 | a call that waited answers success exactly if it moved its minimum, in particular if it was readied, and -EAGAIN otherwise |
| `SysClock.LinkIn` | zephyr-zephyr-v1.13.0/kernel/include/timeout_q.h:239-250 | the walk of `_add_timeout` yields the delta list with the new node at its deadline |
| `SysClock.AddNodeInserts` | zephyr-zephyr-v1.13.0/kernel/include/timeout_q.h:195-262 | that delta list stands for the old deadlines plus the new one, in front of those it shares its tick with |
| `SysClock.AbortNodeRemoves` | zephyr-zephyr-v1.13.0/kernel/include/timeout_q.h:120-137 | unlinking a node and adding its delta to the next leaves all other deadlines unchanged |
| `SysClock.Unlink` | zephyr-zephyr-v1.13.0/kernel/include/timeout_q.h:120-137 | an abort finds a timeout exactly if it is queued |
| `SysClock.HandleTimeouts` | zephyr-zephyr-v1.13.0/kernel/sys_clock.c:170-253 | the loop takes off exactly the timeouts due within the announced ticks, lists them in reverse queue order, and leaves the others due exactly that much sooner |
| `SysClock.SysClock.Add` | zephyr-zephyr-v1.13.0/kernel/include/timeout_q.h:195-262 | a timeout of zero ticks is handled at once; any other is inserted at its deadline |
| `SysClock.SysClock.Abort` | zephyr-zephyr-v1.13.0/kernel/include/timeout_q.h:120-137 | an abort removes one timeout and reports whether it was active |
| `SysClock.SysClock.Announce` | zephyr-zephyr-v1.13.0/kernel/sys_clock.c:311-333 | announcing advances the tick count and splits the queue into those fired and those surviving |
| `SysClock.SysClock.Remaining` | zephyr-zephyr-v1.13.0/kernel/timer.c:231-256 | the time a timeout has left, its deltas summed and converted to 32-bit milliseconds, and zero for an inactive one |
| `TimeoutSpec.AnnounceExact` | zephyr-zephyr-v1.13.0/kernel/sys_clock.c:170-253 | an announcement expires exactly the timeouts due within it, lowers every survivor by exactly its ticks, and leaves a positive head |
| `TimeoutSpec.AnnounceTwice` | zephyr-zephyr-v1.13.0/kernel/sys_clock.c:170-253 | announcing a and then b leaves the same survivors and expires the same timeouts as announcing a + b |
| `TimeoutSpec.FiredInDeadlineOrderIff` | zephyr-zephyr-v1.13.0/kernel/sys_clock.c:220-242 | expired timeouts are handled in deadline order if and only if they all share one deadline: an announcement spanning several handles the later ones first |
| `TimeoutSpec.LaterHandledFirst` | zephyr-zephyr-v1.13.0/kernel/sys_clock.c:220-242 | an announcement of two ticks handles the timeout due at the second before the one due at the first |
| `TimeoutSpec.TickByTick` | zephyr-zephyr-v1.13.0/kernel/sys_clock.c:311-333 | with single ticks everything that expires shares one deadline |
| `TimeoutRuns.TimeoutSafety` | zephyr-zephyr-v1.13.0/kernel/sys_clock.c:170-253 | in every run of starts, aborts and announcements: each timeout ever started is in exactly one of queue, log and the record of aborts, and logged at most once; everything due and not aborted has been handled, by the announcement that reaches its deadline, those sharing a deadline in order of starting; the queue records every pending deadline truly |
| `TimeoutRuns.TicksInOrder` | zephyr-zephyr-v1.13.0/kernel/sys_clock.c:225-236 | with single-tick announcements the whole log is in deadline order |
| `TimeoutLedger.TimeoutsFollowLedger` | zephyr-zephyr-v1.13.0/kernel/include/timeout_q.h:120-262 | in every run a timeout is pending exactly if it was started, is not due and was not aborted in time, and was handled exactly if it came due unaborted, by a ledger of deadlines that has no queue |
| `Ticks.NeverShortens` | zephyr-zephyr-v1.13.0/include/kernel.h:1358-1399 | converting milliseconds to ticks and back never yields less, and the ticks last at least as long as the delay |
| `Ticks.MsExact` | zephyr-zephyr-v1.13.0/include/kernel.h:1381-1399 | ticks convert to exactly the whole milliseconds they last |
| `Ticks.LongDelayCutOff` | zephyr-zephyr-v1.13.0/include/kernel.h:1358-1373 | at two ticks per millisecond a delay of 2^30 milliseconds comes out negative |
| `Ticks.NarrowCoversIff` | zephyr-zephyr-v1.13.0/include/kernel.h:1358-1373 | narrowed to the 32-bit result, the tick count still lasts as long as the delay if and only if it is below 2^31; it always is where the simple conversion is selected |
| `Ticks.SimpleAgrees` | zephyr-zephyr-v1.13.0/include/kernel.h:1344-1399 | where the build selects the simple conversions they equal the 64-bit ones, and narrowing to 32 bits loses nothing |
| `Ticks.SimpleOvershoot` | zephyr-zephyr-v1.13.0/include/kernel.h:1369-1372 | the simple conversion overshoots by less than one tick |
| `Ticks.PreciseCovers` | zephyr-zephyr-v1.13.0/include/kernel.h:1362-1367 | the precise conversion is at least the exact quotient |
| `Ticks.PreciseTightIff` | zephyr-zephyr-v1.13.0/include/kernel.h:1362-1367 | the precise conversion overshoots by less than one tick for every 32-bit delay if and only if a tick is a whole number of thousandths of a hardware cycle |
| `Ticks.OneSecondGrows` | zephyr-zephyr-v1.13.0/include/kernel.h:1362-1367 | at every pair of rates where a tick is no whole number of thousandths of a cycle, one second comes out as more ticks than a second has |
| `MessageQueue.MsgQ.constructor` | zephyr-zephyr-v1.13.0/kernel/msg_q.c:50-65 | a new queue of any capacity is empty with nobody waiting |
| `MessageQueue.MsgQ.PutMsg` | zephyr-zephyr-v1.13.0/kernel/msg_q.c:111-153 | the code of a send, which succeeds exactly if there is room and is refused exactly if full and not waiting, does what the declared send does to ring, waiters and woken thread |
| `MessageQueue.MsgQ.GetMsg` | zephyr-zephyr-v1.13.0/kernel/msg_q.c:186-234 | the code of a receive does what the declared receive does, including the refill from a waiting sender |
| `MessageQueue.MsgQ.PurgeMsgs` | zephyr-zephyr-v1.13.0/kernel/msg_q.c:248-263 | a purge empties the ring and fails every waiter, in queue order, with -ENOMSG |
| `MessageRuns.StepShape` | zephyr-zephyr-v1.13.0/kernel/msg_q.c:111-263 | every call and time-out keeps: waiting readers only on an empty queue, waiting writers only on a full one, never both |
| `MessageRuns.GetTakesFront` | zephyr-zephyr-v1.13.0/kernel/msg_q.c:186-234 | a receive returns the oldest message of ring followed by waiting writers, and leaves the others in order |
| `MessageRuns.PutJoinsStream` | zephyr-zephyr-v1.13.0/kernel/msg_q.c:111-153 | a send goes to a waiting reader if there is one, and otherwise to the end of that sequence, behind every waiting writer at least as urgent |
| `MessageRuns.QueueSafety` | zephyr-zephyr-v1.13.0/kernel/msg_q.c:50-263 | in every run with room for a message, purges included: one kind of waiter at a time, and accepted messages leave in order, each delivered or purged exactly once |
| `MessageRuns.NoRoomMixes` | zephyr-zephyr-v1.13.0/kernel/msg_q.c:119-146 | with room for no message, a reader and a writer end up waiting together |
| `MessageRuns.UniformIffRoom` | zephyr-zephyr-v1.13.0/kernel/msg_q.c:111-263 | the wait queue holds one kind of waiter in every run if and only if there is room for at least one message |
| `MessageEffects.PutAnswer` | zephyr-zephyr-v1.13.0/kernel/msg_q.c:111-153 | a send is accepted exactly if there is room, whether or not it may wait, by the first waiter or the ring; refused, changing nothing, exactly if full and it may not wait; else it queues in order |
| `MessageEffects.GetAnswer` | zephyr-zephyr-v1.13.0/kernel/msg_q.c:186-234 | a receive gets the oldest message exactly if there is one, waking the first waiter with success; refused, changing nothing, exactly if empty and it may not wait; else it queues in order |
| `MessageEffects.PurgeEffect` | zephyr-zephyr-v1.13.0/kernel/msg_q.c:248-263 | a purge empties the ring and wakes every waiter, in order, with -ENOMSG |
| `MessageEffects.ExpireEffect` | zephyr-zephyr-v1.13.0/kernel/include/timeout_q.h:66-102 | a timeout takes off exactly that thread |
| `MessageEffects.AnswersBalance` | zephyr-zephyr-v1.13.0/kernel/msg_q.c:111-263 | in every run the messages accepted are those the senders were told were, and the messages delivered those the receivers were told they got |
| `Slab.MemSlab.constructor` | zephyr-zephyr-v1.13.0/kernel/mem_slab.c:32-84 | threading the free list through the blocks yields a list of all blocks |
| `Slab.MemSlab.AllocBlock` | zephyr-zephyr-v1.13.0/kernel/mem_slab.c:86-113 | allocation returns the first block of the list, exactly if there is one, and the caller holds it from then on; else it fails or queues the caller; the list through memory stays in step |
| `Slab.MemSlab.FreeBlock` | zephyr-zephyr-v1.13.0/kernel/mem_slab.c:115-130 | freeing hands the block to the first waiter or puts it at the front of the list through memory |
| `Slab.MemSlab.HolderWrites` | zephyr-zephyr-v1.13.0/kernel/mem_slab.c:32-45 | whatever a holder writes into its block, the free list is unaffected |
| `Slab.SlabSafety` | zephyr-zephyr-v1.13.0/kernel/mem_slab.c:32-130 | in every run: no block has two holders or is free and held, used and free blocks add up, the free list has no repeats, nobody waits while a block is free |
| `Slab.HandOff` | zephyr-zephyr-v1.13.0/kernel/mem_slab.c:115-123 | a block handed over reaches exactly the first waiter without being on the free list in between; nobody else's holdings change |
| `Slab.BlocksDisjoint` | zephyr-zephyr-v1.13.0/kernel/mem_slab.c:36-44 | blocks at different numbers do not overlap in memory |
| `SlabEffects.AllocAnswer` | zephyr-zephyr-v1.13.0/kernel/mem_slab.c:86-113 | an allocation succeeds exactly if some block is free, with the front block of the list, which nobody held and the caller holds from then on; refused, changing nothing, exactly if none is and it may not wait; else the caller queues in order |
| `SlabEffects.FreeEffect` | zephyr-zephyr-v1.13.0/kernel/mem_slab.c:115-130 | a freed block goes to the first waiter, who alone leaves the queue, or to the front of the list |
| `SlabEffects.ExpireEffect` | zephyr-zephyr-v1.13.0/kernel/include/timeout_q.h:66-102 | a timeout takes off exactly that thread |
| `SlabEffects.PromisedOnce` | zephyr-zephyr-v1.13.0/kernel/mem_slab.c:86-130 | in every run, between two steps that each tell a thread that a block is its own, the block was freed |
| `Alert.StepInvIff` | zephyr-zephyr-v1.13.0/kernel/alert.c:47-92 | an atomic step of senders and work-queue thread keeps the invariant (exactly one party is responsible for a positive count, the pending bit says whether the item is submitted, count is sends minus calls) if and only if it is not the send that makes the 32-bit count wrap |
| `Alert.RunInvIff` | zephyr-zephyr-v1.13.0/kernel/alert.c:47-92 | a run keeps the invariant throughout if and only if no send in it makes the count wrap |
| `Alert.WrapSubmitsTwice` | zephyr-zephyr-v1.13.0/kernel/alert.c:78-92 | a sender ahead of the work-queue thread by 2^32 sends makes two parties responsible for one alert |
| `Alert.AlertSafety` | zephyr-zephyr-v1.13.0/kernel/alert.c:47-92 | under every interleaving without that wrap the work item is never submitted twice, and at quiescence there have been as many handler calls as sends and as many semaphore gives as refusals, each counted from the run's own steps |
| `Alert.ClearFindsBit` | zephyr-zephyr-v1.13.0/kernel/work_q.c:36-40 | the work-queue thread always finds the pending bit set, so no submission is dropped |
| `Alert.EverySendDelivered` | zephyr-zephyr-v1.13.0/kernel/alert.c:47-63 | once sending stops, any schedule of the others ends within a bounded number of steps with every send answered by a handler call |
| `Alert.SomeoneCanMove` | zephyr-zephyr-v1.13.0/include/kernel.h:2631-2637 | unless everything is quiet some party can take a step |
| `Mutex.KMutex.constructor` | zephyr-zephyr-v1.13.0/kernel/mutex.c:71-87 | a new mutex is free and every thread at its own priority |
| `Mutex.KMutex.NewPrioForInheritance` | zephyr-zephyr-v1.13.0/kernel/mutex.c:99-106 | the result never outranks the ceiling; it is the more urgent of the two priorities if neither outranks it, and the ceiling itself otherwise |
| `Mutex.KMutex.AdjustOwnerPrio` | zephyr-zephyr-v1.13.0/kernel/mutex.c:108-119 | only the owner's priority changes, to the given one |
| `Mutex.KMutex.LockBy` | zephyr-zephyr-v1.13.0/kernel/mutex.c:121-169 | success exactly if the caller owns the mutex afterwards, one level deeper, and a refusal changes nothing; as declared otherwise: wait and raise the owner just enough |
| `Mutex.KMutex.TimedOut` | zephyr-zephyr-v1.13.0/kernel/mutex.c:182-202 | the end of a timed-out lock recomputes the owner's priority from the remaining queue head |
| `Mutex.KMutex.UnlockBy` | zephyr-zephyr-v1.13.0/kernel/mutex.c:212-263 | the code of an unlock does what the declared unlock does: release one level, free, or hand over to the queue head |
| `Mutex.LockBoosted` | zephyr-zephyr-v1.13.0/kernel/mutex.c:158-169 | a lock keeps the owner at the best of its own and all waiters' priorities |
| `Mutex.UnlockInv` | zephyr-zephyr-v1.13.0/kernel/mutex.c:212-263 | a final unlock restores the owner's priority, and hand-off needs no adjustment for the new owner to have the best priority |
| `Mutex.ExpireBoostedIff` | zephyr-zephyr-v1.13.0/kernel/mutex.c:186-196 | a time-out leaves the owner at the right priority if and only if nobody else waits or the owner's own priority is not above the ceiling |
| `Mutex.InheritanceSafety` | zephyr-zephyr-v1.13.0/kernel/mutex.c:121-263 | in every run, no thread outranking the ceiling: the owner runs at the best of its own and all waiters' priorities, every other thread at its own, and all at their own once the mutex is free |
| `Mutex.FinalUnlockRestores` | zephyr-zephyr-v1.13.0/kernel/mutex.c:235-258 | whatever the ceiling, after any run a final unlock puts every thread at its own priority and passes the mutex to a most urgent waiter |
| `Mutex.AboveCeilingDemoted` | zephyr-zephyr-v1.13.0/kernel/mutex.c:188-195 | three threads and an owner above the ceiling: somebody else's time-out pushes the owner below its own priority |
| `Mutex.SafeForAllRunsIff` | zephyr-zephyr-v1.13.0/kernel/mutex.c:121-263 | every run keeps the inheritance invariant if and only if no thread outranks the ceiling or there are fewer than three threads |
| `MutexEffects.LockAnswer` | zephyr-zephyr-v1.13.0/kernel/mutex.c:121-196 | success exactly if the caller owns the mutex afterwards, one level deeper; -EBUSY, changing nothing, exactly if somebody else does and the call may not wait; else the caller queues at its own priority behind its equals |
| `MutexEffects.UnlockEffect` | zephyr-zephyr-v1.13.0/kernel/mutex.c:207-252 | an unlock gives up one level; only the last ends ownership, restoring priorities and handing over one level to the first waiter, the others keeping their places |
| `MutexEffects.ExpireEffect` | zephyr-zephyr-v1.13.0/kernel/mutex.c:174-196 | a waiter that times out leaves exactly the others, and nobody's priority changes but the owner's |
| `MutexEffects.CountIsLevels` | zephyr-zephyr-v1.13.0/kernel/mutex.c:121-252 | in every run the lock count is the owner's granted levels, hand-over included, minus its unlocks, and every other thread's are balanced |
| `MutexEffects.WaitersAreOutstanding` | zephyr-zephyr-v1.13.0/kernel/mutex.c:121-252 | in every run the queue holds exactly the threads whose lock call has not come back |
| `RunQueue.BestIsOldest` | zephyr-zephyr-v1.13.0/kernel/sched.c:469-497 | in every run of add, remove and re-prioritise the best thread is the most urgent and, among equals, the one queued earliest |
| `RunQueue.RunMembers` | zephyr-zephyr-v1.13.0/kernel/sched.c:469-491 | in every run the queue holds exactly the threads that have joined and not left, each at the priority given last |
| `ListQueue.DumbQueue.AddThread` | zephyr-zephyr-v1.13.0/kernel/sched.c:469-484 | the list after an add is the ordered queue after it |
| `ListQueue.DumbQueue.RemoveThread` | zephyr-zephyr-v1.13.0/kernel/sched.c:486-491 | unlinking one node leaves all the others, as the ordered queue's removal does |
| `ListQueue.DumbQueue.BestThread` | zephyr-zephyr-v1.13.0/kernel/sched.c:493-497 | none exactly if the list is empty; otherwise a thread of the list such that nobody in it is more urgent |
| `MultiQueue.MqQueue.AddThread` | zephyr-zephyr-v1.13.0/kernel/sched.c:562-568 | appending to its priority's list and setting the bit is joining the ordered queue, and bits stay set exactly for non-empty lists |
| `MultiQueue.MqQueue.RemoveThread` | zephyr-zephyr-v1.13.0/kernel/sched.c:570-578 | unlinking and clearing the bit of an emptied list is leaving the ordered queue, and bits stay set exactly for non-empty lists |
| `MultiQueue.MqQueue.BestThread` | zephyr-zephyr-v1.13.0/kernel/sched.c:580-590 | the head of the list of the lowest set bit is the ordered queue's best |
| `MultiQueue.AppendIsJoin` | zephyr-zephyr-v1.13.0/kernel/sched.c:562-568 | the lists in sequence, one appended to, are the ordered queue with the thread added |
| `MultiQueue.DropIsLeave` | zephyr-zephyr-v1.13.0/kernel/sched.c:570-578 | the lists in sequence, one unlinked from, are the ordered queue with the thread removed |
| `Bits.SetBit` | zephyr-zephyr-v1.13.0/kernel/sched.c:567 | setting a bit of the mask sets that bit and no other |
| `Bits.ClearBit` | zephyr-zephyr-v1.13.0/kernel/sched.c:576 | clearing a bit of the mask clears that bit and no other |
| `Bits.TrailingZeros` | zephyr-zephyr-v1.13.0/kernel/sched.c:586 | the result is set in the word and nothing below it is |
| `TreeQueue.LessThanTotal` | zephyr-zephyr-v1.13.0/kernel/sched.c:499-513 | the comparator is a strict total order on nodes differing in priority or key |
| `TreeQueue.RenumberKeepsOrder` | zephyr-zephyr-v1.13.0/kernel/sched.c:529-533 | the renumbering loop leaves every queued thread where it was and the nodes in comparator order |
| `TreeQueue.JoinedIsJoinIff` | zephyr-zephyr-v1.13.0/kernel/sched.c:515-536 | adding to the tree is first-in first-out if and only if the counter is about to wrap or no equal still holds the last key |
| `TreeQueue.RunAgreesIff` | zephyr-zephyr-v1.13.0/kernel/sched.c:515-547 | tree and list agree throughout a run if and only if every thread added in it was in turn |
| `TreeQueue.TreeIsList` | zephyr-zephyr-v1.13.0/kernel/sched.c:515-547 | as long as the counter does not wrap, the tree queue is the sorted list |
| `TreeQueue.EmptyingRestarts` | zephyr-zephyr-v1.13.0/kernel/sched.c:538-547 | the order keys wrap only if the queue goes without being empty for as many additions as there are keys, and until then it is the sorted list |
| `TreeQueue.TreeAlwaysUrgent` | zephyr-zephyr-v1.13.0/kernel/sched.c:515-554 | in every run, through any number of wraps: the tree holds exactly the queued threads in comparator order and its first is a most urgent one |
| `TreeQueue.WrapBreaksFifo` | zephyr-zephyr-v1.13.0/kernel/sched.c:521-535 | a run past the last key after which a later arrival stands before an earlier one of its priority |
| `RbOps.FindAndStack` | zephyr-zephyr-v1.13.0/lib/rbtree/rb.c:78-97 | the walk down ends at the node itself or at the empty place where the comparator wants it, and finds every node of the tree |
| `RbTree.RotateOrder` | zephyr-zephyr-v1.13.0/lib/rbtree/rb.c:125-146 | a rotation keeps the order of the nodes |
| `RbOps.FixExtraRed` | zephyr-zephyr-v1.13.0/lib/rbtree/rb.c:152-210 | repairing a red node below a red one yields a valid red-black tree with the same nodes in the same order, no deeper than before or than the level of the new node |
| `RbOps.InsertNode` | zephyr-zephyr-v1.13.0/lib/rbtree/rb.c:212-244 | insertion yields a valid red-black tree with the node where the comparator puts it; the recorded depth still bounds the tree, and the stack never holds more than `max_depth + 1` nodes |
| `RbOps.FixMissingBlack` | zephyr-zephyr-v1.13.0/lib/rbtree/rb.c:257-354 | repairing a missing black yields a valid red-black tree with the same nodes in the same order, and neither it nor the stack outgrows the recorded depth although subtrees move down |
| `RbOps.TakeOut` | zephyr-zephyr-v1.13.0/lib/rbtree/rb.c:430-480 | splicing out a node with at most one child yields a valid red-black tree of the other nodes, within the recorded depth |
| `RbOps.RemoveNode` | zephyr-zephyr-v1.13.0/lib/rbtree/rb.c:356-480 | removal yields a valid red-black tree of exactly the other nodes in order, or the same tree if the node is not in it; `max_depth`, which it only resets when the tree gets empty, still bounds the tree, and the stack never holds more than that many nodes |
| `RbDepth.RestoreFits` | zephyr-zephyr-v1.13.0/lib/rbtree/rb.c:343-353 | the final rotation of a removal moves only the repaired subtree down, and that stays within the recorded depth |
| `RbDepth.LowerFits` | zephyr-zephyr-v1.13.0/lib/rbtree/rb.c:275-284 | rotating a red sibling up, which pushes the hole down a level and one more node onto the stack, stays within the recorded depth |
| `RbDepth.MendDepth` | zephyr-zephyr-v1.13.0/lib/rbtree/rb.c:186-203 | the final rotation of an insertion moves only the aunt down, to above the level at which the node was added |
| `RbOps.GetMin` | zephyr-zephyr-v1.13.0/lib/rbtree/rb.c:99-106 | the leftmost node is the first in order |
| `RbTree.Balanced` | zephyr-zephyr-v1.13.0/lib/rbtree/rb.c:152-210 | a valid tree is at most twice as deep as the logarithm of its size |
| `RbQueue.RbQueue.AddThread` | zephyr-zephyr-v1.13.0/kernel/sched.c:515-536 | adding gives the next key, renumbers at the wrap, and keeps a valid tree in comparator order with issued keys |
| `RbQueue.RbQueue.RemoveThread` | zephyr-zephyr-v1.13.0/kernel/sched.c:538-547 | removing keeps a valid tree of the others and restarts the keys when it is empty |
| `RbQueue.RbQueue.BestThread` | zephyr-zephyr-v1.13.0/kernel/sched.c:549-554 | the tree's minimum is the queue's best |
| `RbWalk.Renumber` | zephyr-zephyr-v1.13.0/kernel/sched.c:529-533 | walking the tree in order and counting up gives every node its position as key, moves no node, and stacks no more nodes than the tree is deep |
| `RbWalk.Next` | zephyr-zephyr-v1.13.0/lib/rbtree/rb.c:541-583 | from a node the iterator goes to the one that follows it in order, and ends exactly after the last |
| `Lockstep.Observe` | zephyr-zephyr-v1.13.0/kernel/sched.c:356-377 | over any sequence of add, remove and re-prioritise with newcomers in turn, list, multiqueue and red-black tree name the same best thread after every operation |
| `Scheduler.PreemptEncoding` | zephyr-zephyr-v1.13.0/include/kernel.h:423-448 | comparing lock count and priority byte, end to end, with one threshold is testing for no lock and a non-negative priority |
| `Scheduler.UpdateCacheSafe` | zephyr-zephyr-v1.13.0/kernel/sched.c:203-212 | refreshing the cache leaves it at a queued or the idle thread, the most urgent one or the current one entitled to hold on |
| `Scheduler.DoInv` | zephyr-zephyr-v1.13.0/kernel/sched.c:225-253 | every scheduler operation keeps the run queue exactly the ready threads in order, and the cache safe |
| `SchedulerRuns.SchedulerSafety` | zephyr-zephyr-v1.13.0/kernel/sched.c:112-253 | in every run: the cached thread can run, and unless the current one is ready and cannot be preempted nobody queued is more urgent than it |
| `SchedulerRuns.CooperativeKeepsCpu` | zephyr-zephyr-v1.13.0/kernel/sched.c:126-141 | a cooperative or locked thread keeps the processor whatever others do, for as long as it makes no scheduling call and no meta-IRQ thread exists |
| `SchedulerRuns.WakeupPreemptsIff` | zephyr-zephyr-v1.13.0/kernel/sched.c:112-142 | a thread woken as the strictly most urgent is next if and only if the current one cannot run, is preemptible or idle, or the newcomer is a meta-IRQ |
| `SchedulerRuns.NestedLocksKeepIff` | zephyr-zephyr-v1.13.0/include/kernel.h:1208-1216 | through any run of nested locks and unlocks short of the last, with others becoming ready, blocking and moving in between, a thread keeps the processor if and only if at each unlock no queued thread is more urgent and no equal stands before it |
| `SchedulerRuns.NestedUnlockGivesWay` | zephyr-zephyr-v1.13.0/include/kernel.h:1211-1213 | the documented promise fails: having locked twice and unlocked once, a thread loses the processor to one woken in between |
| `SchedulerRuns.IdlestAlways` | zephyr-zephyr-v1.13.0/kernel/include/ksched.h:14-28 | as long as priorities are set within the asserted range, nobody ever shares the idle thread's priority |
| `SchedulerEffects.SetPrioEffect` | zephyr-zephyr-v1.13.0/kernel/sched.c:356-372 | the thread gets the new priority, ready or not, and nobody else's record changes; a ready one moves behind its new equals and the head of the queue is next |
| `SchedulerEffects.BlockEffect` | zephyr-zephyr-v1.13.0/kernel/sched.c:244-258 | exactly that reason is added; a ready thread leaves the queue, nobody else moving, and the cache follows the preemption rule |
| `SchedulerEffects.UnblockEffect` | zephyr-zephyr-v1.13.0/kernel/include/ksched.h:220-232 | exactly that reason is removed; a thread with none left joins the queue behind its equals, and the cache follows the preemption rule |
| `SchedulerEffects.MoveEffect` | zephyr-zephyr-v1.13.0/kernel/sched.c:234-242 | the thread moves behind its equals and nothing else about it or the others changes |
| `SchedulerEffects.YieldEffect` | zephyr-zephyr-v1.13.0/kernel/sched.c:779-798 | the caller moves behind its equals, unless it is the idle thread, and the head of the queue runs |
| `SchedulerEffects.LockEffect` | zephyr-zephyr-v1.13.0/kernel/sched.c:406-411 | locking counts one down in eight bits and moves nobody |
| `SchedulerEffects.UnlockEffect` | zephyr-zephyr-v1.13.0/kernel/sched.c:413-429 | unlocking counts one up in eight bits, the last unlock reaching zero, and the head of the queue runs |
| `SchedulerEffects.SliceEffect` | zephyr-zephyr-v1.13.0/kernel/sys_clock.c:273-292 | ticks change nothing unless slicing is on and the current thread is unlocked, preemptible, within the ceiling and as urgent as the head; then they are counted and the end of a slice moves it behind its equals |
| `SchedulerEffects.ExemptRunsOn` | zephyr-zephyr-v1.13.0/kernel/sched.c:607-631 | a running thread that slicing does not apply to runs on however many ticks pass |
| `SchedulerEffects.LockCountIsTaken` | zephyr-zephyr-v1.13.0/kernel/sched.c:406-429 | in every run a thread's lock count is the locks it has taken and not given back |
| `SchedulerEffects.PriorityIsLastSet` | zephyr-zephyr-v1.13.0/kernel/sched.c:356-372 | in every run a thread has the priority it was last set to |
| `SchedulerEffects.BlockedIsLastGiven` | zephyr-zephyr-v1.13.0/kernel/sched.c:244-258 | in every run a thread is kept from running by exactly the reasons given last and not taken back |
| `SchedulerEffects.QueuedIff` | zephyr-zephyr-v1.13.0/kernel/sched.c:203-258 | in every run a thread is in the run queue, at the priority last set, exactly if no reason keeps it from running |
| `Kernel.Kernel.ShouldPreempt` | zephyr-zephyr-v1.13.0/kernel/sched.c:112-142 | the chain of tests decides the preemption rule |
| `Kernel.Kernel.UpdateCache` | zephyr-zephyr-v1.13.0/kernel/sched.c:203-212 | only the cache changes, to the best thread or the current one |
| `Kernel.Kernel.AddThreadToReadyQ` | zephyr-zephyr-v1.13.0/kernel/sched.c:225-232 | the thread joins the run queue in order and the cache is refreshed without permission to preempt |
| `Kernel.Kernel.RemoveThreadFromReadyQ` | zephyr-zephyr-v1.13.0/kernel/sched.c:244-253 | a queued thread leaves and the cache is refreshed; nothing happens to one that is not queued |
| `Kernel.Kernel.BlockThread` | zephyr-zephyr-v1.13.0/kernel/sched.c:255-258 | blocking does what the declared step does, keeps the scheduler invariant and leaves the time slice alone |
| `Kernel.Kernel.UnblockThread` | zephyr-zephyr-v1.13.0/kernel/include/ksched.h:220-232 | unblocking readies the thread once no reason is left, keeps the scheduler invariant and leaves the time slice alone |
| `Kernel.Kernel.MoveThreadToEnd` | zephyr-zephyr-v1.13.0/kernel/sched.c:234-242 | the thread moves behind its equals and the scheduler invariant is kept |
| `Kernel.Kernel.ThreadPrioritySet` | zephyr-zephyr-v1.13.0/kernel/sched.c:356-372 | the thread gets the priority and no other record changes; a ready one is requeued at it, and the invariant is kept |
| `Kernel.Kernel.Reschedule` | zephyr-zephyr-v1.13.0/kernel/sched.c:379-404 | the cached thread becomes current, and its time slice starts over if that is a change |
| `Kernel.Kernel.Yield` | zephyr-zephyr-v1.13.0/kernel/sched.c:779-798 | the current thread, unless it is the idle one, goes behind its equals, the cached thread runs, and the time slice starts over exactly on a switch |
| `Kernel.Kernel.SchedLock` | zephyr-zephyr-v1.13.0/kernel/sched.c:406-411 | the lock count goes down in eight bits and the cache stays safe |
| `Kernel.Kernel.SchedUnlock` | zephyr-zephyr-v1.13.0/kernel/sched.c:413-429 | the lock count goes up in eight bits, the best thread runs, the invariant is kept, and the time slice starts over exactly on a switch |
| `Kernel.Kernel.IsThreadTimeSlicing` | zephyr-zephyr-v1.13.0/kernel/sched.c:607-631 | the tests decide whether the current thread takes part in time slicing |
| `Kernel.Kernel.HandleTimeSlicing` | zephyr-zephyr-v1.13.0/kernel/sys_clock.c:273-292 | ticks are counted, and at the end of a slice the current thread goes behind its equals |
| `Rotation.YieldRotation` | zephyr-zephyr-v1.13.0/kernel/sched.c:779-798 | with n equally urgent threads in front and the first running, after k yields number k mod n runs |
| `Rotation.TickTurns` | zephyr-zephyr-v1.13.0/kernel/sys_clock.c:273-292 | within a slice a tick only counts, and the tick that ends it turns the ring by one place |
| `Rotation.SliceRotation` | zephyr-zephyr-v1.13.0/kernel/sys_clock.c:273-292 | with single-tick announcements the same rotation happens every slice duration |
| `Rotation.WaitsAtMost` | zephyr-zephyr-v1.13.0/kernel/sched.c:607-631 | at any time each of n eligible threads runs within the next n - 1 slices |
| `Mailbox.MessageMatch` | zephyr-zephyr-v1.13.0/kernel/mailbox.c:123-163 | a match succeeds exactly if each side accepts the other, and then the receiver's descriptor shows the message |
| `Mailbox.Mbox.constructor` | zephyr-zephyr-v1.13.0/kernel/mailbox.c:62-109 | a new mailbox has nobody waiting and all descriptors on the stack |
| `Mailbox.Mbox.MessagePut` | zephyr-zephyr-v1.13.0/kernel/mailbox.c:238-307 | the search matches the first compatible receiver, exactly if there is one, and otherwise refuses, changing nothing, or queues the sender |
| `Mailbox.Mbox.AsyncMessagePut` | zephyr-zephyr-v1.13.0/kernel/mailbox.c:318-336 | an asynchronous send goes out in the name of the descriptor popped off the stack |
| `Mailbox.Mbox.MessageDispose` | zephyr-zephyr-v1.13.0/kernel/mailbox.c:175-222 | disposal frees a block still present, lets the sender go with the final size, returns a dummy to the stack, and does nothing the second time |
| `Mailbox.Mbox.DataGetInto` | zephyr-zephyr-v1.13.0/kernel/mailbox.c:339-353 | retrieval copies exactly the message's bytes, or discards them, and disposes of the message |
| `Mailbox.Mbox.DataBlockGet` | zephyr-zephyr-v1.13.0/kernel/mailbox.c:355-387 | retrieval hands over a block that is there, with its contents, or copies the message's bytes into a new one, and otherwise fails leaving everything as it was |
| `Mailbox.Mbox.MessageDataCheck` | zephyr-zephyr-v1.13.0/kernel/mailbox.c:405-418 | data is consumed at once exactly if there is a buffer or no data; the buffer gets exactly the message's bytes |
| `Mailbox.Mbox.GetMessage` | zephyr-zephyr-v1.13.0/kernel/mailbox.c:420-466 | the search matches the first compatible sender, exactly if there is one, and the buffer gets as many bytes of its message as were sent and asked for; otherwise the receiver is refused or queued |
| `MailboxRuns.PutInv` | zephyr-zephyr-v1.13.0/kernel/mailbox.c:238-307 | a send keeps the matching maximal and every letter, block and dummy accounted for |
| `MailboxRuns.GetInv` | zephyr-zephyr-v1.13.0/kernel/mailbox.c:420-466 | a receive keeps the matching maximal and every letter, block and dummy accounted for |
| `MailboxRuns.EndsInv` | zephyr-zephyr-v1.13.0/kernel/mailbox.c:175-222 | however a message is disposed of, the accounts still balance |
| `MailboxRuns.MailboxSafety` | zephyr-zephyr-v1.13.0/kernel/mailbox.c:123-466 | in every run: no waiting sender is compatible with a waiting receiver; every accepted letter is in exactly one of queue, receive descriptor, disposals and time-outs, and disposed of at most once; every dummy is in exactly one of stack, queue and receive descriptor |
| `MailboxRuns.BlockReleasedIff` | zephyr-zephyr-v1.13.0/kernel/mailbox.c:147-154 | a letter's block is freed or handed over exactly once when the letter is done if it has no data of its own, and never if it has |
| `MailboxRuns.BlockLost` | zephyr-zephyr-v1.13.0/kernel/mailbox.c:147-154 | every letter with both data and a block, queued and received into a buffer, is done with while its block is neither freed nor handed over nor named by a receive descriptor |
| `MailboxRuns.ReceivedIsSent` | zephyr-zephyr-v1.13.0/kernel/mailbox.c:142-157 | what a receiver retrieves is the first min(sent, asked for) bytes of a message of a sender that it and that accept each other, with the sender's identity and information value, and answers a request it made |
| `MailboxEffects.PutAnswer` | zephyr-zephyr-v1.13.0/kernel/mailbox.c:238-307 | a send meets the first compatible receiver, exactly if there is one and whether or not it may wait, and its descriptor shows the letter; refused, changing nothing, exactly if there is none and it may not wait; else it queues in order |
| `MailboxEffects.AsyncPutAnswer` | zephyr-zephyr-v1.13.0/kernel/mailbox.c:318-336 | an asynchronous send takes the dummy on top of the stack, is never refused, and meets a receiver or queues the same way |
| `MailboxEffects.GetAnswer` | zephyr-zephyr-v1.13.0/kernel/mailbox.c:420-466 | a receive meets the first compatible sender exactly if there is one; refused, changing nothing, exactly if there is none and it may not wait; else it queues in order |
| `MailboxEffects.DataGetEffect` | zephyr-zephyr-v1.13.0/kernel/mailbox.c:339-353 | retrieving tells the sender the size, discarding tells it none; a block still there is freed, and nothing happens the second time |
| `MailboxEffects.BlockGetEffect` | zephyr-zephyr-v1.13.0/kernel/mailbox.c:355-387 | a block in the message is handed over and not freed; without a pool the data is discarded; without a new block nothing happens |
| `MailboxEffects.CheckEffect` | zephyr-zephyr-v1.13.0/kernel/mailbox.c:405-418 | a receiver with a buffer or no data is through at once, any other keeps the message |
| `MailboxEffects.TxExpireEffect` | zephyr-zephyr-v1.13.0/kernel/include/timeout_q.h:66-102 | a sender's timeout takes off exactly that sender and records its letter as withdrawn |
| `MailboxEffects.RxExpireEffect` | zephyr-zephyr-v1.13.0/kernel/include/timeout_q.h:66-102 | a receiver's timeout takes off exactly that receiver |
| `MailboxEffects.SenderIsTold` | zephyr-zephyr-v1.13.0/kernel/mailbox.c:123-222 | in every run whoever is let go is told who received its letter, with what information, and how many bytes: as many as were sent and asked for, or none |

## Left out

- Symmetric multiprocessing, deadline scheduling and the tickless kernel: other configurations with other invariants.
- `poll.c`, `sem.c`, `stack.c`, `queue.c`, `mempool.c`, user-space checks and drivers: easier copies of what is modelled, or plumbing.
- The asynchronous pipe descriptors and `k_pipe_block_put`: an asynchronous write is modelled, the pool its descriptor comes from and the semaphore given at its end are not.
- The caller's buffers of pipes, message queues and mailboxes are values: aliasing between a buffer and kernel memory is not modelled.
- Waiting for a free mailbox descriptor or for a memory-pool block: the event happens only when there is one, and the pool's answer is a parameter.
- Interrupts between the iterations of the timeout loop, and handlers that start or abort timeouts while others are being handled.
- SysClock.SysClock.Abort: a timeout marked expired and not yet handled is not modelled, since expiring and handling are one step.
- Mutex.InheritanceSafety: one mutex and atomic calls; a thread owning several mutexes, the reschedule inside `_thread_priority_set` and a waiter that resumes after the owner has released are not modelled.
- RbOps.RemoveNode: the tree is a value and the stack of nodes a path; pointer identity and the colour bit packed into a pointer are not modelled.
- RbOps.InsertNode: likewise.
- RbQueue.RbQueue.AddThread: the order key counter is taken as the 32-bit pattern it leaves in the thread; fewer threads than keys are assumed.
- RbQueue.RbQueue.RemoveThread: the thread's own priority and key are looked up in its node.
- Scheduler.DoInv: the boot-time dummy thread and the call of `k_thread_resume` on a thread that is not suspended are not modelled.
- Kernel.Kernel.HandleTimeSlicing: a clock interrupt nested in another one that has just blocked the current thread is not modelled: the current thread is ready.
- Mailbox.Mbox.GetMessage: stops where the receiver waits; on being matched it goes on with `MessageDataCheck`.
- Fairness of the clock beyond single-tick announcements: several ticks at once end at most one slice.
