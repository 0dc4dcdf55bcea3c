# Verified models of the MelonSoc kernel and boot loaders

Two components of the repository are modelled in Dafny and proved correct.

**The single-core FreeRTOS kernel in the configuration of `FreeRTOSConfig.h`.** `ListModel` and
`KernelList` treat the circular lists; `QueueStorage`, `QueueProtocol`, `QueueLedger` and
`QueueCode` the queues, as a byte ring and as a protocol between tasks and interrupts;
`Shelves`, `SortedLists` and the `Scheduler` modules the scheduler; `Ticks` and `TimeOuts`
time-outs; `TimerCourses` and `Timers` the timer daemon. Where the code keeps 32-bit tick
counts, the proofs relate them to unbounded time.

**The boot loaders and the programs at their other end.** `Bytes` and `Crc` treat the check sum;
`BootImage`, `XmodemStore`, `XmodemFrame`, `XmodemProtocol`, `XmodemProgress`, `XmodemCode` and
`XmodemReceiver` the XMODEM transfer; `FatVolume`, `FatBoot`, `FatDisk`, `SdImage` and
`SdRoundTrip` the FAT32 loader, the cards it reads and the program that builds its images;
`Uart` the simulator's serial line.

Code that works step by step is written as classes and methods with its loops, each proved
against a function on values. What the code is for is then proved about those functions, over
every input, every run of events or every reachable state. A critical section, or a region run
with the scheduler suspended, is one event; interrupts can come between any two events. What a
clock, a serial line, a card or another task contributes is an argument. Ghost variables record
what the code does not store: unbounded time, the due time of a wait, the start of a timer's
course and its callbacks, the true number of posts to a locked queue.

## Findings

Where the code does not do what its documentation or the obvious claim says, the code is
modelled, and a lemma gives the case and the exact condition.

- `vListInsertEnd` places an item so that it is visited last only while the index rests on the
  end marker; otherwise the item visited most recently comes after it (`InsertEndOrder`).
- The int8 lock counters reach their assertion with more than 127 tasks (`CountersCanOverflow`),
  and a count capped at the number of tasks bounds the messages only in queues no longer than
  that (`LockCountBoundsExactly`, `LockCountBoundsSlotsExactly`, `LockCountSaturates`); unlocking
  wakes the right number all the same (`UnlockWakesExactly`).
- Deleting a receiver that was woken and has not run loses its wakeup (`DeletionForgets`,
  `DeletionExactly`); resetting a full queue wakes one sender although all could go on
  (`ResetForgets`, `ResetExactly`).
- Overwriting a full queue of items of no size leaves a count of 2 in a queue of length 1
  (`CopyDataToQueue`).
- Suspending or deleting a task that already waits for clean-up makes the clean-up count wrong
  (`CountedSuspend`, `CountedDelete`, `StoppedTwice`).
- The head of an event list is not always its highest-ranked task: `vTaskPrioritySet` rewrites
  the key of a waiting task without sorting it in again (`RaisedInRun`, `RaisedBehind`,
  `StepOrder`).
- A wait of no ticks begun at the last tick before the wrap would break the list swap's
  assertion (`ZeroWaitAtLastTick`); the timer daemon's only wait of none is at tick 0
  (`ProcessTimerOrBlockTask`).
- Two tick wraps between time-out checks can hide a time-out (`TwoWrapsMissed`, `RightExactly`).
- A timer command more than a turn of the tick count old can be taken for a recent one
  (`PlacingStale`, `PlacingAges`).
- The timer command kept for tracing takes a running timer out of its list and leaves it marked
  active, and no other command does (`ProcessCommand`).
- The simulator's sender has no timeout: a lost block, end mark or answer cannot be made up for
  (`BenchLosesForGood`).
- The table that `make_sd_image.py` calls the smallest is not, above 6 MiB (`SmallestExactly`),
  and its sizing loop never runs (`SizeTable`).
- `fatboot_load` goes on past a free directory entry that the FAT32 File System Specification
  1.03, section "FAT Directory Structure", makes the end of the directory
  (`ScanMeetsSpecification`, `SearchMeetsSpecification`, `StaleEntryFound`).
- With equal bit periods the simulator's UART monitor needs at least 21 cycles; with one cycle
  more for the stimulus any number will do (`TightBound`, `ReliableRates`).

## Model

| member | source | states |
|---|---|---|
| KernelList.KernelList.constructor | src/program/ddr_app/rtos/FreeRTOS/list.c:49-86 | an initialised list is empty, its end marker linked to itself with the largest key, and the walking index on the marker |
| KernelList.KernelList.InsertEnd | src/program/ddr_app/rtos/FreeRTOS/list.c:105-136 | the pointer writes put the item into the cyclic sequence just before the index, keep every link consistent in both directions, and change nothing else of the sequence |
| KernelList.KernelList.Scan | src/program/ddr_app/rtos/FreeRTOS/list.c:150-198 | the scan ends at the last node whose key is not above the new one, whatever the keys, the largest key included |
| KernelList.KernelList.Insert | src/program/ddr_app/rtos/FreeRTOS/list.c:139-213 | the item goes in after every item of equal or smaller key; a list sorted before is sorted afterwards; the index stays on its item |
| KernelList.KernelList.Remove | src/program/ddr_app/rtos/FreeRTOS/list.c:217-247 | the item is unlinked and belongs to no list, an index resting on it steps back, the count left is returned |
| KernelList.KernelList.NextEntry | src/program/ddr_app/rtos/FreeRTOS/include/list.h:286-297 | walking skips the end marker and returns the item after the one returned before |
| ListModel.SortedInsertion | src/program/ddr_app/rtos/FreeRTOS/list.c:139-213 | inserting where the scan stops keeps the keys sorted and puts the new key after every equal one; the largest key goes to the tail |
| ListModel.RoundRobin | src/program/ddr_app/rtos/FreeRTOS/tasks.c:194-209 | from any index position the k-th walk returns the k-th item of the visiting order |
| ListModel.RoundVisitsEachOnce | src/program/ddr_app/rtos/FreeRTOS/tasks.c:194-209 | n walks over n items return each of them exactly once |
| ListModel.RoundRepeats | src/program/ddr_app/rtos/FreeRTOS/tasks.c:194-209 | the next n walks return them in the same order |
| ListModel.InsertEndOrder | src/program/ddr_app/rtos/FreeRTOS/list.c:105-136 | where an end-inserted item comes in the visiting order, and that it comes last if and only if the index rests on the end marker |
| ListModel.RemoveOrder | src/program/ddr_app/rtos/FreeRTOS/list.c:217-247 | removing an item takes it out of the visiting order and leaves the order of the others as it was |
| QueueStorage.Storage.Reset | src/program/ddr_app/rtos/FreeRTOS/queue.c:303-326 | whatever was in the ring buffer, it then holds no item and is again a valid ring |
| QueueStorage.Storage.CopyDataToQueue | src/program/ddr_app/rtos/FreeRTOS/queue.c:2393-2473 | on the bytes of the buffer: sending to the back appends, to the front prepends, overwriting a queue of length one replaces; both pointers stay on item boundaries inside the storage and the write slot is the read slot + 1 + count modulo the length. With items of no size an overwrite of a full queue leaves a count of 2, exactly then |
| QueueStorage.Storage.CopyDataFromQueue | src/program/ddr_app/rtos/FreeRTOS/queue.c:2476-2494 | the item copied out is the oldest one |
| QueueStorage.Storage.Send | src/program/ddr_app/rtos/FreeRTOS/queue.c:942-1157 | accepted exactly if there is room or it is an overwrite, and then the contents are those with the item placed; refused, they are unchanged |
| QueueStorage.Storage.Receive | src/program/ddr_app/rtos/FreeRTOS/queue.c:1505-1652 | the contents before are the item received followed by the contents after; nothing is received exactly from an empty queue |
| QueueStorage.Storage.Peek | src/program/ddr_app/rtos/FreeRTOS/queue.c:1880-2035 | the head is returned and the contents stay as they were, the read pointer having been put back |
| QueueStorage.WrapIsModulo | src/program/ddr_app/rtos/FreeRTOS/queue.c:2425-2430 | stepping a pointer back to the head when it reaches the tail is arithmetic modulo the length |
| QueueStorage.WindowPushBack | src/program/ddr_app/rtos/FreeRTOS/queue.c:2421-2434 | writing the slot after the last one appends to the sequence the ring stands for, wherever it wraps |
| QueueStorage.WindowPushFront | src/program/ddr_app/rtos/FreeRTOS/queue.c:2435-2448 | writing the read slot and stepping it back prepends |
| QueueStorage.WindowPop | src/program/ddr_app/rtos/FreeRTOS/queue.c:2476-2494 | stepping the read slot forward takes the first item off |
| QueueStorage.FirstInFirstOut | src/program/ddr_app/rtos/FreeRTOS/queue.c:2393-2494 | for every series of sends, receives and resets there are never more items than slots, and with sends to the back only, what was taken followed by what is held is what was accepted |
| QueueCode.EventQueue.TrySend | src/program/ddr_app/rtos/FreeRTOS/queue.c:962-1040 | the critical section of a send acts on queue, event lists and counts as the protocol step says; accepted without overwriting it adds one message, refused it changes neither count nor receivers |
| QueueCode.EventQueue.TryReceive | src/program/ddr_app/rtos/FreeRTOS/queue.c:1528-1575 | the same of a receive or a peek: a peek leaves count and waiting senders as they were, a receive that finds a message takes one |
| QueueCode.EventQueue.SendFromISR | src/program/ddr_app/rtos/FreeRTOS/queue.c:1160-1329 | a post from an interrupt: it wakes a waiting receiver if the queue is unlocked and counts otherwise |
| QueueCode.EventQueue.ReceiveFromISR | src/program/ddr_app/rtos/FreeRTOS/queue.c:2038-2135 | the same of a removal from an interrupt |
| QueueCode.EventQueue.LockQueue | src/program/ddr_app/rtos/FreeRTOS/queue.c:258-270 | both sides are locked with a count of zero unless they were locked |
| QueueCode.EventQueue.StillBlocks | src/program/ddr_app/rtos/FreeRTOS/queue.c:2617-2680 | the second look decides whether the caller goes on to wait |
| QueueCode.EventQueue.PlaceOnEventList | src/program/ddr_app/rtos/FreeRTOS/queue.c:1116-1137 | the caller joins the event list of its side at the place its priority gives it |
| QueueCode.EventQueue.UnlockTx | src/program/ddr_app/rtos/FreeRTOS/queue.c:2497-2575 | the loop over the posts wakes waiting receivers in list order and unlocks the side |
| QueueCode.EventQueue.UnlockRx | src/program/ddr_app/rtos/FreeRTOS/queue.c:2577-2614 | the loop over the removals does the same for senders |
| QueueCode.EventQueue.Reset | src/program/ddr_app/rtos/FreeRTOS/queue.c:303-364 | the count becomes zero and one waiting sender is woken |
| QueueLedger.MessagesConserved | src/program/ddr_app/rtos/FreeRTOS/queue.c:942-2135 | over any run without resets and overwriting the messages are those there were, plus the sends accepted, less the receives, not peeks, that found one, from tasks and interrupts |
| QueueLedger.MessagesAccounted | src/program/ddr_app/rtos/FreeRTOS/queue.c:303-2135 | over any run at all, with an overwrite replacing and a reset taking all out |
| QueueLedger.ConservedSinceReset | src/program/ddr_app/rtos/FreeRTOS/queue.c:303-364 | a reset starts that count again |
| QueueLedger.WaitersExactly | src/program/ddr_app/rtos/FreeRTOS/queue.c:942-2614 | after any event the tasks waiting on either side are those that waited, without the first ones, which were woken, or the one taken off, or with the one that joined; how many are woken is told by the event and the true counts alone |
| QueueLedger.NoneWokenForNothing | src/program/ddr_app/rtos/FreeRTOS/queue.c:942-2614 | over any run no more receivers are woken than messages sent and peeked at, and no more senders than messages received and resets |
| QueueProtocol.NoReceiverForgotten | src/program/ddr_app/rtos/FreeRTOS/queue.c:942-1652 | from creation on, under every interleaving of task and interrupt calls, timeouts, suspensions, creations, resets and deletions of tasks that are not woken receivers: if a task waits to receive and the queue is unlocked, there are no more messages than receivers woken and not yet retried; while it is locked the bound grows by the lock count, unless that count is the number of tasks and there are more messages still; and for a queue no longer than the number of tasks it always does |
| QueueProtocol.NoSenderForgotten | src/program/ddr_app/rtos/FreeRTOS/queue.c:942-1652 | the mirror image for free slots and waiting senders, for runs without reset |
| QueueProtocol.UnlockWakesExactly | src/program/ddr_app/rtos/FreeRTOS/queue.c:2497-2614 | although the counts are capped, unlocking wakes exactly the smaller of the true number of posts (removals) since locking and the number of waiters, in list order |
| QueueProtocol.CountersAlwaysFit | src/program/ddr_app/rtos/FreeRTOS/queue.c:277-300 | in every run with at most 127 tasks the assertion on the lock counters holds |
| QueueProtocol.CountersCanOverflow | src/program/ddr_app/rtos/FreeRTOS/queue.c:277-300 | for every length: with more tasks, 127 pairs of a post to and a removal from a locked queue make it fail |
| QueueProtocol.DeletionExactly | src/program/ddr_app/rtos/FreeRTOS/tasks.c:2213-2359 | deleting a task keeps the claim about receivers if and only if the task has not been woken, no other task waits, or the wakeups of the others suffice for the messages |
| QueueProtocol.DeletionForgets | src/program/ddr_app/rtos/FreeRTOS/tasks.c:2213-2359 | a run in which the deletion of a woken receiver leaves another waiting beside a message |
| QueueProtocol.ResetExactly | src/program/ddr_app/rtos/FreeRTOS/queue.c:340-355 | reset keeps the claim about senders if and only if at most one waits or the length is at most one more than the woken senders |
| QueueProtocol.ResetForgets | src/program/ddr_app/rtos/FreeRTOS/queue.c:340-355 | a run in which it leaves a sender waiting beside two free slots |
| QueueProtocol.LockCountBoundsExactly | src/program/ddr_app/rtos/FreeRTOS/queue.c:277-300 | the lock count and the woken receivers bound the messages in every run that ends with these tasks if and only if the length is at most their number (and the queue is not of length one with items of no size) |
| QueueProtocol.LockCountBoundsSlotsExactly | src/program/ddr_app/rtos/FreeRTOS/queue.c:277-300 | the same of the other lock count, the free slots and the senders, if and only if the length is at most the number of tasks |
| QueueProtocol.LockCountSaturates | src/program/ddr_app/rtos/FreeRTOS/queue.c:277-285 | a run in which a locked queue has more messages than woken receivers and lock count together |
| TimeOuts.CheckExact | src/program/ddr_app/rtos/FreeRTOS/tasks.c:5587-5653 | with at most one wrap since the last look, a check reports a timeout exactly if the remaining wait is over in unbounded time, and otherwise entry time plus remaining wait stays what it was |
| TimeOuts.TimesOutWhenDue | src/program/ddr_app/rtos/FreeRTOS/tasks.c:5587-5653 | over any series of checks, the first to report a timeout is the first made when the total time since the start has reached the wait asked for |
| TimeOuts.NeverTimesOut | src/program/ddr_app/rtos/FreeRTOS/tasks.c:5611-5619 | the largest wait never times out |
| TimeOuts.RightExactly | src/program/ddr_app/rtos/FreeRTOS/tasks.c:5622-5643 | for any two times: a check answers rightly if and only if they are less than a turn of the tick count apart, or the overflow counts differ and the tick count has passed the entry again, or the rest above full turns reaches the wait |
| TimeOuts.RightWithin | src/program/ddr_app/rtos/FreeRTOS/tasks.c:5622-5643 | the same as long as the overflow count has not itself come round |
| TimeOuts.TwoWrapsMissed | src/program/ddr_app/rtos/FreeRTOS/tasks.c:5622-5643 | an input at which a check is wrong |
| TimeOuts.TimeOutState.CheckForTimeOut | src/program/ddr_app/rtos/FreeRTOS/tasks.c:5587-5653 | the code computes the verdict the lemmas are about |
| SchedulerCode.KernelState.IncrementTick | src/program/ddr_app/rtos/FreeRTOS/tasks.c:4731-4972 | the tick handler with its loop over the delayed list: same lists, times, flags and answer as the step function |
| SchedulerCode.KernelState.ReadyDueTasks | src/program/ddr_app/rtos/FreeRTOS/tasks.c:4759-4856 | its loop ends and readies the tasks the step function readies |
| SchedulerCode.KernelState.SwitchDelayedLists | src/program/ddr_app/rtos/FreeRTOS/tasks.c:264-276 | the delayed lists trade places, the overflow count goes up modulo 2^32, and the next unblock time is found again |
| SchedulerCode.KernelState.ResetNextTaskUnblockTime | src/program/ddr_app/rtos/FreeRTOS/tasks.c:6515-6533 | the next unblock time is that of the head of the delayed list, or the largest |
| SchedulerCode.KernelState.AddCurrentTaskToDelayedList | src/program/ddr_app/rtos/FreeRTOS/tasks.c:8579-8655 | the running task leaves its ready list for the suspended list or, with its wake time, for the delayed list of the epoch |
| SchedulerCode.KernelState.PlaceOnEventList | src/program/ddr_app/rtos/FreeRTOS/tasks.c:5296-5322 | the running task joins an event list by priority and a delayed list |
| SchedulerCode.KernelState.PlaceOnEventListRestricted | src/program/ddr_app/rtos/FreeRTOS/tasks.c:5357-5389 | the same at the end of the event list, with the indefinite wait |
| SchedulerCode.KernelState.RemoveFromEventList | src/program/ddr_app/rtos/FreeRTOS/tasks.c:5394-5484 | the head of an event list is readied, or pended if the scheduler is suspended; whether it outranks the running task is returned and remembered |
| SchedulerCode.KernelState.SuspendScheduler | src/program/ddr_app/rtos/FreeRTOS/tasks.c:3837-3880 | only the nesting count changes |
| SchedulerCode.KernelState.DrainPending | src/program/ddr_app/rtos/FreeRTOS/tasks.c:4038-4075 | the loop over the pending tasks |
| SchedulerCode.KernelState.TakePendedTicks | src/program/ddr_app/rtos/FreeRTOS/tasks.c:4089-4124 | the loop over the pended ticks |
| SchedulerCode.KernelState.ResumeScheduler | src/program/ddr_app/rtos/FreeRTOS/tasks.c:4011-4157 | the whole of resuming: nothing but the count below the outermost level; there the loops, and a switch if one is due |
| SchedulerCode.KernelState.TopReadyList | src/program/ddr_app/rtos/FreeRTOS/tasks.c:194-209 | the selection loop ends at the highest list that is not empty |
| SchedulerCode.KernelState.SwitchContext | src/program/ddr_app/rtos/FreeRTOS/tasks.c:5109-5192 | the list walked, the task selected and the flags, also when the scheduler is suspended, as the switch the round robin is proved of |
| SchedulerCode.KernelState.AddNewTaskToReadyList | src/program/ddr_app/rtos/FreeRTOS/tasks.c:2041-2115 | the new task is counted, filed by its clipped priority, and becomes the running one or asks for a switch |
| SchedulerCode.KernelState.SuspendTask | src/program/ddr_app/rtos/FreeRTOS/tasks.c:3155-3243 | the first critical section: the task leaves its lists for the suspended list |
| SchedulerCode.KernelState.TaskSuspend | src/program/ddr_app/rtos/FreeRTOS/tasks.c:3149-3270 | the whole of it: that, then the search for the next unblock time, then a yield if it is the running one |
| SchedulerCode.KernelState.TaskResume | src/program/ddr_app/rtos/FreeRTOS/tasks.c:3382-3428 | exactly a suspended task that waits for no event is readied |
| SchedulerCode.KernelState.TaskDelete | src/program/ddr_app/rtos/FreeRTOS/tasks.c:2213-2359 | a task that deletes itself waits for clean-up and yields; any other is forgotten at once |
| SchedulerCode.KernelState.TaskPrioritySet | src/program/ddr_app/rtos/FreeRTOS/tasks.c:2796-2999 | the priority changes, a ready task moves to its new list, and a switch is asked for exactly where needed |
| SchedulerCode.KernelState.CheckTasksWaitingTermination | src/program/ddr_app/rtos/FreeRTOS/tasks.c:6099-6172 | the loop of the idle task ends and frees every deleted task |
| SchedulerMachine.InvKept | src/program/ddr_app/rtos/FreeRTOS/tasks.c:2041-8655 | every event keeps the invariant behind the theorems below |
| SchedulerMachine.NextPossible | src/program/ddr_app/rtos/FreeRTOS/tasks.c:2041-8655 | the runs the theorems speak of are all runs: after any of them the invariant holds and the next event is restricted by its own condition only |
| SchedulerMachine.TasksConserved | src/program/ddr_app/rtos/FreeRTOS/tasks.c:2041-6172 | after every run each live task is in exactly one state list, ready list p holds only tasks of priority p, the number of tasks is the total over all lists, the clean-up count is the length of the termination list, and the pending list is empty unless the scheduler is suspended |
| SchedulerMachine.PreemptionNeverMissed | src/program/ddr_app/rtos/FreeRTOS/tasks.c:2796-5484 | after every run a context switch has been requested or no ready task outranks the running one |
| SchedulerMachine.PreemptionAskedAtOnce | src/program/ddr_app/rtos/FreeRTOS/tasks.c:4011-4972 | after an unsuspended tick and after the outermost resumption that holds of the request to the port alone |
| SchedulerMachine.TicksConserved | src/program/ddr_app/rtos/FreeRTOS/tasks.c:4027-4958 | after every run ticks processed plus ticks pended are the tick interrupts, the tick count is the processed number modulo 2^32, and the overflow count is its quotient, the premise of the time-out checks |
| SchedulerMachine.BlocksUntil | src/program/ddr_app/rtos/FreeRTOS/tasks.c:8579-8655 | a task that blocks at unbounded tick T for d ticks, 1 <= d < 2^32, is due at T + d |
| SchedulerMachine.WaitsForEventUntil | src/program/ddr_app/rtos/FreeRTOS/tasks.c:5296-5322 | so is one that waits on an event list in priority order with a limit below the largest tick |
| SchedulerMachine.WaitsRestrictedUntil | src/program/ddr_app/rtos/FreeRTOS/tasks.c:5357-5389 | so is one put at the end of an event list with a limit |
| SchedulerMachine.WaitStep | src/program/ddr_app/rtos/FreeRTOS/tasks.c:4742-8655 | no event but the tick or the resumption that reaches the due time ends a wait it is not about |
| SchedulerMachine.WokenExactlyWhenDue | src/program/ddr_app/rtos/FreeRTOS/tasks.c:4742-8655 | over every run and any number of wraps, a task due at unbounded tick d still waits while fewer than d ticks are processed, and is ready right after the event that processes tick d: a tick interrupt reaching exactly d, or the resumption catching up on it |
| SchedulerKept.SelectsHighest | src/program/ddr_app/rtos/FreeRTOS/tasks.c:194-209 | selection yields a ready task outranked by none, using only that the recorded top priority bounds the ready ones and that a task is ready |
| SchedulerRounds.SwitchTurns | src/program/ddr_app/rtos/FreeRTOS/tasks.c:194-209 | a switch selects the first task of the visiting order of the highest ready list and makes it the last; no other list changes |
| SchedulerRounds.TakeTurns | src/program/ddr_app/rtos/FreeRTOS/tasks.c:5109-5192 | over any run in which the same tasks share the highest ready priority, whatever else happens, the i-th task selected is the i-th of the visiting order, round after round |
| SchedulerRounds.EachOnceARound | src/program/ddr_app/rtos/FreeRTOS/tasks.c:5109-5192 | so among any n selections in a row each of the n tasks is selected exactly once |
| SchedulerEffects.TickAsksExactly | src/program/ddr_app/rtos/FreeRTOS/tasks.c:4731-4972 | a tick asks for a switch if and only if the scheduler is not suspended and a yield is pending, a task that outranks the running one has become ready, or another task shares its priority; exactly the tasks that become ready leave their event lists |
| SchedulerEffects.DrainEffect | src/program/ddr_app/rtos/FreeRTOS/tasks.c:4038-4075 | the first loop readies exactly the pending tasks, and wants a yield exactly if one of them outranks the running task or a yield was wanted |
| SchedulerEffects.ResumeEffect | src/program/ddr_app/rtos/FreeRTOS/tasks.c:4011-4157 | the outermost resumption readies every pending task and without pended ticks no other, and then asks for a switch exactly for the reasons there are |
| SchedulerEffects.SuspendEffect | src/program/ddr_app/rtos/FreeRTOS/tasks.c:3155-3243 | the task is in the suspended list and on no event list, and nothing else has changed |
| SchedulerEffects.ResumeTaskEffect | src/program/ddr_app/rtos/FreeRTOS/tasks.c:3382-3428 | exactly a suspended task that waits for no event becomes ready, nothing else changes, and a switch is asked for if it outranks the running one |
| SchedulerEffects.PrioritySetEffect | src/program/ddr_app/rtos/FreeRTOS/tasks.c:2796-2999 | up or down, the task has the new priority, a ready one is in the list of it, nobody else moves; a switch is asked for exactly if it is raised above the running task or is the running task and lowered |
| SchedulerEffects.DeleteEffect | src/program/ddr_app/rtos/FreeRTOS/tasks.c:2213-2359 | a task that deletes itself goes to the list for clean-up, any other is gone, neither waits for an event |
| SchedulerEffects.CreateEffect | src/program/ddr_app/rtos/FreeRTOS/tasks.c:2041-2115 | a new task is ready with its clipped priority; who runs, and whether a switch is asked for |
| SchedulerEffects.BlockEffect | src/program/ddr_app/rtos/FreeRTOS/tasks.c:8579-8655 | the running task goes to the suspended list exactly if it waits for ever, otherwise to a delayed list with its wake time; nobody else moves |
| SchedulerEffects.PlaceEffect | src/program/ddr_app/rtos/FreeRTOS/tasks.c:5296-5389 | besides, it has joined the event list given |
| SchedulerEffects.WakeEffect | src/program/ddr_app/rtos/FreeRTOS/tasks.c:5394-5484 | the head leaves the event list, is ready or pending, and a yield is wanted from then on exactly if it outranks the running task |
| SchedulerEffects.JoinsAtEnd | src/program/ddr_app/rtos/FreeRTOS/tasks.c:284-289 | whatever makes a task ready does so by an end insertion into the list of its priority, or while the scheduler is suspended into the pending ready list |
| SchedulerEffects.CreatedAtEnd | src/program/ddr_app/rtos/FreeRTOS/tasks.c:2041-2115 | so does creation |
| SchedulerEffects.MovedAtEnd | src/program/ddr_app/rtos/FreeRTOS/tasks.c:2940-2960 | and a change of the priority of a ready task |
| SchedulerEffects.BlockedInOrder | src/program/ddr_app/rtos/FreeRTOS/tasks.c:8579-8655 | a task that waits with a limit stands behind those due no later and before the others |
| SchedulerKept.CountedSuspend | src/program/ddr_app/rtos/FreeRTOS/tasks.c:3149-3301 | suspending a task keeps the clean-up count right if and only if the task is not itself waiting for clean-up |
| SchedulerKept.CountedDelete | src/program/ddr_app/rtos/FreeRTOS/tasks.c:2213-2359 | the same of deleting it |
| SchedulerMachine.StoppedTwice | src/program/ddr_app/rtos/FreeRTOS/tasks.c:2213-3301 | a run in which a task that has deleted itself could be suspended or deleted once more, and either would make the count wrong |
| SchedulerOrder.StepOrder | src/program/ddr_app/rtos/FreeRTOS/tasks.c:2796-5484 | all event lists being in priority order, an event leaves them so if and only if it fits: a task is put at the end of a list only where it belongs there, and a waiting task gets only a priority its place allows; every other event fits |
| SchedulerOrder.OrderedExactly | src/program/ddr_app/rtos/FreeRTOS/tasks.c:5403-5404 | from creation on, the lists are in priority order all along a run if and only if each of its events fits |
| SchedulerOrder.HighestWoken | src/program/ddr_app/rtos/FreeRTOS/tasks.c:5394-5484 | after every run whose events fit, an event readies (or, the scheduler being suspended, pends) a waiting task that no other in the list outranks |
| SchedulerOrder.RaisedBehind | src/program/ddr_app/rtos/FreeRTOS/tasks.c:2926-2929 | raising the priority of a task that waits behind another of its own leaves the list out of order, with the outranked task at the head |
| SchedulerOrder.RaisedInRun | src/program/ddr_app/rtos/FreeRTOS/tasks.c:2926-2929 | a run from creation in which two tasks come to wait and the second is raised: before, every list is in order, and after it the head is outranked |
| SchedulerTime.SwitchAssertion | src/program/ddr_app/rtos/FreeRTOS/tasks.c:264-276 | the assertion at the list swap never fails: at the last tick before the wrap nothing waits in the list put aside |
| SchedulerTime.ZeroWaitAtLastTick | src/program/ddr_app/rtos/FreeRTOS/tasks.c:264-276 | a wait of no ticks begun at the last tick before the wrap would make it fail |
| SchedulerTime.NextUnblockIsLeast | src/program/ddr_app/rtos/FreeRTOS/tasks.c:6515-6533 | the next unblock time found is the earliest of the current list, or the largest tick |
| SchedulerTime.ListsAroundTick | src/program/ddr_app/rtos/FreeRTOS/tasks.c:4742-4856 | current-list items lie ahead of the tick count, overflow-list items behind it, and the next unblock time is no later than any current-list item |
| SchedulerTime.TickTime | src/program/ddr_app/rtos/FreeRTOS/tasks.c:4742-4856 | one tick readies exactly the waiting tasks whose unbounded due time it reaches |
| SchedulerTime.ResumeTime | src/program/ddr_app/rtos/FreeRTOS/tasks.c:4027-4124 | resuming readies exactly those due by the unbounded time reached |
| SchedulerTicks.ResumeIsTicksOneByOne | src/program/ddr_app/rtos/FreeRTOS/tasks.c:4027-4124 | the outermost resumption leaves the same lists, times and tick count as draining the pending tasks and then taking the pended ticks one by one unsuspended, and wants a switch exactly if those would |
| Shelves.TotalIsHome | src/program/ddr_app/rtos/FreeRTOS/tasks.c:2041-2115 | the lists of a family hold every item that is in one of them exactly once |
| TimerCourses.PlacingExact | src/program/ddr_app/rtos/FreeRTOS/timers.c:890-931 | with a command less than a turn old, an expiry is processed at once exactly if unbounded time c + P is at or before now, and otherwise filed in the list of its epoch |
| TimerCourses.PlacingAges | src/program/ddr_app/rtos/FreeRTOS/timers.c:890-931 | for any age of the command: what the comparisons compute, and that they decide rightly if and only if the age is below 2^32 or its rest modulo 2^32 reaches the period |
| TimerCourses.PlacingStale | src/program/ddr_app/rtos/FreeRTOS/timers.c:890-931 | an input at which they are wrong |
| TimerCourses.NoDrift | src/program/ddr_app/rtos/FreeRTOS/timers.c:695-711 | k callbacks made with the next expiry c + (k+1)P still to come and the last not: k is the floor of (now - c)/P |
| Timers.TimerService.InsertTimerInActiveList | src/program/ddr_app/rtos/FreeRTOS/timers.c:890-931 | answers true exactly if c + P is at or before now; otherwise the timer is in the list of the epoch it expires in; no other timer changes |
| Timers.TimerService.ReloadTimer | src/program/ddr_app/rtos/FreeRTOS/timers.c:695-711 | it ends, makes one callback for every further expiry up to now, keeps the start of the course, and files the timer for the first expiry after now |
| Timers.TimerService.ProcessExpiredTimer | src/program/ddr_app/rtos/FreeRTOS/timers.c:714-741 | the head expires: an auto-reload timer goes on with its course, a one-shot timer leaves with one callback |
| Timers.TimerService.SwitchTimerLists | src/program/ddr_app/rtos/FreeRTOS/timers.c:1089-1111 | it ends, since what is reloaded there belongs to the next epoch; every timer goes on with its course |
| Timers.TimerService.SampleTimeNow | src/program/ddr_app/rtos/FreeRTOS/timers.c:867-887 | the lists are switched exactly if the epoch has changed; every timer goes on with its course |
| Timers.TimerService.GetNextExpireTime | src/program/ddr_app/rtos/FreeRTOS/timers.c:840-864 | the value of the head, or zero for an empty list |
| Timers.TimerService.ProcessTimerOrBlockTask | src/program/ddr_app/rtos/FreeRTOS/timers.c:778-837 | every timer goes on with its course; unless the lists are switched, the daemon either makes the callback of a timer that is due, which is then due no more, or sleeps exactly to the earliest expiry of the current list, or to the wrap if that is empty; never past an expiry, and for ever only if no timer runs |
| Timers.TimerService.Settle | src/program/ddr_app/rtos/FreeRTOS/timers.c:744-837 | while time stands still and no command comes in, finitely many turns bring the daemon to sleep, with no timer due |
| Timers.TimerService.InitialiseNewTimer | src/program/ddr_app/rtos/FreeRTOS/timers.c:417-445 | a new timer is in no list and not active |
| Timers.TimerService.StartTimer | src/program/ddr_app/rtos/FreeRTOS/timers.c:997-1032 | started or reset at c: an auto-reload timer is due at c plus a multiple of its period and after now; a one-shot timer is listed, or has been called back once if that time is past |
| Timers.TimerService.ChangePeriodOf | src/program/ddr_app/rtos/FreeRTOS/timers.c:1040-1056 | the timer is active and due one new period after now |
| Timers.TimerService.ProcessCommand | src/program/ddr_app/rtos/FreeRTOS/timers.c:934-1086 | each command does that to its timer, every other timer goes on with its course, and every timer is marked active exactly when it is listed or has last been given the trace command while marked |
| Timers.TimerService.ProcessReceivedCommands | src/program/ddr_app/rtos/FreeRTOS/timers.c:934-1086 | the same for a queue of commands, the trace command among them |
| Timers.TimerService.NoDriftEver | src/program/ddr_app/rtos/FreeRTOS/timers.c:695-742 | in every state between steps a listed timer is due at its start plus (k+1) periods, in the current list exactly if that is in the current epoch |
| Timers.TimerService.Run | src/program/ddr_app/rtos/FreeRTOS/timers.c:744-775 | over every run of creations, daemon turns and commands: an auto-reload timer started at c and not commanded since is due at c + (k+1)P after k callbacks, and whenever the daemon goes to sleep k is the floor of (now - c)/P, across any number of wraps; a one-shot timer is due at c + P and called back once |
| Timers.TimerService.RunToRest | src/program/ddr_app/rtos/FreeRTOS/timers.c:744-837 | after any such run the daemon comes to sleep, and then every timer is up to date in that sense |
| Crc.CrcLinear | src/program/boot/xmodem.c:28-42 | the CRC of the exclusive or of two equally long bit strings is the exclusive or of their CRCs |
| Crc.SerialInjective | src/program/boot/xmodem.c:33-39 | different register states stay different under the same further message |
| Crc.BurstDetected | src/program/boot/xmodem.c:28-42 | any error confined to sixteen consecutive bits changes the CRC, for blocks of any length |
| Crc.DamageDetected | src/program/boot/xmodem.c:28-42 | the same of the word the loops compute on bytes |
| Crc.CrcWordIsChecksum | src/program/boot/xmodem.c:28-42 | the table-free byte loop computes the bit-serial register |
| Crc.Crc16C | src/sim/bench.cpp:159-172 | the C and C++ loops compute that function |
| Crc.Crc16Python | src/program/tools/xmodem_send.py:21-30 | so does the Python loop, which masks elsewhere |
| BootImage.AcceptedFits | src/program/boot/boot_image.c:10-37 | a header is accepted exactly if the magic is right, the address lies in range and the image ends at or below the limit, and then no 32-bit sum wraps |
| BootImage.HeaderRoundTrip | src/program/boot/boot_image.c:10-37 | a header written for two sizes that fit is parsed to those sizes |
| BootImage.ValidFileSizeExact | src/program/boot/boot_image.c:39-54 | a file size is accepted exactly if it is the header plus both sizes |
| XmodemStore.Loader.StoreBlock | src/program/boot/xmodem.c:105-147 | a block is accepted exactly if the header is good, the image is not complete and what lies behind its end is padding; then header, sizes and memory are those of the longer prefix; refused, nothing lies outside the window |
| XmodemStore.WholeImageStored | src/program/boot/xmodem.c:105-147 | once as many bytes as declared have come in: exactly the blocks it takes were stored, the rest of the last is padding, memory holds exactly the payload below the limit, no 32-bit sum wrapped |
| XmodemStore.WritesInWindow | src/program/boot/xmodem.c:132-136 | every byte written lies between the destination and the end of the declared payload, below the limit |
| XmodemFrame.FrameRoundTrip | src/sim/bench.cpp:174-196 | what a sender frames the receiver takes apart to the same number and data |
| XmodemFrame.OnlyFramesDecode | src/program/boot/xmodem.c:72-103 | nothing is taken for a block but the frame of that block |
| XmodemFrame.DamagedDataRefused | src/program/boot/xmodem.c:91-99 | damage to sixteen consecutive bits of the data is refused |
| XmodemFrame.DamagedEndsRefused | src/program/boot/xmodem.c:91-99 | so is any damage to the check sum or to one number byte |
| XmodemProtocol.InvKept | src/program/boot/xmodem.c:149-250 | each event of receiver, sender and channel keeps the two in step |
| XmodemProtocol.AlwaysInStep | src/program/boot/xmodem.c:149-250 | for images of any length, over every run the receiver has accepted as many blocks as were acknowledged or one more, and what it stored is the beginning of the padded image, so wrapped block numbers never let in a wrong block |
| XmodemProtocol.DoneMeansLoaded | src/sim/bench.cpp:198-240 | a sender that is done has a receiver that returned success with the whole well-formed image stored |
| XmodemProtocol.LoadedExactly | src/program/boot/xmodem.c:195-203 | memory is then exactly the payload of the file if and only if the header declares the size of the file |
| XmodemProgress.CanSucceedExactly | src/program/boot/xmodem.c:149-250 | some exchange brings a transfer to a good end if and only if the header is good, the padded image has the blocks the declared one takes, what follows it is padding, and the sender takes an image of that many blocks |
| XmodemProgress.CleanExchange | src/program/boot/xmodem.c:149-250 | then the undisturbed exchange is possible and ends with the sender done and the receiver successful, the whole image stored |
| XmodemProgress.EndsWell | src/program/boot/xmodem.c:149-250 | so does the undisturbed rest of every exchange that has not lost its way, with a damaged block, a refusal or a lost message to make good |
| XmodemProgress.FaultBorne | src/program/boot/xmodem.c:149-250 | a loss while the Python sender waits, or damage, leaves an exchange in that state as long as both ends have attempts left |
| XmodemProgress.OneFaultAnywhere | src/program/tools/xmodem_send.py:50-112 | at any point of the undisturbed exchange a loss, such as that of the acknowledgement of any block, or a damaged block is made good and the transfer succeeds |
| XmodemProgress.BenchLosesForGood | src/sim/bench.cpp:198-240 | once something sent or answered is lost to the simulator's sender, which has no timeout, no run brings the transfer to its end |
| XmodemProgress.GivesUpAtLast | src/program/boot/xmodem.c:164-248 | the receiver asks again after each of fifteen failures in a row and gives up at the sixteenth |
| XmodemProgress.StopsAtLast | src/program/tools/xmodem_send.py:50-77 | a sender repeats the same block until its attempts are used up, and then stops |
| XmodemProgress.StrayBytesIgnored | src/sim/bench.cpp:198-240 | the simulator's sender takes no notice of the bytes the loader prints |
| XmodemCode.BenchSender.OnTxByte | src/sim/bench.cpp:198-240 | the simulator's sender moves as the protocol says and puts exactly the protocol's frames on the line |
| XmodemCode.WaitForRequest | src/program/tools/xmodem_send.py:41-47 | the wait for the request succeeds exactly if the request is among the bytes read in time, and the sender then moves as the protocol says |
| XmodemCode.SendBlock | src/program/tools/xmodem_send.py:50-77 | the bytes written are one and the same frame once for every response read, at most the allowed number of times, and are those the protocol puts on the line; success exactly at an acknowledgement |
| XmodemCode.SendEnd | src/program/tools/xmodem_send.py:95-112 | the same of the end mark: the bytes written are that many end marks |
| XmodemCode.SendImage | src/program/tools/xmodem_send.py:80-112 | whatever the responses, the Python sender ends as the protocol does and has written exactly the bytes of the protocol's messages |
| XmodemReceiver.BootReceiver.ReceiveBlock | src/program/boot/xmodem.c:72-103 | an undamaged frame gives its number and data, a damaged one the code of its damage, a gap in the input its code |
| XmodemReceiver.BootReceiver.Round | src/program/boot/xmodem.c:164-248 | one turn of the loop reacts to what the input announces as the protocol says, byte for byte of output; an end mark ends it, with success and ACK exactly if what is stored is complete, and with CAN CAN otherwise |
| XmodemReceiver.BootReceiver.LoadBootImage | src/program/boot/xmodem.c:149-250 | if the frames of an image that can be loaded and an end mark come in, it ends with success; and on success, whatever came in: as many blocks as the image takes were stored, the rest was padding, the size reported is the payload's and memory holds exactly it; otherwise too nothing lies outside the window |
| FatVolume.ScanExact | src/program/boot/fatboot.c:90-101 | the scan of a directory sector finds the first entry with the name that is no long-name entry |
| FatVolume.ScanMeetsSpecification | src/program/boot/fatboot.c:90-101 | a scan that stops at the first free entry finds what the code finds, if and only if no entry of the file comes after a free one with none before; where it stops earlier, and where not, it is the same |
| FatVolume.StaleEntryFound | src/program/boot/fatboot.c:90-101 | a sector with a stale entry behind a free one: the code finds the file, the specified scan the end |
| FatVolume.FirstListedFound | src/program/boot/fatboot.c:79-112 | the search comes to the first sector in the directory's chain that lists the file with clusters, however many clusters that takes |
| FatVolume.SearchMeetsSpecification | src/program/boot/fatboot.c:79-112 | over whole chains of clusters: the specified search finds nothing where the end of the directory is met first and otherwise what the code finds; where the code finds a file the two agree if and only if the end is not met before it |
| FatVolume.FoundIsListed | src/program/boot/fatboot.c:79-112 | what the search finds is listed in a sector of the card |
| FatVolume.MoreSteps | src/program/boot/fatboot.c:85-112 | a search that ended comes to the same whatever further steps are allowed |
| FatVolume.BootFileExactly | src/program/boot/fatboot.c:23-27 | which directory entries are taken for the boot file: the eleven characters, and no part of a long name |
| FatVolume.MountCodes | src/program/boot/fatboot.c:55-80 | what the two codes of a failed mount mean |
| FatVolume.ClustersTile | src/program/boot/fatboot.c:86-90 | cluster 2 begins the data area, and the sectors of each cluster and the clusters follow one another without gaps |
| FatVolume.SectorsApart | src/program/boot/fatboot.c:86-90 | no two sectors of clusters have the same number |
| FatDisk.MountsAny | src/program/boot/fatboot.c:55-80 | of any formatted card, with or without a partition table, with any number of reserved sectors, tables and sectors a cluster: the table and the data area are found where they lie |
| FatDisk.ClusterRead | src/program/boot/fatboot.c:86-90 | sector s of cluster c is read from where it was laid |
| FatDisk.ContentRead | src/program/boot/fatboot.c:117-166 | the bytes of a chain of clusters are read in its order |
| FatDisk.FoundAny | src/program/boot/fatboot.c:79-112 | the file the root directory's chain lists first is found, wherever that is |
| FatDisk.LoadsAny | src/program/boot/fatboot.c:46-166 | of every such card: the loader comes to the file, boots it if and only if it is a boot image, and leaves its payload in memory |
| FatDisk.LoadFrom | src/program/boot/fatboot.c:46-166 | the same of the program itself |
| FatBoot.FatLoader.CopyPayload | src/program/boot/fatboot.c:29-44 | the word loop and the byte loop together write exactly the bytes of the source from the destination on |
| FatBoot.FatLoader.SearchRoot | src/program/boot/fatboot.c:81-115 | the nested loops over clusters, sectors and entries compute the search |
| FatBoot.FatLoader.MountVolume | src/program/boot/fatboot.c:55-80 | the fields of the boot sector, of the card or of its first partition, with 32-bit sums |
| FatBoot.FatLoader.LoadFile | src/program/boot/fatboot.c:117-166 | the data loop ends on every card, also where the chain is a circle; it returns 0 exactly if the header is good, the size right and every sector there and readable, and then memory is bytes 12 to the file size of the chain's clusters and nothing else was written |
| FatBoot.FatLoader.Load | src/program/boot/fatboot.c:46-166 | the whole loader, and what each error code means |
| FatBoot.ContentDecides | src/program/boot/fatboot.c:117-166 | for any file in a chain of clusters: the conditions of a return of 0 hold if and only if its bytes are a boot image, and memory then holds its payload |
| FatBoot.OneCode | src/program/boot/fatboot.c:114-166 | no two return codes fit the same card |
| SdImage.SizeTable | src/program/tools/make_sd_image.py:20-27 | the sizing loop ends with a table that covers every cluster; its body is never run |
| SdImage.SmallestExactly | src/program/tools/make_sd_image.py:23-27 | the table is the smallest that does if and only if the image has at most 6 MiB |
| SdImage.DefaultNotSmallest | src/program/tools/make_sd_image.py:23-27 | at the default size 254 sectors would do where 256 are used |
| SdImage.TableLongEnough | src/program/tools/make_sd_image.py:50-58 | the test of the table's length never fails where the test of the volume does not |
| SdImage.FillTable | src/program/tools/make_sd_image.py:59-62 | the loop over the clusters enters the chain and leaves every other byte |
| SdImage.MakeImage | src/program/tools/make_sd_image.py:11-72 | an image is made exactly for sizes and files that fit, and then every one of its bytes is the one the layout gives it |
| SdRoundTrip.RoundTrip | src/program/tools/make_sd_image.py:20-72 | of every image made: it is recognised and mounted, the file is found, the loader's conditions hold if and only if the file is a boot image, and what memory then holds is its payload |
| SdRoundTrip.ImageConforms | src/program/tools/make_sd_image.py:27-72 | signature, size, media byte, both chains ended where they should be, free entries behind, and a search by the specification finds the file as well |
| SdRoundTrip.MakeAndLoad | src/program/boot/fatboot.c:46-166 | the two programs one after the other: for every file and size accepted, the loader returns 0 exactly for a boot image, with its payload at the destination |
| Uart.UartRxStim.Tick | src/sim/bench.cpp:73-88 | one tick takes the line one step along the waveform of the bits enqueued |
| Uart.UartTxMonitor.Tick | src/sim/bench.cpp:105-148 | one tick of the monitor as the sampling function says |
| Uart.FrameSeen | src/sim/bench.cpp:105-148 | whatever the line does, a frame once begun ends with the monitor idle again, and reports the byte sampled exactly if the stop sample is high |
| Uart.InStep | src/sim/bench.cpp:49-148 | at the start of every frame the monitor is idle and has reported exactly the bytes before: its error does not carry over |
| Uart.RoundTrip | src/sim/bench.cpp:49-148 | for every byte sequence the monitor reports exactly the bytes enqueued if the stimulus takes one cycle a bit more than it, or as many and at least 21 |
| Uart.TightBound | src/sim/bench.cpp:49-148 | of all pairs of periods the program can set, those are exactly the ones for which that holds of every byte sequence |
| Uart.Periods | src/sim/bench.cpp:55-61 | for every 32-bit clock and baud rate: rounding and truncating give equal periods or the stimulus one more, unless the 32-bit sum wraps |
| Uart.ReliableRates | src/sim/bench.cpp:49-148 | every byte sequence comes back if and only if the sum of clock and half the baud rate does not wrap and the quotient is at least 21 or rounded up |
| Uart.LoopBack | src/sim/bench.cpp:49-148 | the two objects set to any clock and baud rate and wired together report what the wave of the bytes gives, and for those periods the bytes |

## Left out

- The multicore branches, mutexes and priority inheritance, queue sets, notifications,
  co-routines, tickless idle, statistics, tracing and static allocation, which this
  configuration compiles out.
- Context save and restore, stack set-up and the heap; a yield is a request to the port.
- Peripheral drivers, the shell, printing and `raystones.c`.
- The width of list, message and pended-tick counts: they are unbounded numbers here. The tick
  count, the overflow count, timer values, sector numbers and image sizes are 32 bits wide.
- SchedulerMachine.TicksConserved: `xPendedTicks` is a 32-bit count (tasks.c:506), so it speaks of
  suspensions during which fewer than 2^32 ticks arrive.
- That the idle task never blocks and is never suspended, deleted or given another priority is
  a condition of the runs, as it is of the kernel; so is that a task already deleted is not
  suspended or deleted again, outside `CountedSuspend` and `CountedDelete`.
- SchedulerMachine.BlocksUntil: waits of no ticks are modelled, and end with the next tick, but
  one begun at the very last tick before the wrap is excluded from the runs, because the list
  swap's assertion would not hold for it (`ZeroWaitAtLastTick`); no wait of the timer daemon is
  one (`ProcessTimerOrBlockTask`: waits of no ticks only at tick 0).
- SchedulerCode.KernelState.AddNewTaskToReadyList: the very first task, created while there is no
  current one, is where the runs begin; the test for a yield after the critical section is
  taken together with it.
- SchedulerCode.KernelState.TaskSuspend: a task that suspends itself before the scheduler runs, where
  the original selects another at once (tasks.c:3272-3294), is not modelled.
- SchedulerCode.KernelState.TaskDelete: nor is one that deletes itself then, which is freed at once.
- Timers.TimerService.Run: a change of the reload mode of a timer that runs is not modelled; samples
  are less than 2^32 ticks apart and commands less than 2^32 ticks old; no command is about a
  timer deleted before it is received, whose memory has been freed.
- Timers.TimerService.ProcessReceivedCommands: the same three conditions on the queue's contents.
- Calls that functions be run by the daemon, which this configuration compiles out.
- XmodemReceiver.BootReceiver.LoadBootImage: does not claim that the loop ends, since timeouts
  after the first block are not counted; the number of turns is an argument.
- XmodemProtocol.AlwaysInStep: the channel carries whole frames, loses or damages them, and a
  damaged frame is consumed whole; byte-level loss of synchronisation inside a frame, replies
  changed into other replies, and bytes that arrive while nothing is on its way are not modelled.
- XmodemCode.BenchSender.OnTxByte: the option that damages one block on purpose is a damaged
  frame of the channel.
- FatBoot.FatLoader.SearchRoot: a chain of directory clusters may be a circle, on which the
  original does not end; the number of clusters searched is an argument.
- SdImage.MakeImage: writing the image out as hexadecimal words is not modelled.
