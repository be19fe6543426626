# Verification of the Switch runtime layer

This project models the guest-facing runtime of WiiCompiled-Switch and proves its
properties with Dafny 4.11: the re-implemented OS scheduler and mutexes over guest
memory, the fibers that give guest threads host stacks, the folded guest memory, and
the smaller algorithms beside them. `dafny verify dfyconfig.toml` checks everything.

## How it is laid out

Where the source rewrites guest words or host variables in place, the project has two
layers. A specification describes an operation on values (queue contents, tables,
register files); its properties are lemmas. A class with the source's fields and loops
is proved to do to the words what the specification says, so every lemma holds of it.

| component | specification and properties | words and loops |
|---|---|---|
| scheduler | `Scheduler`, `Relinking`, `SelectLoop`, `SelectThread`, `RoundRobin`, `QueueMoves`, `SchedulerSteps`, `SchedulerRuns`, `PriorityInheritance`, `ResumeEffects`, `SleepEffects` | `IntrusiveList`, `ThreadQueues`, `Kernel` |
| mutexes, interrupts | `Mutexes` | `Mutexes.MutexWords`, `Interrupts` |
| fibers, first start of a thread | `Fibers`, `FiberRuns`, `FiberEffects`, `ThreadStart` | `FiberTable`, `ThreadContexts` |
| scheduler and fibers together | `Hosting`, `StrayRun` | |
| guest memory | `GuestFlat`, `GuestMemory`, `BigEndian` | `GuestRam` |
| dispatch, NAND paths, callbacks | `IndirectDispatch`, `NandPath`, `CallbackPump`, `CallbackFibers` | the first three |
| video interface | `Vi` | `ViBridge` |
| store conversion | `StoreSingle` | |
| shard normaliser | `Normalizer`, `NormalizerLine`, `NormalizerPatterns`, `NormalizerBodies` | `NormalizerPass` |

`Guest`, `Cpu` and `Wrappers` hold the shared vocabulary: addresses are integers with 0 for null, an
unwritten word reads 0, and a mask word is its 32 bits in PowerPC order.

The scheduler invariant, `Scheduler.Inv`, says: every queue holds distinct threads whose
queue word names it, so queues are disjoint; run queue p holds priority-p threads with
suspend count 0 that are READY or have died since; wait queues are sorted and hold
WAITING threads; a queue with threads has its mask bit set (`PendingExact` adds the
converse, and runs keep both); at most one thread is RUNNING, it is the running context,
not suspended and in no queue. The boundaries where the port stops on purpose are the
outcome `Stopped` (or `Boundary`), about which nothing is claimed.

## Where the code does less than one would expect

Each of these is proved as an exact condition.

- SelectThread can resume a dead thread: its loop leaves the last purged thread in
  `nextThread`. This happens exactly when threads are queued and all are dead
  (`SelectThread.DeadThreadRunsIff`, `SchedulerRuns.DeadThreadRuns`).
- OSCreateThread does not look whether its record is still linked; it keeps the
  invariant exactly when it is not (`SchedulerSteps.CreateKeepsIff`).
- A recursion count of 2^32 wraps to 0 and only then breaks the mutex bookkeeping
  (`Mutexes.LockKeepsIff`).
- OSResumeThread puts the old suspend count in r3 and then restores the interrupts, which
  overwrites r3 with 0 (os_resume_thread_hle_bridge.cpp:258-263 and 44-45,
  ppc_runtime_helpers_bridge.cpp:199-206): the caller gets the count exactly when it was 0
  (`Kernel.Threads.ResumeThread`; for a new thread `SchedulerSteps.CreatedResumeReturns`).
- OSCreateThread empties its record's list of held mutexes; the bookkeeping survives
  exactly when the list was empty (`Mutexes.ClearHeldKeepsIff`).
- A fiber created for the current thread loses its prepared registers to the next
  switch_to, and only such a fiber does (`ThreadStart.FirstEntryIff`).
- For a chosen thread without a fiber SelectThread runs OSLoadContext on the stack in use
  and does not tell the fiber layer (os_select_thread_hle_bridge.cpp:303-307). Scheduler
  and fibers stay in step exactly when the layer then has no current thread or the chosen
  one (`Hosting.StepSoundIff`). After any other such load, a sleep can end with two
  RUNNING threads and lost registers (`StrayRun.SleepAfterStray`, from boot
  `StrayRun.StrayFromBoot`).
- The drain depth of the callback queue belongs to the host thread, so a callback that
  sleeps stops every fiber's pump (`CallbackFibers.PumpDeliversIff`,
  `CallbackFibers.SleepingCallbackStalls`).
- A memory region is found at its physical offsets exactly when it does not cross a
  512 MiB boundary (`GuestFlat.FoldsIff`).
- The two ways of starting a thread differ exactly for the two THP decoder entries
  (`ThreadStart.StartsAgreeIff`).
- The retrace count and the deadline lose the waits made before guest memory was up
  (`Vi.CountsAllWaitsIff`).
- Outside the exponent range of the store conversion almost nothing is a truncation, and
  a NaN with a small payload becomes an infinity (`StoreSingle.TruncatesIff`,
  `StoreSingle.SpecialsStayIff`).

Apart from such loads threads are isolated: over every run without a stray a caller whose
stack is left gets it back as the running thread with its registers
(`Hosting.CallerComesBack`). The fiber layer by itself would also let a thread registered
beside a running one lose its registers (`FiberRuns.AtOnceKeepsRegistersIff`,
`FiberRuns.AtOnceLosesRegisters`); SelectThread registers only while no thread is current
(os_select_thread_hle_bridge.cpp:288-291) and so never does that.

## Model

| member | source | states |
|---|---|---|
| SelectLoop.RequeueKeeps | source/os_select_thread_hle_bridge.cpp:197-207 | requeueing the running thread at the tail of its level keeps the scheduler invariant, an exact mask exact, and leaves nobody RUNNING |
| SelectLoop.ScanKeeps | source/os_select_thread_hle_bridge.cpp:238-259 | the selection loop keeps the scheduler invariant whatever it purges |
| SelectLoop.ScanFindsFirstLive | source/os_select_thread_hle_bridge.cpp:238-259 | the loop walks q0 to q31 in order, takes out exactly the dead threads in front and stops at the first live one, which then heads its own level |
| SelectLoop.ScanEmpties | source/os_select_thread_hle_bridge.cpp:238-259 | when every queued thread is dead the loop leaves all 32 queues empty |
| SelectLoop.DispatchKeeps | source/os_select_thread_hle_bridge.cpp:266-279 | popping the chosen thread and publishing it restores the invariant with that thread the only RUNNING one |
| SelectThread.SelectKeeps | source/os_select_thread_hle_bridge.cpp:140-310 | every SelectThread call that does not stop keeps the invariant (well-formed disjoint queues whose members name them, priority-p READY unsuspended members in queue p, one unqueued RUNNING thread) and an exact pending mask exact |
| SelectThread.SelectFrame | source/os_select_thread_hle_bridge.cpp:140-310 | no call changes priorities, suspend counts or the scheduler switch; running and current context move together, and only on a switch |
| SelectThread.SelectWaitQueues | source/os_select_thread_hle_bridge.cpp:140-310 | no call touches any wait queue |
| SelectThread.SwitchStates | source/os_select_thread_hle_bridge.cpp:204-279 | a switch rewrites at most two thread states, the old runner's and the new one's |
| SelectThread.SelectRunsFirstLive | source/os_select_thread_hle_bridge.cpp:197-279 | the new running thread is the first live thread of q0 to q31 after the old one was requeued, and what stood behind it stays queued in order |
| SelectThread.FlatUrgency | source/os_select_thread_hle_bridge.cpp:239-245 | pick order is order of urgency: no thread later in q0 to q31 is strictly more urgent |
| SelectThread.SelectRunsMostUrgent | source/os_select_thread_hle_bridge.cpp:183-279 | after any completed call, forced or not, with the scheduler on and current equal to running, no live queued thread is strictly more urgent than the running one |
| SelectThread.PendingNonZero | source/os_select_thread_hle_bridge.cpp:225-231 | with an exact mask the idle boundary is reached exactly when no thread is queued |
| SelectThread.SelectOutcome | source/os_select_thread_hle_bridge.cpp:225-279 | the complete outcome of a call that gets past its early exits: idle stop, first live thread, or the last dead one; the threads in front of the choice are all dead |
| SelectThread.SelectExits | source/os_select_thread_hle_bridge.cpp:155-233 | every exit of a call, told from the words it reads: with the scheduler off, no running context or another current one, or an unforced RUNNING thread that no set level precedes, nothing is written; an unmapped or badly placed runner stops; OSSaveContext's second return leaves the runner put back; and what gets past all that and does not stop has the reschedule word cleared |
| SelectThread.RequeuePutsBack | source/os_select_thread_hle_bridge.cpp:197-207 | putting the runner back writes just its state, its queue word, the tail of its level, that level's bit and the reschedule word |
| SelectThread.DeadThreadRunsIff | source/os_select_thread_hle_bridge.cpp:238-273 | SelectThread makes a dead thread RUNNING exactly when threads are queued and all of them are dead |
| SelectThread.SelectConserves | source/os_select_thread_hle_bridge.cpp:85-116 | the multiset of the running and the queued threads is the same before and after, minus exactly the purged threads, all of them dead |
| RoundRobin.LevelOfFlat | source/os_select_thread_hle_bridge.cpp:239-245 | the pick order determines every run queue: queue p is its priority-p part |
| RoundRobin.ForcedTurn | source/os_select_thread_hle_bridge.cpp:197-279 | one forced call turns the cycle of live threads at the most urgent level by one place |
| RoundRobin.ForcedRoundRobin | source/os_select_thread_hle_bridge.cpp:197-279 | after k forced calls the k-th thread in cyclic order runs and the queue is the matching rotation, for every k |
| QueueMoves.SortedInsertStable | source/os_sleep_thread_hle_bridge.cpp:43-80 | the sorted insert puts a thread behind everyone at least as urgent and before everyone else, the others keeping their order, and the queue stays sorted |
| QueueMoves.SortedInsertAppends | source/os_resume_thread_hle_bridge.cpp:125-169 | on a queue of equal priorities the sorted insert is a tail append, so the resume and select bridges agree on run queues |
| QueueMoves.WithoutInserted | source/os_sleep_thread_hle_bridge.cpp:82-100 | taking an inserted thread out again gives the original queue |
| QueueMoves.InsertWaiterKeeps | source/os_sleep_thread_hle_bridge.cpp:43-80 | inserting the sleeping thread into a wait queue keeps the invariant |
| QueueMoves.RemoveWaiterKeeps | source/os_resume_thread_hle_bridge.cpp:76-101 | taking a waiting thread out of its queue keeps the invariant and leaves the thread in no queue |
| QueueMoves.InsertReadyKeeps | source/os_resume_thread_hle_bridge.cpp:226-238 | a thread made runnable joins the tail of its level, the level is pending and the invariant holds |
| SchedulerSteps.SuspendedReadyUnlinked | source/os_resume_thread_hle_bridge.cpp:226-238 | a suspended READY thread is in no queue, so resuming it never links it twice |
| SchedulerSteps.ResumeKeeps | source/os_resume_thread_hle_bridge.cpp:173-264 | OSResumeThread keeps the invariant and an exact mask exact on every path that does not stop, the SelectThread call included |
| SchedulerSteps.CreatedResumeReturns | source/os_resume_thread_hle_bridge.cpp:190-263 | a created thread has suspend count 1, and resuming it returns normally when the caller stays the better choice: the input on which the returned 0 is not the old count |
| ResumeEffects.CountDecides | source/os_resume_thread_hle_bridge.cpp:177-199 | a resume of count 1 alone does more than count down: null returns, unmapped stops, and any other count is decremented, not below 0, with nothing else written |
| ResumeEffects.ResumeCounts | source/os_resume_thread_hle_bridge.cpp:190-199 | on every path that does not stop, SelectThread included, the thread's count is one less, clamped at 0, and every other count unchanged |
| ResumeEffects.ExecCounts | source/os_resume_thread_hle_bridge.cpp:190-199 | of all calls of the program only a resume counts down, only a creation sets a count, to 1, and nothing else changes one |
| ResumeEffects.ReadyJoins | source/os_resume_thread_hle_bridge.cpp:226-256 | the last resume of a READY thread appends it to the run queue of its effective priority, marks the level, requests a reschedule and goes on to SelectThread, or stops when that priority is none; nothing else is written |
| ResumeEffects.WaiterRepriced | source/os_resume_thread_hle_bridge.cpp:204-225 | the last resume of a WAITING thread puts it back at its sorted place with its effective priority and enters SelectThread exactly if a reschedule is asked for; it stops when the thread waits for a mutex or that priority is none |
| ResumeEffects.OthersOnlyCount | source/os_resume_thread_hle_bridge.cpp:239-256 | the last resume of a RUNNING thread stops, and of one in any other state changes only its count before SelectThread |
| ResumeEffects.StaysRunnable | source/os_select_thread_hle_bridge.cpp:140-310 | a READY queued thread is not lost by any SelectThread call that does not stop: it is still queued at its priority's level, or it is the running one |
| ResumeEffects.ResumedAtLast | source/os_resume_thread_hle_bridge.cpp:190-256 | of n resumes of a READY thread with count n the first n - 1 return and leave it in no queue, and the n-th stops or leaves it queued at its effective priority or running |
| SchedulerSteps.SleepKeeps | source/os_sleep_thread_hle_bridge.cpp:104-192 | OSSleepThread keeps the invariant and an exact mask exact on every path that does not stop, up to the hand-over or, without one, to its end; its tail on a stack that comes back after a hand-over is Hosting.StepSoundIff |
| SchedulerSteps.SleepUndoes | source/os_sleep_thread_hle_bridge.cpp:160-184 | when SelectThread returns without switching, the wait queue, every queue word and every state are what they were, the caller RUNNING in no queue; only the reschedule request stays |
| SchedulerSteps.SleepQueuesUp | source/os_sleep_thread_hle_bridge.cpp:160-176 | while the caller sleeps its wait queue is the old one with the caller at its sorted place, and its queue word names it |
| SleepEffects.SleepExits | source/os_sleep_thread_hle_bridge.cpp:104-184 | every outcome of a call, told from the words it reads: what returns untouched, what only publishes the default thread, what takes the caller back with every other word as it was and a reschedule requested, and else a stop exactly with nobody ready, or a hand-over to a ready thread with the caller asleep at its sorted place and the reschedule word cleared |
| SchedulerSteps.CreateKeepsIff | source/os_create_thread_hle_bridge.cpp:132-145 | OSCreateThread keeps the invariant exactly when the record it is given is in no queue and nobody else waits on its join queue |
| SleepEffects.CreateEffects | source/os_create_thread_hle_bridge.cpp:118-145 | a refused creation writes nothing; an accepted one makes the thread READY with count 1, its priority, no awaited mutex, nothing held and an empty join queue, lists it last, and leaves every other thread and queue |
| SleepEffects.CreatedRunsAtPriority | source/os_create_thread_hle_bridge.cpp:132-145 | one resume after its creation at priority pr a thread is queued at level pr or running, or the resume stopped |
| SchedulerRuns.BootIsSafe | source/os_select_thread_hle_bridge.cpp:14-21 | the zero-filled scheduler data satisfy the invariant |
| SchedulerRuns.RunKeepsInvariant | source/os_select_thread_hle_bridge.cpp:140-310 | every run of the four bridges, each hand-over final, with wait queues set up, threads dying, the current context, the scheduler switch and the mutex words rewritten in between, keeps the invariant and the exact agreement of mask bits and run queues up to where it stops |
| SchedulerRuns.RunsFromBootAreSafe | source/os_select_thread_hle_bridge.cpp:46-116 | at every moment of every such run from boot at most one thread is RUNNING, it is the running context and in no queue, no thread is in two queues, and bit 31-p is set iff queue p has threads; Hosting.StraightRunsAreSafe carries this over to the program's runs |
| SchedulerRuns.FreeWordsKeep | source/os_select_thread_hle_bridge.cpp:160-171 | the invariant survives any change of the current context, the scheduler switch, the held lists and the awaited mutexes |
| SchedulerRuns.DeadThreadRuns | source/os_select_thread_hle_bridge.cpp:238-273 | a run from boot of five allowed calls (set up a queue, create, resume, mark dead, sleep) that ends in a switch to a MORIBUND thread |
| PriorityInheritance.InheritIsLeast | source/os_resume_thread_hle_bridge.cpp:103-123 | folding wait-queue heads over any mutexes gives the minimum of the bound and all their waiters' priorities |
| PriorityInheritance.EffectiveIsExact | source/os_resume_thread_hle_bridge.cpp:103-123 | in every state of the invariant the effective priority is the minimum of the base priority and the priorities of all waiters, not just heads, on all held mutexes |
| IntrusiveList.LinkLists | source/os_select_thread_hle_bridge.cpp:46-64 | a tail append on one list of a family that shares link words spells out the longer list and leaves every other list alone |
| IntrusiveList.InsertLists | source/os_sleep_thread_hle_bridge.cpp:71-79 | linking in front of the node at any position gives the list with the node inserted there, every other list alone |
| IntrusiveList.UnlinkLists | source/os_resume_thread_hle_bridge.cpp:82-96 | unlinking a node at any position, head, tail or middle, gives the list without it, every other list alone |
| IntrusiveList.PopLists | source/os_select_thread_hle_bridge.cpp:74-83 | popping the head gives the rest of the list; the word read tells whether it was the last |
| IntrusiveList.FreeNode | source/os_resume_thread_hle_bridge.cpp:96-98 | the link words of a node on no list may be cleared freely |
| ThreadQueues.QueueWords.Append | source/os_select_thread_hle_bridge.cpp:46-64 | the words of the queue spell out the old contents followed by the thread |
| ThreadQueues.QueueWords.LinkBefore | source/os_sleep_thread_hle_bridge.cpp:71-79 | the words spell out the contents with the thread in front of the given position |
| ThreadQueues.QueueWords.InsertByPriority | source/os_resume_thread_hle_bridge.cpp:125-159 | the search loop and the link produce the stable sorted insertion |
| ThreadQueues.QueueWords.Unlink | source/os_resume_thread_hle_bridge.cpp:82-97 | the words spell out the contents without the thread, whose own links are cleared |
| ThreadQueues.QueueWords.PopHead | source/os_select_thread_hle_bridge.cpp:74-83 | the words spell out the contents without the head, also for a purged thread on an emptied queue |
| ThreadQueues.QueueWords.Clear | source/os_create_thread_hle_bridge.cpp:142-143 | zeroing a queue's two words makes it empty and harms no other queue |
| Kernel.Threads.constructor | source/os_select_thread_hle_bridge.cpp:14-21 | zero-filled words are the boot state |
| Kernel.Threads.LinkThreadOnRunQueue | source/os_select_thread_hle_bridge.cpp:46-64 | appends to the level's queue and names it in the thread, or stops on a bad priority |
| Kernel.Threads.RemoveThreadFromQueue | source/os_select_thread_hle_bridge.cpp:85-116 | takes the thread out of the queue it names and clears the mask bit of a run queue that becomes empty, exactly as specified on contents |
| Kernel.Threads.FindNextThread | source/os_select_thread_hle_bridge.cpp:238-259 | the while loop over the mask word terminates and ends in the specified scan result |
| Kernel.Threads.HandOver | source/os_select_thread_hle_bridge.cpp:266-279 | pop, mask, queue word, state and context globals together are the specified dispatch |
| Kernel.Threads.RequeueRunning | source/os_select_thread_hle_bridge.cpp:197-207 | the running thread becomes READY at the tail of its level; the invariant holds |
| Kernel.Threads.SwitchToBest | source/os_select_thread_hle_bridge.cpp:225-279 | the part from the idle test on meets its specification |
| Kernel.Threads.SelectThread | source/os_select_thread_hle_bridge.cpp:140-310 | the word-level bridge returns, switches or stops exactly as specified, in the specified state, with valid words |
| Kernel.Threads.ComputeThreadEffectivePriority | source/os_resume_thread_hle_bridge.cpp:103-123 | the walk over the held-mutex list terminates and computes the effective priority |
| Kernel.Threads.InsertAndMarkPending | source/os_resume_thread_hle_bridge.cpp:125-169 | sorted insertion, and the mask bit when the queue is a run queue |
| Kernel.Threads.RepriceWaiter | source/os_resume_thread_hle_bridge.cpp:204-225 | a waiting thread is re-priced and put back at its sorted place, or stops as specified |
| Kernel.Threads.MakeRunnable | source/os_resume_thread_hle_bridge.cpp:226-239 | a suspended READY thread joins its run queue with its effective priority and a reschedule is requested |
| Kernel.Threads.UnsuspendThread | source/os_resume_thread_hle_bridge.cpp:201-246 | the four state branches at suspend count 0 |
| Kernel.Threads.ResumeThread | source/os_resume_thread_hle_bridge.cpp:173-264 | the bridge meets its specification and leaves interrupts as found, or off across a switch; on return r3 is always 0, because restoring the interrupts overwrites it, so the caller gets the old suspend count exactly when that was 0 |
| Kernel.Threads.InsertIntoQueue | source/os_sleep_thread_hle_bridge.cpp:43-80 | sorted insertion without a mask update |
| Kernel.Threads.ParkRunning | source/os_sleep_thread_hle_bridge.cpp:160-171 | the caller is WAITING at its sorted place in the queue; the invariant holds |
| Kernel.Threads.UnparkThread | source/os_sleep_thread_hle_bridge.cpp:82-100 | the parked caller is out of the queue and RUNNING |
| Kernel.Threads.AdoptDefault | source/os_sleep_thread_hle_bridge.cpp:126-141 | the default thread is published when nothing runs |
| Kernel.Threads.ParkAndSelect | source/os_sleep_thread_hle_bridge.cpp:160-184 | parking, SelectThread and, when it comes back without a hand-over, the tail meet their specification |
| Kernel.Threads.TakeBack | source/os_sleep_thread_hle_bridge.cpp:178-184 | the tail, run whenever SelectThread comes back on its stack: a caller still parked is out of the queue and RUNNING, else nothing changes |
| Kernel.Threads.SleepThread | source/os_sleep_thread_hle_bridge.cpp:104-192 | the bridge meets its specification and leaves interrupts as found, or off across a switch |
| Kernel.Threads.LinkGlobally | source/os_create_thread_hle_bridge.cpp:192-202 | a thread not yet listed is appended to the global doubly linked thread list |
| Kernel.Threads.InitializeThread | source/os_create_thread_hle_bridge.cpp:132-145 | state, priorities, suspend count, join queue and held list of a new thread, every other queue and list alone |
| Kernel.Threads.CreateThread | source/os_create_thread_hle_bridge.cpp:109-220 | the bridge meets its specification, keeps the global list well formed for a new thread and the interrupt flag as found |
| Interrupts.InterruptState.Disable | source/ppc_runtime_helpers_bridge.cpp:183-189 | interrupts are off and the previous flag is returned |
| Interrupts.InterruptState.Restore | source/ppc_runtime_helpers_bridge.cpp:199-206 | the flag and the mode bit are what the caller asks for, and r3 becomes the flag before the call |
| Mutexes.LockKeepsIff | include/switch_mutex_hle_traits.hpp:139-181 | a lock keeps owner, count and held lists consistent exactly unless the recursion count wraps at 2^32 |
| Mutexes.UnlockKeeps | include/switch_mutex_hle_traits.hpp:193-266 | an unlock keeps them consistent, and the zero-count stop cannot happen |
| Mutexes.LockStopsIff | include/switch_mutex_hle_traits.hpp:139-181 | a lock stops exactly when another thread owns the mutex; else the caller owns it and its count is one more |
| Mutexes.UnlockStopsIff | include/switch_mutex_hle_traits.hpp:193-266 | an unlock stops exactly when it is the owner's last and somebody waits or the owner is boosted; else the owner's count is one less, the mutex free at 0, and nobody else's unlock does anything |
| Mutexes.StepOrder | include/switch_mutex_hle_traits.hpp:61-127 | one call keeps every held list in acquisition order, also under non-LIFO unlock |
| Mutexes.RunKeepsHeldLists | include/switch_mutex_hle_traits.hpp:139-266 | over every run of locks and unlocks by any threads, up to where it stops: a mutex is on a thread's list iff that thread owns it iff its count is positive, the count is locks minus unlocks, and the lists are in acquisition order |
| Mutexes.ShortRunsNeverWrap | include/switch_mutex_hle_traits.hpp:166-173 | no count can wrap in fewer than 2^32 calls |
| Mutexes.ShortRunsFromBoot | include/switch_mutex_hle_traits.hpp:139-266 | from zero-filled words, after any fewer than 2^32 locks and unlocks by any threads, up to the first call that stops by LockStopsIff or UnlockStopsIff: on t's list iff owned by t, owned iff counted, count equal to locks minus unlocks, lists in acquisition order |
| Mutexes.LocksUndone | include/switch_mutex_hle_traits.hpp:139-266 | n locks and n unlocks of a free mutex by one unboosted thread without waiters, n below 2^32, all return, count n in the middle, and put back every owner, count and held list |
| Mutexes.ClearHeldKeepsIff | source/os_create_thread_hle_bridge.cpp:144-145 | emptying a thread's held list, as OSCreateThread does without looking, keeps the bookkeeping exactly when the list was empty |
| Mutexes.MutexWords.Link | include/switch_mutex_hle_traits.hpp:61-89 | the held-list words of every thread spell out its list, the mutex appended to one |
| Mutexes.MutexWords.Unlink | include/switch_mutex_hle_traits.hpp:91-127 | the same with the mutex taken out at any position |
| Mutexes.MutexWords.ClearHeld | source/os_create_thread_hle_bridge.cpp:144-145 | a new thread holds nothing; other held lists are untouched |
| Mutexes.MutexWords.LockMutex | include/switch_mutex_hle_traits.hpp:139-181 | the word-level lock is the specified one and leaves the interrupt flag as it was; the current context's mode bit then agrees with it |
| Mutexes.MutexWords.UnlockMutex | include/switch_mutex_hle_traits.hpp:193-266 | the same for unlock |
| Fibers.CreateKeeps | source/switch_guest_fiber.cpp:126-168 | create keeps the fiber invariant: one record per thread, no record naming a freed stack, suspended activations and their records in agreement |
| Fibers.RegisterKeeps | source/switch_guest_fiber.cpp:179-200 | register_current keeps it |
| Fibers.SwitchKeeps | source/switch_guest_fiber.cpp:214-261 | switch_to keeps it, never enters a freed stack, never finds a fiber entry without a record, and fails only before changing anything |
| Fibers.TakeOver | source/switch_guest_fiber.cpp:237-260 | the stack switched to gets its own caller's context through either restore branch; a first entry gets its record's registers |
| Fibers.RunKeeps | source/switch_guest_fiber.cpp:126-261 | every run of fiber calls and guest computation keeps the invariant |
| Fibers.RunsFromBootAreSafe | source/switch_guest_fiber.cpp:48-72 | from boot on every guest thread has at most one non-empty record and every record's stack is still there |
| Fibers.ContextComesBack | source/switch_guest_fiber.cpp:214-261 | a host stack that leaves in switch_to and is resumed after any run of creates, registrations, switches and computation gets back exactly the CpuContext it had at the call |
| FiberEffects.CreateSucceedsIff | source/switch_guest_fiber.cpp:126-168 | create succeeds exactly for a thread and an entry that are not null when there is a record or room for one and a host stack can be had |
| FiberEffects.RegisterSucceedsIff | source/switch_guest_fiber.cpp:179-200 | register_current succeeds exactly on the scheduler's stack for a thread that is not null and has its record there, or none and room for one |
| FiberEffects.SwitchGoesIff | source/switch_guest_fiber.cpp:214-221 | switch_to goes through exactly for a thread with a record |
| FiberEffects.SetStateEffect | source/switch_guest_fiber.cpp:202-212 | suspend and resume set the state of that one fiber |
| FiberEffects.SwitchEffect | source/switch_guest_fiber.cpp:214-255 | the fiber switched to is Running, every other state stays |
| FiberEffects.CreateEffect | source/switch_guest_fiber.cpp:126-168 | a creation leaves the fiber Waiting on a fresh stack and frees just its old one |
| FiberEffects.FailedCreateEffect | source/switch_guest_fiber.cpp:145-155 | without a host stack the thread is left without a record, its old stack freed, every other fiber alone |
| FiberRuns.RunOwns | source/switch_guest_fiber.cpp:126-261 | over every run under its caller's guards, a record of the stack in use names the fiber layer's current thread and a record of any other stack the thread that stack goes on as |
| FiberRuns.SwitchesAreOwn | source/switch_guest_fiber.cpp:214-261 | after any such run from boot a switch_to that returns at once was for the layer's current thread and leaves the registers alone, and every other one lands on a stack that goes on as the thread asked for |
| FiberRuns.ThreadComesBack | source/switch_guest_fiber.cpp:214-261 | and a stack that leaves in switch_to and is resumed goes on as what was the layer's current thread, with the registers it left with |
| Hosting.ExecChose | source/os_select_thread_hle_bridge.cpp:266-279 | a hand-over leaves the chosen thread RUNNING and in OSRunningContext; without one OSRunningContext stays, or is set for the first time |
| Hosting.LandSound | source/os_select_thread_hle_bridge.cpp:286-307 | when the fiber layer has no current thread or the caller as its current one: switch_to returns at once only for the caller itself, registers untouched; otherwise the new stack goes on as the chosen thread with its own registers, the old one suspended as the caller or as nobody; a thread without a fiber changes nothing but the registers |
| Hosting.TailsIdle | source/os_sleep_thread_hle_bridge.cpp:178-184 | then no tail of OSSleepThread takes its caller back after a hand-over, neither on a stack left at once nor on one resumed later |
| Hosting.StepSoundIff | source/os_select_thread_hle_bridge.cpp:286-307 | from a sound state every bridge call does to the scheduler words what its specification says, and the state stays sound if and only if the call does not stray: does not load a thread without a fiber while the fiber layer's current thread is another |
| Hosting.StraightRuns | source/os_select_thread_hle_bridge.cpp:140-310 | over every run of scheduler calls, fibers and guest code in which no call strays, the scheduler words are the specified ones throughout |
| Hosting.StraightRunsAreSafe | source/os_select_thread_hle_bridge.cpp:140-310 | so from boot at most one thread is RUNNING, every thread is queued once, and the fiber layer's current thread is none or the running one |
| Hosting.CallerComesBack | source/switch_guest_fiber.cpp:214-261 | isolation over such runs: when the host stack a call left is in use again, the caller is the running thread again for scheduler and fibers, with the registers of the call |
| Hosting.OtherFiberLeaves | source/os_select_thread_hle_bridge.cpp:286-301 | a hand-over to another thread that has a fiber never returns at once |
| Hosting.CallerKeepsStack | source/os_select_thread_hle_bridge.cpp:286-301 | a hand-over that changes stacks goes to the stack of the chosen thread's record, and a caller without a record gets one for the stack it leaves |
| Hosting.BeforeMarks | source/os_sleep_thread_hle_bridge.cpp:164-171 | before SelectThread a sleep marks its caller's fiber Waiting, a last resume a READY thread's Ready, and nothing else is marked |
| Hosting.TakenBackMarks | source/os_sleep_thread_hle_bridge.cpp:178-184 | a caller taken back without a hand-over has its fiber Ready |
| StrayRun.TakenBackTwice | source/os_sleep_thread_hle_bridge.cpp:178-184 | taking a parked caller back after a hand-over to another thread always leaves two threads RUNNING |
| StrayRun.SleepAfterStray | source/os_select_thread_hle_bridge.cpp:303-307 | after a stray, a sleep that picks the thread whose stack it is on returns at once, runs its tail, and ends with two RUNNING threads and the sleeper's registers in the other one's fiber |
| StrayRun.StrayFromBoot | source/os_select_thread_hle_bridge.cpp:303-307 | a run of seven allowed calls from boot that does this, for every register contents: only its sixth call strays, loading a thread whose fiber could not be had |
| FiberRuns.AtOnceKeepsRegistersIff | source/switch_guest_fiber.cpp:233-235 | outside those guards: a switch_to that returns at once gives every caller its own registers exactly when it asks for the current thread |
| FiberRuns.AtOnceLosesRegisters | source/switch_guest_fiber.cpp:179-200 | misuse of the layer, which the program's only caller of register_current rules out: a second thread registered while the first is current, and a switch back that returns with the first one's registers |
| FiberTable.Table.constructor | source/switch_guest_fiber.cpp:43-46 | 64 empty records, no scheduler adopted |
| FiberTable.Table.FindRecord | source/switch_guest_fiber.cpp:48-58 | the search loop finds the first record in use |
| FiberTable.Table.AllocateRecord | source/switch_guest_fiber.cpp:60-72 | the thread's own record, or the first empty one, cleared |
| FiberTable.Table.CreateFiber | source/switch_guest_fiber.cpp:126-168 | the in-place create is the specified one |
| FiberTable.Table.RegisterCurrent | source/switch_guest_fiber.cpp:179-200 | the in-place registration is the specified one |
| FiberTable.Table.SetFiberState | source/switch_guest_fiber.cpp:202-212 | suspend and resume change one record's state |
| FiberTable.Table.ResumeStack | source/switch_guest_fiber.cpp:79-97 | the destination stack's first steps are the specified ones |
| FiberTable.Table.SwitchFiber | source/switch_guest_fiber.cpp:214-261 | the in-place switch is the specified one, and leaves everything alone when it fails |
| ThreadStart.StartsAgreeIff | source/os_load_context_hle_bridge.cpp:49-73 | OSLoadContext of a created context and the fiber's first entry yield the same r1-r31, LR, CR, XER, GQRs, SRR0 and PC exactly when the entry is not a THP decoder |
| ThreadStart.StartRegisters | source/os_create_thread_hle_bridge.cpp:74-175 | by whichever way it starts a created thread finds its entry, argument and stack, the creator's small-data bases, the exit trampoline to return to and clean registers; the fiber also clean floating-point registers and the creator's HID2 or the default |
| ThreadStart.EntryTakes | source/switch_guest_fiber.cpp:79-99 | a first entry takes stack, bases and return address from the guest context, argument and entry from the record, and leaves all else |
| ThreadStart.LoadTakes | source/os_load_context_hle_bridge.cpp:41-73 | OSLoadContext takes every register of the context but GQR0, continues at SRR0, leaves the registers a context lacks, and stops exactly on a null SRR0 |
| ThreadStart.FirstEntryIff | source/switch_guest_fiber.cpp:79-99 | a created fiber is first entered with exactly the registers create saved and its guest context's seed, whatever all threads do in between, if and only if it was not created for the current thread, whose next switch_to saves over them |
| ThreadStart.StepLeavesWaiting | source/switch_guest_fiber.cpp:126-261 | no call for another thread disturbs a fiber that has not been entered |
| ThreadContexts.OSContext.Initialize | source/os_create_thread_hle_bridge.cpp:74-105 | which registers the new context holds |
| ThreadContexts.OSContext.Create | source/os_create_thread_hle_bridge.cpp:150-177 | the context OSCreateThread leaves, THP presets and scheduler bits included |
| ThreadContexts.OSContext.Load | source/os_load_context_hle_bridge.cpp:41-73 | the register loops restore the specified register file, or stop on a null SRR0; the exception bit is cleared |
| GuestFlat.AddRegionRealises | source/horizon_guest_flat.cpp:199-231 | adding a region keeps the layout exact: distinct section keys, page-rounded sizes, every region inside its section |
| GuestFlat.BuildIsExact | source/horizon_guest_flat.cpp:181-231 | initialization succeeds exactly on at most 32 requests inside the guest space whose MEM2 bases lie in a window's upper half, and then realises exactly those requests; the section limit never stops it |
| GuestFlat.FoldsIff | source/horizon_guest_flat.cpp:53-71 | all of a MEM1 or MEM2 region lies at its folded physical offset exactly when the region does not run over a 512 MiB boundary |
| GuestMemory.InitExact | source/memory_switch_slice.cpp:82-118 | Memory::Init succeeds exactly when there are at most 32 regions and each non-empty one fits, overlapping or not |
| GuestMemory.PointerAccepts | source/memory_switch_slice.cpp:136-155 | exactly the non-empty accesses that lie inside one configured region are accepted |
| GuestMemory.ClassifyIs | source/memory_switch_slice.cpp:32-49 | which region bases share MEM1 and MEM2, as address ranges |
| GuestMemory.PointerAgrees | source/memory_switch_slice.cpp:136-155 | every access GetPointer accepts lies inside its section's allocation and agrees byte for byte with host_pointer |
| GuestMemory.PointerFolds | source/memory_switch_slice.cpp:136-155 | every MEM1 or MEM2 access resolves to its folded physical offset |
| GuestMemory.AliasIff | source/horizon_guest_flat.cpp:53-71 | two MEM1 or MEM2 addresses are the same byte exactly when they belong to the same backing and fold to the same offset |
| GuestMemory.OwnedAlone | source/horizon_guest_flat.cpp:73-103 | an address of a region with an allocation of its own shares its byte with no other address |
| GuestMemory.WiiDefaultsReady | source/memory_switch_slice.cpp:66-80 | the console's seven regions are disjoint, stay in their windows and initialize |
| GuestMemory.WiiAliases | source/memory_switch_slice.cpp:66-80 | on the console's map a byte below the locked cache is accepted exactly in the six RAM windows, and two of them alias exactly when their low 29 bits agree |
| BigEndian.StoredSwapped | source/memory_switch_slice.cpp:198-211 | storing the swapped host integer lays the value down big-endian, for every width |
| BigEndian.LoadedSwapped | source/memory_switch_slice.cpp:176-192 | loading a host integer and swapping it reads the bytes big-endian |
| BigEndian.BigAt | source/memory_switch_slice.cpp:198-211 | byte i from the left of a value has the weight of the bytes right of it |
| BigEndian.BigRoundTrip | source/memory_switch_slice.cpp:172-211 | reading big-endian bytes gives the value written |
| GuestRam.ReadAfterWrite | source/memory_switch_slice.cpp:172-211 | after a write, a read of any width through any address sees byte by byte the big-endian value where the two overlap and the old memory elsewhere; the same bytes read back as the value |
| GuestRam.AccessIsPhysical | source/memory_switch_slice.cpp:136-155 | an access of any width through any alias is the access at the folded physical offset, in bounds |
| GuestRam.Ram.FindOrCreateSection | source/horizon_guest_flat.cpp:83-103 | the search loop finds the section of a key or appends one, up to the limit |
| GuestRam.Ram.AddRequest | source/horizon_guest_flat.cpp:199-231 | one turn of the request loop |
| GuestRam.Ram.Initialize | source/horizon_guest_flat.cpp:181-231 | the request loop builds the specified layout or fails with it |
| GuestRam.Ram.FindHost | source/horizon_guest_flat.cpp:276-297 | the search loop is host_pointer |
| GuestRam.Ram.AllocateViews | source/horizon_guest_flat.cpp:254-261 | one separate zeroed buffer of the right size per section |
| GuestRam.Ram.Bind | source/memory_switch_slice.cpp:103-115 | every configured region is bound to the host view of its base, or the binding stops |
| GuestRam.Ram.InitMemory | source/memory_switch_slice.cpp:82-118 | the whole initialization succeeds exactly as specified, with separate zeroed buffers of the right sizes |
| GuestRam.Ram.GetPointer | source/memory_switch_slice.cpp:136-155 | the search loop is the specified pointer |
| GuestRam.Ram.Read | source/memory_switch_slice.cpp:172-192 | the value is the big-endian integer at the resolved bytes; an unmapped access is refused |
| GuestRam.Ram.Write | source/memory_switch_slice.cpp:194-211 | exactly the resolved bytes become the big-endian value, every other byte of every buffer is unchanged |
| IndirectDispatch.OnePerAddress | source/switch_indirect_dispatch.cpp:31-38 | a generated table has at most one record per address |
| IndirectDispatch.IndexCuts | source/switch_indirect_dispatch.cpp:21-26 | the index cuts an address into 256 segments of 4096 pages of 4096 bytes |
| IndirectDispatch.Find | source/switch_indirect_dispatch.cpp:15-56 | the page index and binary search keep every index in bounds, return only records with the address, and on a generated table are linear search |
| IndirectDispatch.Processor.Call | source/switch_indirect_dispatch.cpp:58-129 | a dispatch preserves exactly the masked f14-f31 and, when flagged, r14-r31, for an arbitrary callee; every other register is the callee's |
| IndirectDispatch.Processor.RestoreFprs | source/switch_indirect_dispatch.cpp:71-80 | the restore loop puts back exactly the masked registers |
| IndirectDispatch.Processor.RestoreGprs | source/switch_indirect_dispatch.cpp:98-105 | the restore loop puts back r14-r31 |
| IndirectDispatch.Processor.TryDispatch | source/switch_indirect_dispatch.cpp:116-131 | whatever the table, runs only a record with the address and a non-null entry and then preserves the registers that record asks for; on a generated table runs iff there is one |
| NandPath.ResolveIsSurvivors | source/switch_nand_open_runtime.cpp:85-98 | the component stack computes the names that no later ".." takes back, clamped at the root |
| NandPath.CanonicalForm | source/switch_nand_open_runtime.cpp:74-105 | for every non-empty path the result is "/" or "/c1/.../cn" with no empty, ".", ".." or separator inside a name |
| NandPath.RelativeBelowData | source/switch_nand_open_runtime.cpp:74-98 | a path that begins with a separator means the same whatever the data directory; any other is resolved component by component from the data directory's own names |
| NandPath.RenderedParts | source/switch_nand_open_runtime.cpp:74-105 | a canonical path's names are read back as they are |
| NandPath.CanonicalIsIdempotent | source/switch_nand_open_runtime.cpp:74-105 | normalising twice changes nothing more |
| NandPath.HostPathOfCanonical | source/switch_nand_open_runtime.cpp:107-122 | HostPath splits a canonical path into exactly its names below the NAND root |
| NandPath.Normalize | source/switch_nand_open_runtime.cpp:74-105 | the character loop computes the canonical form of every path |
| NandPath.RenderLoop | source/switch_nand_open_runtime.cpp:100-104 | the join loop |
| NandPath.HostPath | source/switch_nand_open_runtime.cpp:107-122 | the cursor loop yields the non-empty components in order |
| NandPath.FindSlash | source/switch_nand_open_runtime.cpp:111-112 | the next slash, or the end |
| CallbackPump.DeliverKeepsOrder | source/switch_nand_callback_runtime.cpp:43-59 | one delivery keeps: delivered callbacks followed by pending ones are everything queued, in order |
| CallbackPump.PumpDelivers | source/switch_nand_callback_runtime.cpp:37-61 | one pump delivers in order, at most its budget, stops short only on an empty queue, and hands every callback its result in r3, its block in r4 and the caller's registers for the rest |
| CallbackPump.AcceptedIs | source/switch_nand_callback_runtime.cpp:24-35 | of what callbacks ask to queue exactly the non-null ones are accepted, in order |
| CallbackPump.RunDelivers | source/switch_nand_callback_runtime.cpp:24-61 | over every run of queueing and pumping, whatever the callbacks do, the delivered callbacks are the first ones queued, each exactly once |
| CallbackPump.PumpsDrain | source/switch_nand_callback_runtime.cpp:43-59 | when callbacks stop queueing, k pumps deliver the next 64 k |
| CallbackPump.Queues.QueueCallback | source/switch_nand_callback_runtime.cpp:24-35 | a non-null callback joins the queue, a null one does not |
| CallbackPump.Queues.PumpCallbacks | source/switch_nand_callback_runtime.cpp:37-61 | the outer pump is the specified one; a nested one delivers nothing; the drain depth is restored |
| CallbackPump.Queues.RunGuest | source/switch_nand_callback_runtime.cpp:54-58 | callbacks that queue and re-enter the pump only append what they queue |
| CallbackFibers.RunKeeps | source/switch_nand_callback_runtime.cpp:20-61 | when fibers queue, pump and return from callbacks in any interleaving, delivery is still first in first out and exactly once, and the depth counts the unfinished pumps, at most one |
| CallbackFibers.PumpDeliversIff | source/switch_nand_callback_runtime.cpp:37-50 | a pump delivers if and only if something is pending and no fiber, the caller or another, is inside a callback |
| CallbackFibers.SleepingCallbackStalls | source/switch_nand_callback_runtime.cpp:37-42 | while one fiber's callback sleeps nothing is delivered, whatever all other fibers do |
| CallbackFibers.UndisturbedPump | source/switch_nand_callback_runtime.cpp:43-60 | a pump none of whose callbacks sleeps is the one-fiber pump |
| Vi.PendingTellsTrace | source/vi_init_hle_bridge.cpp:128-166 | over every run the arm flag says whether a flush came since the last retrace, and the pending values are those of the last VISetBlack and the last VIConfigure that found guest memory up |
| Vi.CommitTellsTrace | source/vi_init_hle_bridge.cpp:200-209 | over every run active format, blanking and framebuffer are what VIConfigure, VISetBlack and the first recovering VIFlush had made pending by the last retrace that found the flush armed, told from the calls alone |
| Vi.FramebufferTellsTrace | source/vi_init_hle_bridge.cpp:143-223 | over every run, told from the calls alone: the pending framebuffer is the one found by the first VIFlush with memory up, the interface started and a non-zero guest global, and the guest's globals hold the published framebuffers and geometry |
| Vi.GuestCountTellsTrace | source/vi_init_hle_bridge.cpp:211-218 | over every run the guest sees the count of the last retrace that found memory up |
| Vi.DecodedIs | source/vi_configure_hle_bridge.cpp:66-77 | the format is bits 2 to 4 of the mode word, and a zero width or height falls back to the frame buffer's |
| Vi.CountTellsTrace | source/vi_init_hle_bridge.cpp:92-126 | over every run the retrace count is the number of waits since the start, or of all waits before it, modulo 2^32, and the field flag its parity |
| Vi.DeadlineTellsTrace | source/vi_init_hle_bridge.cpp:52-56 | over every run the latest deadline is the start plus 20 ms for each retrace since at the PAL format and 16.666 ms for each other, so lateness never accumulates |
| Vi.FramebufferSticks | source/vi_init_hle_bridge.cpp:150-159 | once a framebuffer is pending it is never replaced |
| Vi.CountsAllWaitsIff | source/vi_init_hle_bridge.cpp:97-125 | the count is the number of all waits exactly when nothing started yet or the waits before the start are a multiple of 2^32; the deadline is the start plus all intervals exactly when there were none |
| ViBridge.Registers.ViFlush | source/vi_init_hle_bridge.cpp:143-166 | arms, and recovers a missing framebuffer from the guest globals |
| ViBridge.Registers.AdvanceRetrace | source/vi_init_hle_bridge.cpp:200-223 | one retrace as specified, on the deadline computed for it |
| ViBridge.Registers.ViWaitForRetrace | source/vi_init_hle_bridge.cpp:180-223 | one retrace as specified; never returns before the deadline, and sleeps no longer, by its own second look at the clock |
| StoreSingle.NarrowedIs | include/ppc_isa_memory.h:61-66 | in the denormal range the fraction is the whole significand shifted right, and fits |
| StoreSingle.StoreUndoesWidening | include/ppc_isa_memory.h:57-70 | the conversion is a left inverse of exact widening for every single: zeros, denormals, infinities, NaN payloads |
| StoreSingle.EveryWidens | include/ppc_isa_memory.h:57-70 | every single has an exact widening |
| StoreSingle.TruncatesIff | include/ppc_isa_memory.h:57-70 | the stored single is the double truncated toward zero, less than one unit in its last place off, exactly for biased exponents 874 to 1150 and for those below that are stored as zero |
| StoreSingle.SpecialsStayIff | include/ppc_isa_memory.h:68-69 | infinities stay; a NaN stays one exactly when its payload reaches the 23 high bits |
| NormalizerLine.SubIdempotent | scripts/normalize-gcc-statefree-returns.py:99 | substituting twice is substituting once, and the second time nothing matches, for every class of word characters a boundary may mean |
| NormalizerPatterns.SubWeaves | scripts/normalize-gcc-statefree-returns.py:99 | the substitution puts the typed return in the place of as many bare returns as it counts and leaves everything between them |
| NormalizerPatterns.BareNoneIff | scripts/normalize-gcc-statefree-returns.py:25 | nothing is replaced exactly if no bare return stands anywhere at a word boundary |
| NormalizerPatterns.BareReturnIff | scripts/normalize-gcc-statefree-returns.py:25 | a bare return is the word, spaces or none, a brace |
| NormalizerPatterns.FuncStartIff | scripts/normalize-gcc-statefree-returns.py:24 | a head is the type name, spaces, a C name, spaces or none, a parenthesis |
| NormalizerPatterns.HasFuncStartIff | scripts/normalize-gcc-statefree-returns.py:24 | the search finds a head exactly if one stands anywhere at a word boundary |
| NormalizerPatterns.PlainCounts | scripts/normalize-gcc-statefree-returns.py:28-67 | the brace count is additive over plain code |
| NormalizerPatterns.LiteralCountsNot | scripts/normalize-gcc-statefree-returns.py:40-58 | a string or character literal, escapes included, counts nothing |
| NormalizerPatterns.CommentCountsNot | scripts/normalize-gcc-statefree-returns.py:56-57 | a comment counts nothing, to the end of the line |
| NormalizerLine.SubKeepsDelta | scripts/normalize-gcc-statefree-returns.py:28-67 | a rewritten line has the same brace count, from whatever lexical state |
| NormalizerLine.SubKeepsSearch | scripts/normalize-gcc-statefree-returns.py:81 | a rewritten line starts a function iff the original did |
| NormalizerLine.SubKeepsChar | scripts/normalize-gcc-statefree-returns.py:86-90 | the prototype and body tests of a line are unchanged |
| NormalizerLine.SubKeepsLine | scripts/normalize-gcc-statefree-returns.py:72 | a rewritten line is still one line |
| NormalizerPass.LinesOfJoin | scripts/normalize-gcc-statefree-returns.py:72 | lines that splitting could have produced are found again in their join |
| NormalizerPass.StepAgain | scripts/normalize-gcc-statefree-returns.py:80-107 | a second pass walks the same pending, active and depth states |
| NormalizerPass.NormalizeIsIdempotent | scripts/normalize-gcc-statefree-returns.py:70-107 | normalising is idempotent on every text, Unicode word boundaries included, and the second pass replaces nothing |
| NormalizerBodies.StateTells | scripts/normalize-gcc-statefree-returns.py:70-107 | the loop's three variables say whether a body is open, how many of its braces are, and whether a head awaits its brace, as the lines alone tell it |
| NormalizerBodies.BodiesRewritten | scripts/normalize-gcc-statefree-returns.py:70-109 | exactly the lines of bodies of MkwStateFreeResult2 functions, told from heads, braces and semicolons, are rewritten, after which no bare return is left in them; every other line stays; the count is that of the bare returns in those bodies |
| NormalizerPass.BraceDelta | scripts/normalize-gcc-statefree-returns.py:28-67 | the loop with its three flags counts the braces outside strings, characters and comments |
| NormalizerPass.NormalizeLine | scripts/normalize-gcc-statefree-returns.py:80-107 | the body of the line loop |
| NormalizerPass.NormalizeLines | scripts/normalize-gcc-statefree-returns.py:80-109 | the line loop rewrites and counts as specified |

## Left out

- OSSaveContext, the scheduler's switch callback and the retrace callbacks are translated
  code: the first is the parameter `save` (what it leaves in r3), the others are taken to
  leave the modelled state alone.
- A context is published by SelectThread just before it calls switch_to; the fiber model
  takes the guest globals to say so when the other stack wakes up. Module Fibers also allows
  them to be unreadable; in the program such a read stops.
- What OSLoadContext reads from guest memory when a thread runs without a fiber is a
  parameter of the joint machine, and so are success and failure of a host stack creation.
- Host handles are never reused in the fiber model; an allocator may hand a freed address
  out again.
- Thread, mutex and queue records are taken not to overlap in guest memory: words are kept
  per field. The stack-guard word of OSCreateThread is taken to lie outside the record.
- The mapped-memory tests of the OS bridges are one set of mapped records; the video
  globals are mapped whenever guest memory is initialized.
- ViBridge.Registers.ViWaitForRetrace: stops at the published retrace; waking the retrace
  queue and calling the pre- and post-retrace callbacks are not modelled.
- VIInit's flag, guard and callback words, VIConfigure's origins and a VIConfigure whose mode
  object cannot be read (which changes nothing) are not modelled.
- A suspend count of -2^31, whose decrement overflows, is not modelled.
- Kernel.Threads.SleepThread: asks that the caller can be parked (its queue is a known
  wait queue and the caller is in no queue and not suspended), which holds of every
  RUNNING thread.
- Kernel.Threads.CreateThread: the global list is claimed well formed only for a thread
  that is not on it yet; the code does not look.
- GuestFlat.BuildIsExact: the address-window reservation and the heap are taken to grant
  every request, and region sizes near 2^64, where base plus size wraps, are not modelled.
- ThreadStart.StartsAgreeIff: says nothing about r0, CTR, SRR1, HID2 and the
  floating-point registers, which the two starts take from different places.
- Normalizer: which characters are word characters to a boundary is a parameter, of which
  the proofs use only that ASCII letters, digits and the underscore are and spaces and
  braces are not.
- Fibers: CpuContext is the part of the register file the bridges name; the pointer to the
  active CpuContext is always the one shared context.
- Device services, console and report output, file operations of the NAND runtime,
  crash diagnostics and the applet life cycle are I/O.
- Contended mutexes, wakeup, suspend, thread exit and idle polling stop in the code and
  are not modelled beyond the stop.
- Message queues, constant-return bridges and boot constants would only add easy members.
- Atomics are plain variables: one host thread runs all guest scheduling.
