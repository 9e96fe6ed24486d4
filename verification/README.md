# Verification model of the f1c100s HAL: scheduler, IPC, heap, TWI, context switch, flash, MMU

A Dafny model of the stateful core of the `f1c100s` hardware abstraction layer, with proofs of
what it promises. `dafny verify dfyconfig.toml` checks everything.

## What is modelled

- **Scheduler** (`src/thread.rs`). `SchedulerSpec` gives every operation as a function on the
  scheduler's state, panics included (`Outcome.Panic`); `Scheduler` is the code: a class over the
  thread table, the ready bitmap and the round-robin cursors, each method proved equal to its function.
  `SchedulerInvariant` and `SchedulerRuns` prove what every operation and every run keep,
  `SchedulerFairness` who runs next and for how long; `SchedulerHazards` states exactly when
  `thread_delete`, `thread_suspend`, `thread_resume` and `thread_exit` break it.
- **Blocking** (`Kernel`). A blocking IPC call is two atomic steps, register-and-block and
  resume-and-inspect; ticks, other threads, other objects and interrupts come in between. The
  kernel holds the scheduler, one waiter mask for each object and one phase (outside, waiting,
  granted, timed out) for each thread, and is the shared ground of all the objects.
- **IPC objects** (`Semaphore`, `Mutex`, `EventFlags`, `MsgQueue`, `Signal`). Each is a class whose
  methods are the atomic sections of the source, proved equal to functions, together with a system
  in which its actions interleave with everything else the kernel allows. `MsgQueueSpec` is the byte
  ring; `MsgQueueRuns` and `SignalRuns` hold the runs of those two.
- **Heap** (`src/allocator.rs`). `HeapSpec` sees the heap as a row of tiles, free or live;
  `HeapLinks` says how a row is laid out in memory words; `Heap` is the code: pointer-walking loops
  over a word memory, with in-place headers and links.
- **TWI / I2C** (`src/i2c.rs`). `TwiSpec` is the interrupt state machine and a controller that acts,
  answers with a status code and records the bus; `TwiRuns` follows whole transfers; `Twi` is the
  code over channel fields and buffers.
- **Context switch** (`src/asm/context.s`, the IRQ path of `src/asm/startup.s`, `stack_init`).
  `ArmSpec` is a small ARMv5 machine, `Arm` executes the routines instruction by instruction, and
  `SwitchRuns` interleaves cooperative switches, interrupts, computation and new threads. `JointRuns`
  runs scheduler and machine together from `sched_init` on: creating a thread builds its frame, the
  start loads one, and then the scheduler decides, logging each hand-off, and the machine carries it
  out (`ExampleLaunches` is such a beginning).
- **NOR flash** (`src/spi_flash.rs`, `src/spi.rs`). `NorSpec` is a chip that answers byte by byte and
  executes on deselection; `Spi` is the chunked FIFO transfer, any burst of which may stall;
  `SpiFlash` is the driver.
- **Page table** (`src/mmu.rs`). `Mmu`: the two filling loops and the section walk.
- **Examples** (`Examples`, `SchedulerWitnesses`, `ObjectWitnesses`). Concrete systems of an idle
  thread and up to three others, followed from `sched_init` to the states where the code does not do
  what it says.

Conventions. A `u32` used as a bitmap is the set of its bit positions (`Masks.Mask`). Critical
sections and interrupt handlers are atomic steps. A run is a sequence of states and the operations
between them; a theorem about runs holds for every length and every interleaving. Ledgers that only
the theorems need (units lost, lock depth, messages sent, signals sent, hand-offs) are fields of the
system states, not of the objects.

## Main results

1. The scheduler in every run: no legal operation panics, one thread runs, no runnable thread is
   hidden from the bitmap (`SchedulerRuns.RunSafety`).
2. Fewer than 32 picks pass over a thread that stays Ready (`SchedulerRuns.BoundedWaiting`), and no
   more ticks than 32 slices hold are charged at its priority meanwhile
   (`SchedulerFairness.ReadyRunsWithin`); a tick hands over exactly when a slice ends with a rival
   Ready or somebody better is (`SchedulerFairness.TickHandsOverIff`).
3. A timed wait ends at the tick that reaches its deadline and at no earlier one
   (`SchedulerRuns.DeadlineExact`).
4. The wait protocol over any number of objects: one verdict for each wait, from its own object or
   from the tick, and final (`Kernel.KRunSafety`, `Kernel.VerdictIsFinal`,
   `Kernel.VerdictComesFromOwnObject`).
5. Semaphores account for every unit in every run (`Semaphore.RunAccounting`), and a take gets one
   exactly when the account has one left (`Semaphore.TakeSucceedsIff`).
6. Mutexes: whoever holds one is its owner; depth, hand-overs and `nest` agree in every run
   (`Mutex.RunSafety`, `Mutex.HolderIsOwner`); a lock succeeds at once exactly when nobody else has a
   claim (`Mutex.LockSucceedsIff`).
7. Event flags: one `set` wakes exactly the waiters a closed form names, and no thread ever sleeps on a
   condition that holds (`EventFlags.SetWakesChosen`, `EventFlags.ChosenIff`, `EventFlags.RunSafety`,
   and flag by flag `EventFlags.SleepersLackFlags`); over any run from the wake-up to the return, the
   wait returns the flags that caused the wake-up if and only if none of them is cleared and not set
   again, by the same pass or by a later action, and no other flag it asked for is set and left set
   (`EventFlags.WokenWaitReturnsCauseIff`).
8. Message queues with one sender and one receiver: first in, first out, nothing lost, no panic, never
   both asleep (`MsgQueueRuns.RunSafety`).
9. Signals: nothing sent is lost, nobody sleeps on a deliverable one (`SignalRuns.RunSafety`); a wait
   returns the least one it waits for (`SignalRuns.WaitLeaveDelivers`).
10. The heap in every run: exact tiling, bytes conserved, grants disjoint (`HeapSpec.RunSafety`); the
    words the code writes lay out exactly that heap (`HeapLinks.AllocWritesCarve`,
    `HeapLinks.FreeWritesRelease`); an allocation takes less than 24 bytes more than it was asked for
    (`HeapSpec.AllocTakesLittle`).
11. TWI: `Ok` means that the whole transfer was on the bus if and only if no status 0x00 was posted
    (`TwiRuns.OkMeansFullTransferIff`), and then event by event the register address, every data byte
    and nothing else (`TwiRuns.OkIsOnTheBus`).
12. Context switch: every suspended thread resumes with its registers as saved, over any interleaving
    of switches and interrupts (`SwitchRuns.ResumedAsSaved`); a new one begins at its entry point with
    its parameter in r0 (`SwitchRuns.NewThreadStarts`, `JointRuns.FirstThreadBegins`); in every run
    from `sched_init` on the machine runs the thread the scheduler calls current and holds a context
    for each thread in the table (`JointRuns.MachineRunsCurrentThread`).
13. Flash: `write` is a flat write whatever the chunks, a failed one wrote a prefix, and erased, then
    written data reads back (`SpiFlash.Flash.Write`, `NorSpec.EraseWriteRead`). Below it, whatever
    an earlier stall left in the FIFOs: the bytes accepted go out in order behind those left, what is
    not accepted is exactly the end of a first burst without room, and nothing that comes back is lost
    (`Spi.TransferInOrder`).
14. Page table: translation follows the last covering descriptor, and exactly when
    (`Mmu.TranslatesThroughLast`); every address from start to end of a descriptor is translated at its
    distance exactly when start and physical address are equally aligned (`Mmu.AddressesTranslate`).
15. The deviations of the next section, each with its exact condition and, for the scheduler and the
    IPC objects, a run that meets it.

The remaining rows of the table are the steps towards these, and the refinements: each method of a
class equals its specification function.

## What the code turned out not to do

Each of these is proved, with the exact condition. What is named after a semicolon is a concrete case:
for the scheduler and the IPC objects a run from `sched_init`.

- Deleting or suspending the last Ready peer of the running thread's priority clears the running
  thread's bit; a yield then loses it (`DeleteKeepsInvIff`, `SuspendKeepsInvIff`,
  `DeleteThenYieldLosesThread`; `DeleteLosesThePeer`, `SuspendTakesTheBit`).
- `thread_resume` strands its caller whenever it reschedules (`ResumeKeepsInvIff`;
  `ResumeLeavesTwoRunning`).
- `thread_exit` panics whenever another thread is Ready (`ExitPanicsIff`), and so for every thread but
  the idle one in every reachable state (`ExitAlwaysPanics`; `ExitPanicsAtOnce`).
- A tick before `sched_start` panics if any thread exists (`TickBeforeStart`; `EarlyTickPanics`).
- A wait of zero ticks begun at tick 0 never ends by itself (`DeadlineExact`: deadline 0 means
  none; `ZeroSleepNeverEnds`).
- A `release` that picks a waiter already timed out loses the unit (`ReleaseLosesUnitIff`;
  `TimedTakeLosesUnit`); an `unlock` that does so leaves a thread as owner whose own `lock` returns a
  timeout (`UnlockStraysIff`; `TimedLockStrays`).
- The comment on `release` speaks of the lowest id or the highest priority: it wakes the lowest id,
  and that waiter is a most urgent one if and only if no registered thread has a better priority
  (`ReleaseServesMostUrgentIff`, `UnlockServesMostUrgentIff`; `ReleasePassesOverUrgent`).
- The source says that an event wait returns the flags that caused the wake-up. It returns those that
  are set when its thread is back: other ones if and only if, at a waiter served at its turn or later
  or by any action since, one of them was cleared and not set again, or another flag it asked for was
  set (`WokenWaitReturnsCauseIff`; `SharedFlagIsLost` for a waiter of the same pass,
  `ClearedFlagIsLost` for a later `clear`). While nobody touches its flags, the condition is that no
  such waiter, itself included, clears one of them (`UndisturbedWaitReturnsCauseIff`); a clear-on-exit
  wait thus returns none if and only if none was set again (`WokenClearWaitReturnsNothingIff`).
- With a second receiver a woken one dequeues from an empty queue if and only if there was one message
  only (`SecondReceiverPanicsIff`; `SecondReceiverPanics`); with a second sender a woken one writes
  over the oldest message if and only if there was room for one only (`SecondSenderOverfillsIff`;
  `SecondSenderOverfills`).
- `free_inner` merges with the block behind only: its backward merge is unreachable
  (`Heap.FirstFitHeap.LinkBlock`, `ReleaseCoalescesIff`).
- The pointer `Allocator::alloc` returns is never one `free_inner` can find a header for
  (`AlignedPointerHasNoHeader`).
- TWI status 0x00 ends a transfer with code -0, which `xfer` reports as success; a transfer reported as
  complete is so if and only if none was posted (`OkMeansFullTransferIff`; `ZeroStatusReadsAsSuccess`).
- Bytes a stalled SPI transfer leaves in the FIFOs come first in the next one: those in the RX FIFO are
  returned, those in the TX FIFO are sent, and as many of the new ones stay behind
  (`LeftoversComeFirst`; `StalledByteComesFirst`, `UnsentByteGoesFirst`). So a command after a stall can
  report success although the chip was given the one before it (`LateCommandSucceeds`), and a first
  burst that finds no room loses its end (`Accepted`, in `TransferInOrder`).
- A page program past the end of its page wraps to its start (`ProgramTransaction`,
  `PageWriteIsFlat` for the others).

## Model

| member | source | states |
|---|---|---|
| Masks.Lowest | src/thread.rs:200 | the smallest element of a non-empty bitmap |
| Scheduler.Scheduler.SetReady | src/thread.rs:171-179 | the slot becomes Ready and its priority's bit is set, exactly as specified |
| Scheduler.Scheduler.ClearReadyIfEmpty | src/thread.rs:181-193 | the bit is cleared exactly when no slot at that priority is Ready; the Running thread does not count |
| Scheduler.Scheduler.PickNext | src/thread.rs:196-215 | the 32-slot loop from the cursor finds what the cyclic scan specifies |
| Scheduler.Scheduler.DoSchedule | src/thread.rs:221-289 | new state or panic as specified for both the thread and the interrupt variant, hand-off logged |
| Scheduler.Scheduler.Create | src/thread.rs:317-359 | the lowest free slot gets a Ready thread and its bit; no handle when the table is full |
| Scheduler.Scheduler.Start | src/thread.rs:362-383 | the first dispatch; panics when nothing can be picked |
| Scheduler.Scheduler.Yield | src/thread.rs:391-405 | demotes a Running caller and reschedules, the bitmap untouched |
| Scheduler.Scheduler.Sleep | src/thread.rs:408-422 | the caller sleeps until now plus `ticks` and another thread is dispatched |
| Scheduler.Scheduler.BlockCurrent | src/thread.rs:563-579 | the caller waits with the sentinel as its verdict, timed or not |
| Scheduler.Scheduler.Unblock | src/thread.rs:582-597 | a waiting thread is made Ready with success; any other thread is left alone |
| Scheduler.Scheduler.Tick | src/thread.rs:478-557 | the whole tick: wake-up scan, signals, time slice, preemption |
| Scheduler.Scheduler.WakeExpired | src/thread.rs:485-501 | the scan wakes exactly the slots the specification wakes |
| Scheduler.Scheduler.RearmSignals | src/thread.rs:504-517 | the clear-and-set of deliverable signals |
| Scheduler.Scheduler.TimeSlice | src/thread.rs:520-537 | the slice countdown and the round-robin switch at its end |
| Scheduler.Scheduler.PreemptIfOutranked | src/thread.rs:540-555 | the preemption check, panicking on a missing current thread |
| Scheduler.Scheduler.Delete | src/thread.rs:425-439 | slot emptied, count and bitmap updated as the code does it |
| Scheduler.Scheduler.Suspend | src/thread.rs:442-456 | a Ready or Running thread becomes Blocked |
| Scheduler.Scheduler.Resume | src/thread.rs:459-474 | a suspended thread becomes Ready and the scheduler is entered with the caller still Running |
| Scheduler.Scheduler.Exit | src/thread.rs:621-637 | the current slot is emptied before rescheduling |
| SchedulerInvariant.ScanFindsNearest | src/thread.rs:203-214 | the scan returns the Ready thread of the priority with the smallest cyclic distance, none only if there is none |
| SchedulerInvariant.PickIsNearest | src/thread.rs:196-215 | a pick is a Ready thread of the best backed priority and the nearest after the cursor |
| SchedulerInvariant.DoScheduleKeepsInv | src/thread.rs:221-289 | with the outgoing thread demoted and the bitmap exact, rescheduling never panics and restores the invariant |
| SchedulerInvariant.YieldKeepsInv | src/thread.rs:391-405 | yield keeps the invariant and never panics |
| SchedulerInvariant.SleepKeepsInv | src/thread.rs:408-422 | sleep by a thread other than idle keeps the invariant |
| SchedulerInvariant.BlockKeepsInv | src/thread.rs:563-579 | blocking by a thread other than idle keeps the invariant |
| SchedulerInvariant.CreateKeepsInv | src/thread.rs:317-359 | creation keeps the invariant, table full or not |
| SchedulerInvariant.CreatedThread | src/thread.rs:317-359 | the lowest free slot, if any, holds a Ready thread of the given priority, 31 at most, with a full slice of `tick`, waiting for nothing; no other slot changes |
| SchedulerInvariant.UnblockKeepsInv | src/thread.rs:582-597 | waking keeps the invariant for any thread id |
| SchedulerInvariant.StartKeepsInv | src/thread.rs:362-383 | the start establishes the invariant, and panics exactly when nothing was created |
| SchedulerInvariant.TickKeepsInv | src/thread.rs:478-557 | a tick keeps the invariant, leaves no Ready thread above the Running one, IPC wake-ups since the last tick included, and leaves only deadlines after the new tick count |
| SchedulerInvariant.TickBeforeStart | src/thread.rs:539-546 | before the start a tick panics if and only if some thread exists |
| SchedulerInvariant.RearmIsIdentity | src/thread.rs:507-515 | the tick leaves pending signals as they were |
| SchedulerInvariant.ChainExtends | src/thread.rs:287-288 | every switch leaves from the thread the previous one arrived at |
| SchedulerRuns.StepKeepsGood | src/thread.rs:171-289 | no legal operation panics; one Running thread, current, bits backed or the Running thread's own |
| SchedulerRuns.RunSafety | src/thread.rs:171-597 | **Main.** the same for every state of every run from initialisation; the tick count is at most the length of the run |
| SchedulerRuns.StepSlot | src/thread.rs:408-597 | what any operation may do to any one thread, in one formula |
| SchedulerRuns.StepPasses | src/thread.rs:196-215 | a pick of another thread at the priority strictly shortens the wait of one that stays Ready, and nothing lengthens it |
| SchedulerRuns.BoundedWaiting | src/thread.rs:196-215 | **Main.** over any run fewer than 32 picks at its priority pass a thread that stays Ready |
| SchedulerRuns.DeadlineExact | src/thread.rs:484-501 | **Main.** a wait of `ticks` ends at the tick that reaches its deadline and at no earlier state, unless an IPC wake-up comes first; a zero deadline never fires |
| SchedulerRuns.SuspendedStays | src/thread.rs:442-456 | over any run without `thread_resume` a suspended thread stays Blocked |
| SchedulerFairness.YieldHandsOverIff | src/thread.rs:391-405 | a yield hands over if and only if another thread is Ready at the caller's priority or better |
| SchedulerFairness.SliceEndHandsOverIff | src/thread.rs:520-532 | when its slice ends the running thread gives way if and only if another is Ready at its priority or better; otherwise it goes on with a full slice |
| SchedulerFairness.SliceGoesOnIff | src/thread.rs:533-555 | before that only a strictly better Ready thread takes over; otherwise the same thread goes on with one tick less |
| SchedulerFairness.TickHandsOverIff | src/thread.rs:478-557 | both for the whole tick, the threads it wakes included |
| SchedulerFairness.StepTicks | src/thread.rs:520-537 | no operation but the tick charges a slice, and it charges the running thread's only |
| SchedulerFairness.PeerWaitsOneSlice | src/thread.rs:520-532 | over any run, while a thread runs before a Ready peer the ticks charged come out of one slice and never use it up |
| SchedulerFairness.ReadyRunsWithin | src/thread.rs:196-557 | **Main.** over any run, with slices of `m` ticks at most, no more than 32 * `m` ticks are charged at its priority while a thread stays Ready |
| SchedulerHazards.DeleteKeepsInvIff | src/thread.rs:425-439 | deletion keeps the invariant if and only if the victim is not current and does not take the running thread's bit along |
| SchedulerHazards.SuspendBlocks | src/thread.rs:442-456 | a Ready or Running thread becomes Blocked outside any IPC wait, nobody else changes, and it is not picked |
| SchedulerHazards.ResumeUnblocks | src/thread.rs:459-474 | a suspended thread becomes Ready or Running; for any other slot nothing happens |
| SchedulerHazards.SuspendKeepsInvIff | src/thread.rs:442-456 | the same condition for suspension |
| SchedulerHazards.DeleteThenYieldLosesThread | src/thread.rs:391-403 | after such a deletion a yield leaves the caller Ready with its bit clear |
| SchedulerHazards.ClearedBitIsNeverPicked | src/thread.rs:197-200 | a thread whose priority bit is clear cannot be picked |
| SchedulerHazards.ResumeKeepsInvIff | src/thread.rs:459-474 | resume keeps the invariant if and only if nothing is rescheduled |
| SchedulerHazards.ExitPanicsIff | src/thread.rs:621-632 | exit panics if and only if another thread is Ready to be picked |
| SchedulerWitnesses.DeleteLosesThePeer | src/thread.rs:391-439 | two equal peers: the running one deletes the other, yields, and is Ready but never picked |
| SchedulerWitnesses.SuspendTakesTheBit | src/thread.rs:442-456 | a reachable state where suspending the only peer clears the running thread's bit |
| SchedulerWitnesses.ResumeLeavesTwoRunning | src/thread.rs:459-474 | a reachable state where suspending and resuming a peer breaks the invariant |
| SchedulerWitnesses.ExitAlwaysPanics | src/thread.rs:621-632 | in every reachable started state exit by a thread other than idle panics |
| SchedulerWitnesses.ExitPanicsAtOnce | src/thread.rs:621-632 | the first thread started, with only the idle thread beside it, panics when it exits |
| SchedulerWitnesses.EarlyTickPanics | src/thread.rs:539-546 | after `sched_init` and one creation a tick panics |
| SchedulerWitnesses.ZeroSleepNeverEnds | src/thread.rs:408-501 | the first thread, sleeping zero ticks before the first tick, sleeps at every later state of every run |
| Kernel.StepKeepsKInv | src/thread.rs:563-597 | no legal step of any number of objects panics or breaks the waiter protocol |
| Kernel.OneObjectAtATime | src/ipc/semaphore.rs:45-47 | a thread is registered with at most one object |
| Kernel.KRunSafety | src/thread.rs:563-602 | **Main.** both, in every run over any number of objects |
| Kernel.VerdictIsFinal | src/thread.rs:582-602 | **Main.** between the verdict and the thread's return nothing changes the verdict |
| Kernel.VerdictComesFromOwnObject | src/thread.rs:485-597 | **Main.** only the object's own wake-up grants a wait, only the tick times a timed one out |
| Kernel.LeaverHasVerdict | src/thread.rs:563-602 | a returning thread has exactly one of success and timeout, never the sentinel |
| Kernel.ElsewhereFrame | src/thread.rs:485-501 | everything outside an object can only let its timed waits expire |
| Kernel.UntimedStep | src/thread.rs:569-574 | without timed waits nothing times out |
| Semaphore.Semaphore.TryTake | src/ipc/semaphore.rs:27-33 | takes a unit exactly when one is there |
| Semaphore.Semaphore.TakeEnter | src/ipc/semaphore.rs:37-47 | a unit at once, or registered and blocked |
| Semaphore.Semaphore.TakeLeave | src/ipc/semaphore.rs:50-58 | success, or timeout with the waiter bit cleared |
| Semaphore.Semaphore.Release | src/ipc/semaphore.rs:74-84 | wakes the lowest waiter or counts the unit |
| Semaphore.ActKeepsSemInv | src/ipc/semaphore.rs:27-84 | every action keeps the ledger exact, and no waiter is registered while the count is positive |
| Semaphore.LedgerMoves | src/ipc/semaphore.rs:37-84 | an action moves units between count, granted takes and losses, creating none |
| Semaphore.TakeSucceedsIff | src/ipc/semaphore.rs:27-47 | a take gets a unit at once if and only if initial plus releases exceeds what was taken, granted and lost, and the count is then that difference less one; otherwise `try_take` changes nothing and `take` registers and blocks |
| Semaphore.ReleaseLosesUnitIff | src/ipc/semaphore.rs:74-84 | a release loses its unit if and only if the waiter it picks has timed out but not yet run |
| Semaphore.ReleaseServesMostUrgentIff | src/ipc/semaphore.rs:74-79 | the waiter a release serves is a most urgent one if and only if no registered thread has a better priority than the one with the lowest id |
| Semaphore.RunAccounting | src/ipc/semaphore.rs:27-84 | **Main.** in every run the accounts balance; without timed takes nothing is lost; the count stays at zero or above if it starts there and rises by one an action at most |
| ObjectWitnesses.TimedTakeLosesUnit | src/ipc/semaphore.rs:37-84 | a run where a take of one tick, the tick and a release leave no unit anywhere |
| ObjectWitnesses.ReleasePassesOverUrgent | src/ipc/semaphore.rs:74-79 | a run where a release wakes the waiter of priority 9 and leaves the one of priority 5 asleep |
| Mutex.Mutex.TryLock | src/ipc/mutex.rs:30-46 | acquires a free mutex, deepens an owned one, refuses otherwise |
| Mutex.Mutex.LockEnter | src/ipc/mutex.rs:49-68 | the same, or registered and blocked |
| Mutex.Mutex.LockLeave | src/ipc/mutex.rs:70-79 | success, or timeout with the waiter bit cleared |
| Mutex.Mutex.Unlock | src/ipc/mutex.rs:82-109 | owner only; the last unlock hands over to the lowest waiter or frees the mutex |
| Mutex.ActKeepsMtxInv | src/ipc/mutex.rs:24-109 | for every thread lock depth, granted lock and stray hand-overs add up to what the fields say |
| Mutex.HolderIsOwner | src/ipc/mutex.rs:30-109 | **Main.** a thread with more successful locks than unlocks is the owner, so there is one at most |
| Mutex.LockSucceedsIff | src/ipc/mutex.rs:30-68 | a lock succeeds at once if and only if no other thread has a claim, and adds one to the caller's; otherwise `try_lock` changes nothing and `lock` registers and blocks |
| Mutex.UnlockUndoesLock | src/ipc/mutex.rs:30-109 | a lock followed by an unlock restores mutex and scheduler; an unlock succeeds if and only if the caller has a claim, and changes nothing otherwise |
| Mutex.UnlockStraysIff | src/ipc/mutex.rs:96-101 | a hand-over goes to a thread that reports a timeout if and only if the lowest waiter has timed out but not yet run |
| Mutex.UnlockServesMostUrgentIff | src/ipc/mutex.rs:96-101 | the same for the new owner after the last unlock |
| Mutex.UntimedNestIsDepth | src/ipc/mutex.rs:30-109 | with untimed locks `nest` is the owner's depth, or that of the thread handed to, and nobody else holds anything |
| Mutex.RunSafety | src/ipc/mutex.rs:30-109 | **Main.** the invariant in every run; no stray hand-over without timed locks; `nest` rises by one an action at most |
| ObjectWitnesses.TimedLockStrays | src/ipc/mutex.rs:49-101 | a run where a lock of one tick, the tick and an unlock leave the timed-out thread as owner |
| EventFlags.EventFlags.CheckWaiters | src/ipc/event.rs:123-139 | the mask-consuming loop is the ascending fold |
| EventFlags.EventFlags.Set | src/ipc/event.rs:51-56 | flags added, then one pass over the waiters |
| EventFlags.EventFlags.Clear | src/ipc/event.rs:59-63 | flags removed, nobody woken |
| EventFlags.EventFlags.WaitEnter | src/ipc/event.rs:73-96 | satisfied at once, or registered with its parameters and blocked |
| EventFlags.EventFlags.WaitLeave | src/ipc/event.rs:98-113 | the flags still set out of those asked for, or timeout; parameters dropped |
| EventFlags.CheckWaitersIsChosen | src/ipc/event.rs:123-139 | the pass unregisters and unblocks exactly the chosen waiters and removes exactly the flags their clear-on-exit asks for |
| EventFlags.ChosenIff | src/ipc/event.rs:128-136 | **Main.** who is chosen: the condition holds of the flags the chosen clear-on-exit waiters with smaller ids leave |
| EventFlags.NotChosenIsUnmet | src/ipc/event.rs:132 | whoever is not chosen is unsatisfied when the pass is over |
| EventFlags.SetWakesChosen | src/ipc/event.rs:51-56 | **Main.** in a running system `set` grants exactly the chosen waiters that still sleep and changes nothing else |
| EventFlags.ActKeepsEventInv | src/ipc/event.rs:51-113 | no registered thread ever has its condition met |
| EventFlags.RunSafety | src/ipc/event.rs:51-139 | **Main.** the same in every run |
| EventFlags.MetIff | src/ipc/event.rs:115-121 | OR is met by any of the flags asked for, AND by all of them |
| EventFlags.SleepersLackFlags | src/ipc/event.rs:51-139 | **Main.** in every run a registered OR waiter has none of its flags set, a registered AND waiter lacks at least one |
| EventFlags.SetChoosesIff | src/ipc/event.rs:115-139 | at its turn `set` chooses an OR waiter if and only if some flag it asked for is set, an AND waiter if and only if every one is |
| EventFlags.SatisfiedAtOnceIff | src/ipc/event.rs:73-96 | a wait returns at once if and only if that holds, with exactly the flags it asked for that are set; otherwise it is registered with its arguments |
| EventFlags.VerdictStays | src/ipc/event.rs:95-113 | no other action changes a woken wait's verdict or arguments before its thread returns |
| EventFlags.FlagAt | src/ipc/event.rs:51-113 | over any run a flag is set if and only if the last action that set or cleared it set it |
| EventFlags.ReturnedFlags | src/ipc/event.rs:98-113 | it returns the flags it asked for that are set when its thread is back, or the timeout if it had timed out before the `set` |
| EventFlags.WokenWaitReturnsCauseIff | src/ipc/event.rs:72-139 | **Main.** over any run from the `set` that wakes it to its return, a wait returns the flags that caused the wake-up if and only if it had not timed out, none of them was cleared at its turn or later and not set again, and no other flag it asked for was set since |
| EventFlags.UndisturbedWaitReturnsCauseIff | src/ipc/event.rs:72-139 | while no action touches its flags, it returns the cause if and only if no waiter served at its turn or later clears part of it |
| EventFlags.WokenClearWaitReturnsNothingIff | src/ipc/event.rs:108-109 | a woken clear-on-exit wait returns nothing if and only if none of its flags is set again before it returns |
| ObjectWitnesses.SharedFlagIsLost | src/ipc/event.rs:108-139 | a run where two waiters are woken by one flag and the one that clears nothing returns first, with no flag |
| ObjectWitnesses.ClearedFlagIsLost | src/ipc/event.rs:59-113 | a run where a flag is set and cleared before the thread it woke is back, whose wait returns no flag |
| ObjectWitnesses.AndWaitNeedsBoth | src/ipc/event.rs:51-121 | a run where an AND wait for two flags sleeps on after the first is set and is woken by the second |
| ObjectWitnesses.OrWaitNeedsOne | src/ipc/event.rs:51-121 | a run where an OR wait for two flags is woken by the second alone |
| MsgQueue.MsgQueue.Enqueue | src/ipc/msgqueue.rs:161-168 | the bytes of one slot, the tail and the count |
| MsgQueue.MsgQueue.Dequeue | src/ipc/msgqueue.rs:170-177 | the bytes of one slot, the head and the count; count underflow is a panic |
| MsgQueue.MsgQueue.SendEnter | src/ipc/msgqueue.rs:66-82 | wrong size refused; enqueued and a receiver woken, or registered and blocked |
| MsgQueue.MsgQueue.SendLeave | src/ipc/msgqueue.rs:84-96 | timeout, or enqueued without another look at the count |
| MsgQueue.MsgQueue.RecvEnter | src/ipc/msgqueue.rs:99-115 | wrong size refused; dequeued and a sender woken, or registered and blocked |
| MsgQueue.MsgQueue.RecvLeave | src/ipc/msgqueue.rs:117-128 | timeout, or dequeued without another look at the count |
| MsgQueue.MsgQueue.TrySend | src/ipc/msgqueue.rs:131-141 | never blocks; false when full or wrongly sized |
| MsgQueue.MsgQueue.TryRecv | src/ipc/msgqueue.rs:144-154 | never blocks; false when empty or wrongly sized |
| MsgQueueSpec.EnqueueAppends | src/ipc/msgqueue.rs:161-168 | on a queue that is not full the byte ring holds the old messages and the new one last |
| MsgQueueSpec.DequeueTakesFirst | src/ipc/msgqueue.rs:170-177 | a dequeue yields the oldest message and leaves the others in order |
| MsgQueueSpec.OverfillOverwrites | src/ipc/msgqueue.rs:161-168 | one message too many lands on the oldest one |
| MsgQueueRuns.ActKeepsQInv | src/ipc/msgqueue.rs:66-154 | one sender, one receiver: no action panics, woken threads find what they were woken for, nothing is lost or reordered |
| MsgQueueRuns.QueueGuarantees | src/ipc/msgqueue.rs:79-128 | received is a prefix of sent; never both asleep; a woken receiver finds a message, a woken sender room |
| MsgQueueRuns.SendSaysWhy | src/ipc/msgqueue.rs:66-82 | BadSize if and only if the size is wrong, Sent if and only if it is right and there is room, and then the message is queued last; waiting if and only if the queue is full |
| MsgQueueRuns.SendLeaveSaysWhy | src/ipc/msgqueue.rs:84-96 | a send that waited reports a timeout if and only if its wait timed out, with nothing queued; otherwise its message is queued last |
| MsgQueueRuns.RecvSaysWhy | src/ipc/msgqueue.rs:99-115 | the oldest message if there is one, waiting if and only if there is none |
| MsgQueueRuns.RecvLeaveSaysWhy | src/ipc/msgqueue.rs:117-128 | a receive that waited reports a timeout if and only if its wait timed out, with nothing taken; otherwise it hands out the oldest message |
| MsgQueueRuns.RunSafety | src/ipc/msgqueue.rs:66-154 | **Main.** the same in every run, timeouts and ticks included |
| MsgQueueRuns.SecondReceiverPanicsIff | src/ipc/msgqueue.rs:105-124 | once another thread has received in between, a woken receiver panics if and only if there was one message only |
| MsgQueueRuns.SecondSenderOverfillsIff | src/ipc/msgqueue.rs:84-96 | once another thread has sent in between, a woken sender overfills the ring, over the oldest message, if and only if there was room for one only |
| ObjectWitnesses.SecondReceiverPanics | src/ipc/msgqueue.rs:105-124 | a run whose woken receiver finds the queue empty again |
| ObjectWitnesses.SecondSenderOverfills | src/ipc/msgqueue.rs:79-96 | a run whose woken sender writes a second message into a queue of one |
| Signal.SignalTable.Send | src/ipc/signal.rs:86-128 | the bit becomes pending; a waiter it satisfies is unregistered and woken |
| Signal.SignalTable.SetMask | src/ipc/signal.rs:72-82 | the mask is replaced and the old one returned |
| Signal.SignalTable.Take | src/ipc/signal.rs:138-149 | the lowest deliverable wanted signal is taken out of the pending mask |
| Signal.SignalTable.WaitEnter | src/ipc/signal.rs:133-163 | a signal at once, or registered and blocked |
| Signal.SignalTable.WaitLeave | src/ipc/signal.rs:165-192 | timeout, or a signal taken |
| Signal.SignalTable.Check | src/ipc/signal.rs:196-218 | every deliverable signal is delivered once, in ascending order |
| Signal.AscendingIsSorted | src/ipc/signal.rs:198-217 | that order is strictly ascending and covers exactly the mask |
| Signal.TakesLeast | src/ipc/signal.rs:138-149 | a signal is handed out if and only if one is pending, unmasked and wanted; it is the least of those, and only its bit changes |
| Signal.MaskRestores | src/ipc/signal.rs:72-82 | the mask blocks its signals and no others, and a second call with the returned mask restores everything and returns the first one |
| SignalRuns.StepKeepsSignals | src/thread.rs:503-517 | no scheduler step, tick included, changes a pending or masked signal |
| SignalRuns.WaitLeaveDelivers | src/ipc/signal.rs:173-191 | a woken wait returns the least signal that was pending, unmasked and wanted, so the default 0 is unused; a timed-out one takes none |
| SignalRuns.WaitEnterDelivers | src/ipc/signal.rs:133-163 | a wait returns at once if and only if something it waits for is pending and unmasked, with the least of that; otherwise the caller is registered and blocked |
| SignalRuns.SendSaysWhy | src/ipc/signal.rs:86-128 | a send is refused if and only if the number is 32 or more; otherwise the signal is pending, and a registered target is woken if and only if it is unmasked and waited for |
| SignalRuns.ActKeepsSigInv | src/ipc/signal.rs:86-218 | nothing sent is lost before delivery, and no waiter sleeps on a deliverable signal |
| SignalRuns.RunSafety | src/ipc/signal.rs:86-218 | **Main.** the same in every run |
| HeapSpec.AlignUp | src/allocator.rs:70-72 | the least multiple at or above: a multiple, less than one step away |
| HeapSpec.FirstFitIsLowest | src/allocator.rs:80-101 | null if and only if nothing fits; otherwise the lowest-addressed block that fits |
| HeapSpec.CarveKeepsTiling | src/allocator.rs:81-96 | an allocation leaves the heap exactly tiled and aligned |
| HeapSpec.ReleaseKeepsTiling | src/allocator.rs:114-130 | a free does too |
| HeapSpec.CarveMovesBytes | src/allocator.rs:81-96 | exactly the granted block's bytes leave the free total |
| HeapSpec.CarveIsTight | src/allocator.rs:81-96 | a block with sixteen bytes to spare gives up exactly the bytes asked for and the rest stays free; a smaller one is taken whole |
| HeapSpec.AllocTakesLittle | src/allocator.rs:75-102 | the pointer is four bytes into the block, and the free bytes fall by at least the request and by less than 24 more |
| HeapSpec.FreshHeapSplits | src/allocator.rs:75-102 | two allocations of 24 bytes from 1024 take 24 each and leave 976 |
| HeapSpec.ReleaseMovesBytes | src/allocator.rs:109-130 | exactly the freed block's bytes come back |
| HeapSpec.FreeUndoesAllocIff | src/allocator.rs:75-130 | freeing what was just allocated restores the heap if and only if the block was split or no free one follows it |
| HeapSpec.CarveKeepsCoalesced | src/allocator.rs:83-92 | allocation never creates free neighbours |
| HeapSpec.ReleaseCoalescesIff | src/allocator.rs:126-139 | a free leaves free neighbours if and only if the block in front is free |
| HeapSpec.RunSafety | src/allocator.rs:55-140 | **Main.** over every run: exact tiling, free plus granted bytes constant, grants inside the heap and disjoint, headers included |
| HeapSpec.PaddingNeverWraps | src/allocator.rs:151-152 | for every valid layout no sum wraps 32 bits |
| HeapSpec.AlignedAllocFits | src/allocator.rs:150-166 | null if and only if nothing holds the padded request, and then every free block is smaller than size plus alignment plus 17; the pointer is a multiple of the alignment, the whole request inside a block less than alignment plus 33 bytes larger |
| HeapSpec.AlignedPointerHasNoHeader | src/allocator.rs:109-168 | no pointer handed out by `alloc` has its block's header four bytes below |
| HeapLinks.Relaid | src/allocator.rs:83-130 | replacing blocks keeps headers and links right when the previous free block's link and the new words are |
| HeapLinks.AllocWritesCarve | src/allocator.rs:81-96 | **Main.** the words written lay out the carved heap and touch no live block |
| HeapLinks.FreeWritesRelease | src/allocator.rs:111-130 | **Main.** the words written lay out the released heap and touch no other live block |
| HeapLinks.PayloadStoreIsSafe | src/allocator.rs:36-40 | a store behind a live header leaves the heap in order |
| Heap.FirstFitHeap.InitHeap | src/allocator.rs:55-65 | one block over the region, its start rounded up by less than eight, or nothing if less than 24 bytes remain |
| Heap.FirstFitHeap.TakeBlock | src/allocator.rs:82-95 | the split, the link and the header, word for word |
| Heap.FirstFitHeap.AllocInner | src/allocator.rs:75-102 | the walk returns the specified pointer and heap, no live block changes, and the free bytes fall by the request and less than 24 more |
| Heap.FirstFitHeap.LinkBlock | src/allocator.rs:123-139 | insertion and forward merge; the backward merge is unreachable |
| Heap.FirstFitHeap.FreeInner | src/allocator.rs:105-140 | the address-ordered insertion gives the specified heap, and no other live block changes |
| Heap.FirstFitHeap.FreeBytes | src/allocator.rs:195-207 | the sum is the free bytes, and with the live bytes the whole heap |
| Heap.FirstFitHeap.Alloc | src/allocator.rs:150-166 | null if and only if nothing fits; otherwise aligned, inside one live block, nobody else's words touched |
| TwiRuns.AnyStatusIsSafe | src/i2c.rs:444-583 | whatever the status, at most the current byte of the current message's own buffer changes, at an index below its length |
| TwiRuns.StatusDecides | src/i2c.rs:465-583 | by number, which statuses let a transfer go on, and with which code any other ends it |
| TwiRuns.ControllerReports | src/i2c.rs:465-583 | by number, what the controller reports after each bus action |
| TwiRuns.AddressByteDecodes | src/i2c.rs:230-233 | the address byte carries the seven address bits and the direction |
| TwiRuns.BusIsShort | src/i2c.rs:444-583 | while a transfer runs its bus trace is not complete |
| TwiRuns.StepIsSound | src/i2c.rs:444-583 | an action leaves the transfer running and nearer its end, or ends it; in success with the complete trace if and only if the status was not 0x00 |
| TwiRuns.WaitIsSound | src/i2c.rs:444-598 | for any answers: still running or ended; success with the complete trace if and only if no answer taken was status 0x00; enough acknowledgements succeed |
| TwiRuns.VerdictIsFinal | src/i2c.rs:587-598 | with the interrupt left disabled nothing changes the reported verdict |
| TwiRuns.OkMeansFullTransferIff | src/i2c.rs:728-889 | **Main.** `Ok` means START, address, all bytes written, repeated START, address, every byte read and stored in order, NACK on the last only, STOP, if and only if no answer taken was status 0x00 |
| TwiRuns.OkIsOnTheBus | src/i2c.rs:728-889 | **Main.** `Ok` without a status 0x00, event by event: START, address, the register address first, then each data byte in its place and nothing else sent; START, address, each byte received where it is stored, NACK on the last only; STOP |
| TwiRuns.WaitEndsIff | src/i2c.rs:864-870 | the wait takes every answer or ends; a transfer that failed was refused by the last answer taken |
| TwiRuns.ResultSaysWhy | src/i2c.rs:728-889 | which cause gives which result, in the order the causes are looked at |
| TwiRuns.AcknowledgedTransferIsOk | src/i2c.rs:728-889 | acknowledged throughout, a transfer ends in `Ok` |
| TwiRuns.ZeroStatusReadsAsSuccess | src/i2c.rs:431-468 | status 0x00 on the first interrupt is reported as a complete transfer |
| Twi.TwiDriver.XferComplete | src/i2c.rs:424-438 | the channel fields of an ended transfer, the error code wrapped to a word |
| Twi.TwiDriver.CoreProcess | src/i2c.rs:444-583 | fields, buffers and register operations for every status, in place |
| Twi.TwiDriver.ServeInterrupt | src/i2c.rs:587-598 | nothing without flag or enable; re-enabled only while running |
| Twi.TwiDriver.BuildWriteBuffer | src/i2c.rs:785-796 | byte 0 is the register address if there is one, each data byte follows in its place, the rest is zero |
| Twi.TwiDriver.Arm | src/i2c.rs:780-862 | messages built, running, interrupt on, ACK off, START requested |
| Twi.TwiDriver.WaitForEnd | src/i2c.rs:864-870 | hardware and interrupt routine alternate until the event or the end of the answers |
| Twi.TwiDriver.Xfer | src/i2c.rs:728-889 | result, channel and bus as specified for every environment; idle again unless it was busy |
| Twi.TwiDriver.Clear | src/i2c.rs:388-394 | the channel reset between transfers |
| ArmSpec.ClearIFacts | src/asm/context.s:27-34 | the saved status has IRQs enabled and the mode unchanged |
| ArmSpec.SaveRoundTrip | src/asm/context.s:4-12 | a context saved as a 16-word frame is read back as it was |
| ArmSpec.SavedAgrees | src/asm/context.s:36-39 | a saved context depends on its `sp` field and its frame only |
| ArmSpec.StoreAppend | src/asm/context.s:25-35 | pushing in pieces builds the same words as one frame |
| ArmSpec.IrqFrameStands | src/asm/startup.s:576-577 | the interrupted registers are intact on the IRQ stack after the handlers |
| Arm.PushedFrame | src/asm/context.s:25-35 | the cooperative pushes build the frame |
| Arm.PushedIrqFrame | src/asm/startup.s:598-603 | the interrupt-exit pushes build the same frame |
| Arm.Cpu.RestoreFrame | src/asm/context.s:37-39 | a frame under sp becomes registers, lr, sp, pc and cpsr |
| Arm.Cpu.ContextSwitch | src/asm/context.s:24-39 | saves the caller to resume at its return address, then resumes the other thread |
| Arm.Cpu.ContextSwitchTo | src/asm/context.s:47-51 | resumes the thread in r0, saving nothing |
| Arm.Cpu.ContextSwitchInterrupt | src/asm/context.s:67-79 | the first request sets both ends, later ones the destination |
| Arm.Cpu.IrqEnter | src/asm/startup.s:575-576 | entry state and the interrupted registers on the IRQ stack |
| Arm.Cpu.IrqReturn | src/asm/startup.s:582-583 | without a request the interrupted thread goes on unchanged |
| Arm.Cpu.IrqUnwind | src/asm/startup.s:585-596 | flag cleared, IRQ stack balanced, interrupted registers recovered |
| Arm.Cpu.IrqBuildFrame | src/asm/startup.s:598-603 | the interrupted thread's frame on its own stack |
| Arm.Cpu.IrqSwitch | src/asm/startup.s:585-618 | saved at the first request's thread, resumed at the last one's |
| Arm.Cpu.Irq | src/asm/startup.s:575-618 | the whole interrupt, handlers and requests included, as specified |
| SwitchRuns.RequestsCollapse | src/asm/context.s:67-79 | any number of requests in one interrupt amount to the first source and the last destination |
| SwitchRuns.SwitchResumes | src/asm/context.s:24-39 | the thread switched to goes on exactly as saved |
| SwitchRuns.IrqResumes | src/asm/startup.s:575-618 | interrupted and resumed threads get back exactly their contexts; the IRQ stack is balanced |
| SwitchRuns.SpawnKeepsOk | src/thread.rs:107-135 | a new thread's first frame is a kept context |
| SwitchRuns.SpawnWritesFrame | src/thread.rs:107-135 | the sixteen words of the first frame one by one: 0x13, the parameter, twelve zeroes, the exit stub, the entry point |
| SwitchRuns.NewThreadStarts | src/thread.rs:105-135 | whatever runs in between, a new thread's first event starts it with pc at its entry, the parameter in r0, r1 to r12 zero, lr at the exit stub, cpsr 0x13 and sp at the stack's end rounded down to eight |
| SwitchRuns.FirstFrameFitsIff | src/thread.rs:113-115 | the first frame is inside the stack if and only if sixteen words fit below the rounded top |
| SwitchRuns.StepResumes | src/asm/startup.s:575-618 | any event resumes exactly the context saved for the thread it names and disturbs no other |
| SwitchRuns.RunFollowsHandoffs | src/thread.rs:221-289 | over every run the machine runs the thread of the last hand-off |
| SwitchRuns.ResumedAsSaved | src/asm/context.s:24-51 | **Main.** over every interleaving a suspended thread resumes with r0-r12, sp, lr, pc and cpsr as saved |
| SwitchRuns.SwitchReturns | src/asm/context.s:24-39 | to the thread that calls it, a switch is a return with every register and the stack as they were and IRQs enabled |
| SwitchRuns.InterruptReturns | src/asm/startup.s:575-618 | an interrupted thread that is switched out goes on at the same instruction with nothing changed |
| SwitchRuns.FirstThreadStarts | src/asm/context.s:47-51 | the first thread starts with its own context |
| JointRuns.BootKeepsOk | src/thread.rs:317-359 | before the start every creation builds a kept context for exactly the slot the table fills |
| JointRuns.LaunchStartsTogether | src/thread.rs:362-383 | the start leaves the machine running the picked thread with exactly the context built for it |
| JointRuns.FirstThreadBegins | src/thread.rs:317-383 | the thread picked first begins at the entry point it was created with at boot, with its parameter |
| JointRuns.BootThreadBegins | src/thread.rs:317-383 | so does every other thread created at boot, whatever runs before it |
| JointRuns.OperationLogs | src/thread.rs:253-288 | every legal operation logs at most one hand-off, from the current thread to the next, interrupt-style exactly when the tick makes it |
| JointRuns.NewThreadIsLegalIff | src/thread.rs:326-331 | creating a thread asks the machine for nothing but room for one frame on the free slot's stack |
| JointRuns.MachineRunsCurrentThread | src/thread.rs:253-383 | **Main.** in every run from `sched_init` on, creations and the start included: a context for each thread in the table and no other, and with nothing pending the machine runs the scheduler's current thread |
| JointRuns.ExampleLaunches | src/thread.rs:317-383 | a boot from empty memory that creates the idle thread and can start |
| NorSpec.AddressRoundTrip | src/spi_flash.rs:203-208 | the chip sees the address modulo 2^24 |
| NorSpec.CommandBytes | src/spi_flash.rs:127-139 | a command goes out as its byte and the low 24 bits of the address, high byte first |
| NorSpec.AndBits | src/spi_flash.rs:195-197 | programming leaves a bit set if and only if the cell and the data have it |
| NorSpec.AndErased | src/spi_flash.rs:195-197 | programming an erased byte stores it |
| NorSpec.ProgramIsFlat | src/spi_flash.rs:195-197 | the same cell by cell: a program inside one page is a flat write |
| NorSpec.PageWriteIsFlat | src/spi_flash.rs:195-197 | data that stays inside one page is written flat |
| NorSpec.AndWriteConcat | src/spi_flash.rs:222-229 | writing in chunks is writing at once |
| NorSpec.ErasedWriteReadsBack | src/spi_flash.rs:127-139 | data written to an erased range reads back |
| NorSpec.EraseIsAligned | src/spi_flash.rs:144-183 | 0x20, 0x52 and 0xD8 erase exactly the 4, 32 or 64 KiB block the address lies in, and no other command erases |
| NorSpec.EraseWriteRead | src/spi_flash.rs:144-231 | **Main.** erase, write, read: the data comes back |
| NorSpec.DrivenConcat | src/spi.rs:374-413 | chunking a transaction changes nothing |
| NorSpec.ProgramTransaction | src/spi_flash.rs:198-215 | a page program at any address, cut short anywhere, programs exactly the data that got through, wrapping inside the page |
| NorSpec.ReadTransaction | src/spi_flash.rs:127-139 | the data phase returns the cells from the address on |
| Spi.SpiBus.Preload | src/spi.rs:382-386 | the chunk, padded, joins what the TX FIFO holds; bytes beyond its 64 are dropped |
| Spi.SpiBus.Drain | src/spi.rs:407-412 | received bytes land at their places, the rest is dropped |
| Spi.TransferInOrder | src/spi.rs:358-416 | **Main.** whatever the FIFOs held, the bytes accepted go out in order behind those of the TX FIFO or are still in it, the end of a first burst without room is all that is dropped, and nothing that comes back is lost or reordered |
| Spi.Accepted | src/spi.rs:382-386 | everything is accepted if and only if the first burst has room beside the bytes held |
| Spi.LeftoversComeFirst | src/spi.rs:358-416 | a completed transfer in closed form: bytes left in the TX FIFO are sent first, bytes left in the RX FIFO returned first, and as many of the new ones stay behind |
| Spi.StalledByteComesFirst | src/spi.rs:388-412 | after a one-byte burst that stalls late the next short transfer returns the old byte first |
| Spi.UnsentByteGoesFirst | src/spi.rs:388-416 | the next short transfer completes, sending the unsent byte and all its own but the last |
| Spi.LateCommandSucceeds | src/spi.rs:388-461 | after a stall before its one byte a command fails, and the next one reports success while the chip executes the failed one |
| Spi.CleanTransfer | src/spi.rs:358-416 | from empty FIFOs the given bytes go out, the chip's come back, and the FIFOs are left empty; a stalled transfer sent a prefix |
| Spi.UnstalledCompletesIff | src/spi.rs:397-405 | without stalls a transfer completes if and only if its longest burst fits into the room of the RX FIFO |
| Spi.CleanXfer | src/spi.rs:448-453 | from empty FIFOs a completed transaction is exactly one with the given bytes, a stalled one is that transaction cut short |
| Spi.SpiBus.Transfer | src/spi.rs:358-416 | result, FIFOs, chip and `rx` as specified, whatever the FIFOs held and wherever a burst stalls; nothing outside `rx` changes |
| Spi.SpiBus.Send | src/spi.rs:419-430 | the same transfer, answers dropped |
| Spi.SpiBus.Receive | src/spi.rs:433-443 | the same transfer of 0xFF bytes, the buffer filled with the answers in order |
| Spi.SpiBus.Xfer | src/spi.rs:448-453 | one transfer with the chip selected, deselected afterwards even on error |
| Spi.SpiBus.XferSend | src/spi.rs:456-461 | one send with the chip selected, deselected afterwards even on error |
| Spi.SpiBus.XferCmdRead | src/spi.rs:479-485 | command and answer in one transaction, deselected afterwards even on error |
| Spi.SpiBus.XferCmdSend | src/spi.rs:492-497 | command and data in one transaction, deselected afterwards even on error |
| SpiFlash.Flash.WriteEnable | src/spi_flash.rs:73-76 | one transaction of 0x06 whatever the FIFOs hold; from a ready chip the latch is set, the cells are not touched |
| SpiFlash.Flash.ReadStatus | src/spi_flash.rs:113-117 | the second byte of one transaction of 0x05 whatever the FIFOs hold; from empty FIFOs the chip's own status byte, odd if and only if it is busy |
| SpiFlash.Flash.WaitBusy | src/spi_flash.rs:78-87 | returns with the chip idle |
| SpiFlash.Flash.PageProgram | src/spi_flash.rs:198-215 | the page write, wrapping inside the page; more than a page refused; on an error a prefix of the data is programmed |
| SpiFlash.Flash.Write | src/spi_flash.rs:218-231 | **Main.** the flat write of all the data, each program inside its page; on an error a prefix is written |
| SpiFlash.Flash.Read | src/spi_flash.rs:127-139 | command and answer in one transaction whatever the FIFOs hold; from a ready chip the cells from the address on, the chip unchanged |
| SpiFlash.Flash.Erase | src/spi_flash.rs:144-183 | the aligned block is erased and nothing else changes |
| SpiFlash.PrefixAfter | src/spi_flash.rs:222-229 | a failed page after complete ones leaves a prefix of the whole data |
| Mmu.OrShifted | src/mmu.rs:104 | or with a shifted number leaves the low bits and ors the high ones |
| Mmu.OrBits | src/mmu.rs:104 | bit by bit, the or of two words |
| Mmu.EntryParts | src/mmu.rs:104 | an entry splits into the physical section or-ed with high attribute bits, and the low attribute bits |
| Mmu.PageTable.SetMapping | src/mmu.rs:98-106 | exactly the covered sections get their entries, end section included |
| Mmu.PageTable.SetMappings | src/mmu.rs:117-121 | the table is the ordered overlay |
| Mmu.LastCoveringWins | src/mmu.rs:113-121 | the last covering descriptor decides an entry |
| Mmu.UncoveredStays | src/mmu.rs:117-121 | an uncovered entry keeps its value |
| Mmu.TranslatesThroughLast | src/mmu.rs:98-121 | **Main.** translation goes to that descriptor's section with the same offset, if and only if its high attribute bits add nothing; attribute bits intact |
| Mmu.UncoveredFaults | src/mmu.rs:117-121 | an uncovered address faults in a fresh table |
| Mmu.AlignedTranslation | src/mmu.rs:98-106 | for section-aligned descriptors translation adds a constant modulo 2^32 |
| Mmu.AddressesTranslate | src/mmu.rs:98-121 | **Main.** an address from a descriptor's start to its end, both included, whose megabyte no later descriptor meets, is translated, and by its distance from the start if and only if start and physical address lie equally deep in their megabytes |
| Mmu.OffsetTranslation | src/mmu.rs:98-106 | without alignment the distance counts from the beginnings of the two megabytes |
| Mmu.AddressesFault | src/mmu.rs:117-121 | an address whose megabyte no descriptor meets faults |

## Left out

- `thread_exit`, `thread_delete`, `thread_suspend` and `thread_resume` inside runs: they break the invariant; the hazard lemmas say exactly when.
- Scheduler.Scheduler.Tick: does not model overflow of the 64-bit tick count, which `SchedulerRuns.RunSafety` puts beyond 2^64 operations, nor of `tick_count + ticks`.
- Semaphore.Semaphore.Release: does not model overflow of the 32-bit count, which `Semaphore.RunAccounting` puts beyond 2^31 - 1 - initial actions; `SemError::Overflow` is never returned by the source.
- Mutex.Mutex.LockEnter: does not model overflow of the 32-bit `nest`, which `Mutex.RunSafety` puts beyond 2^32 actions.
- Thread names, stack bases and sizes, `wait_flags`, `wait_mode` and `initialized`: no modelled operation reads them. The `sp` field is in the context-switch model, not in the scheduler's table.
- The bits of a `u32` bitmap as a machine word: `|=`, `&= !`, `mask & (mask - 1)` and `trailing_zeros` appear as set operations and the smallest element.
- `align_up`'s bit mask: written as subtraction of a remainder, which is the same for the powers of two it is called with.
- Several senders or receivers on one message queue: false as the code stands, see `SecondReceiverPanicsIff` and `SecondSenderOverfillsIff`.
- MsgQueue.MsgQueue.Dequeue: count underflow is a panic, as in a build with overflow checks; a build without them wraps the count.
- MsgQueue.MsgQueue.SendEnter: the queue's buffer and the scheduler's arrays are different objects, which the exclusive borrow that `new` takes guarantees and Dafny's types do not.
- Signal handlers: delivery is an event in a trace; what a handler does is not modelled. Installing and removing handlers is left out.
- Signal.SignalTable.Check: the critical sections of one call follow each other without interruption; `SignalRuns` takes them one at a time instead.
- The spinlock, interrupt dispatch and masking: represented only by atomic steps.
- Heap.FirstFitHeap.FreeInner: only for null and pointers granted by `alloc_inner` and not yet freed; `Allocator::dealloc`, `realloc` and `alloc_zeroed` are left out because the pointer `alloc` hands out is not such a pointer.
- HeapSpec.RunSafety: requests whose rounding up to eight bytes wraps 32 bits are not among the operations; `Allocator::alloc` makes none (`PaddingNeverWraps`).
- Heap.FirstFitHeap.AllocInner: requires a positive request whose rounding does not wrap, which is what its one caller passes (`PaddingNeverWraps`).
- Heap.FirstFitHeap.InitHeap: the region, after rounding its start up, is required to be usable memory; the source asks callers for an aligned start.
- Memory words are aligned: unaligned and byte accesses are not modelled, in the heap or in the ARM machine.
- Twi.TwiDriver.Xfer: register bits other than STA, ACK, INTFLG and INTEN, delays, soft-reset polling, pin and clock set-up and `probe` are the environment; the event object appears as the bit its wait ends on, `EventFlags` being modelled separately.
- TWI 10-bit addressing: statuses 0xD0 and 0xD8 are covered by `AnyStatusIsSafe` only; the controller modelled sends 7-bit addresses.
- Arm.Cpu.Irq: interrupts do not nest, FIQ and the other exceptions are left out, and threads run in SVC mode in ARM state.
- Stack overflow: a switch or interrupt is required to find room for one frame on the thread's stack.
- Spi.SpiBus.Transfer: a stall ends a burst after any number of bytes; the shift register's own partial byte is not modelled.
- Spi.SpiBus.Exchange: clock, mode and FIFO-reset registers are left out; the bus has one device, the flash chip.
- SpiFlash.Flash.WaitBusy: the chip becomes idle after a finite number of status reads; the source polls without a limit.
- SpiFlash.Flash.Write: starts from empty FIFOs, which every operation without an error leaves; after a stall the polling loop may read anything, and `Spi.TransferInOrder` and `Spi.LeftoversComeFirst` say what each transfer then sends and returns.
- SpiFlash.Flash.PageProgram: the same.
- SpiFlash.Flash.Erase: the same.
- JEDEC and unique identifiers, chip erase, power-down and fast read: no property beyond the transaction itself.
- Cache maintenance, TLB, TTB and MMU enabling, the boot code, `cpu`, `clock`, `dram`, `timer`, `uart`, `gpio`, `pwm`, LCD and touch drivers: hardware side effects without an invariant in the code.
- Mmu.TranslatesThroughLast: access permissions, domains and cacheability are carried as attribute bits, not interpreted.
