# Verified model of the kernel's scheduler, USB host engine and support code

This project models the concurrent and stateful core of a small multi-core AArch64 kernel for the Raspberry Pi 3
and of the C libraries it links (the USPi USB host stack and its environment library), and proves what that code
is meant to guarantee. `dafny verify dfyconfig.toml` checks everything.

## How the model is built

Every operation appears twice. A *specification function* says on values what one call, one critical section or one
interrupt does. A *method* of a class has the source's own shape (its fields, its loops, its in-place updates) and is
proved equal to that function. Properties of whole runs are lemmas over sequences of such steps, which rest on an
invariant that every step keeps.

| modules | what they model |
|---|---|
| `Process`, `Scheduling` | tasks, and the scheduler's queue operations as methods |
| `Cores`, `CoreInvariants`, `CoreRuns`, `CoreEntries`, `CoreHistory` | any number of cores interleaving at lock granularity; mutual exclusion, conservation, bounded bypass, context fidelity |
| `FrameSchedulers`, `UsbEndpoints`, `TransferStages` | split schedulers, data toggles, packet and byte accounting |
| `HostControllers`, `HostRuns`, `Controllers` | the host controller driver as a machine driven by submissions, interrupts and timers; its invariant; the driver object |
| `Transitions` | what each step of the driver does to its channel, case by case |
| `AckAnswers`, `ToggleRuns`, `SplitCycles`, `ByteCounts` | over whole runs of the driver: the limits of the controller's contract, data toggles, split cycles, reported lengths |
| `StageRuns`, `ControlTransfers`, `ControlNaks` | blocking stages and control requests, carried out by runs of the driver |
| `Allocators`, `PageAllocators` | size classes, free lists, bump arenas, pages |
| `ConfigParsers`, `HubTree` | configuration descriptors; transaction translators in a tree of hubs |
| `Mmu` | translation tables against the memory layout |
| `KernelTimers`, `PendingInterrupts` | software timers in modular time; pending interrupts |
| `Formatters`, `Digits`, `Division`, `Words`, `Arithmetic` | formatted output, number conversion, division, machine words |

**Scheduler.** A step is one critical section of one core (add, deschedule, exit, one `schedule` attempt), a change of a
task's registers by user code, or the clock advancing. `schedule` returns the `tpidr` the core had *before*, and its
callers go on until that is positive. Mutual exclusion therefore depends on the `tpidr` with which cores first enter.
`CoreEntries.ExclusionExactly` says exactly on which: with several cores, all of them must enter with 1, the only
number that is neither 0 nor ever allocated. The early return in `deschedule` (counter still positive) is never taken
once counters rest in 0..1.

**USB host engine.** The controller hardware is an adversary bound by `HostControllers.Legal` and
`TransferStages.Possible`: an interrupt arrives only on a channel whose mask is armed, no more packets and bytes are left
than were programmed, bytes moved fit into the packets moved, a start-split moves nothing, a complete-split without
error, NAK or NYET has moved its packet and reports transfer complete, or ACK unless it is the last packet and there are
tries left. `AckAnswers.AckAloneExactly` shows that this last exception is exactly what the driver cannot stand.

**Conditions found.** Where a promise fails, the project gives an input and the exact condition:

- entering with `tpidr` 0 or, with several cores, with a number that a task gets;
- packets reported as moved with an error, NAK or NYET, which the toggle does not follow;
- a complete-split of the last packet answered by ACK alone;
- halted complete-splits, whose restarts nothing bounds;
- a NAK or NYET for a control stage that is not split, which the driver takes for success, so that the next stage goes
  out with the wrong PID; a control request that ends anywhere between its setup and its status stage leaves the
  endpoint off SETUP; one without data reports what its setup stage moved;
- a bump pointer that wraps past 2^32, at once with a huge request or after enough failed ones;
- descriptors of length 1, whose header reaches into the next one, and of length 0, at which the parser does not return.
  It also accepts a header whose total length is 0 and rejects a list that ends in a 2 byte descriptor;
- timer delays of 0 and from 2^31 on, which depend on whether the poll had still to come to the timer's slot;
- memory ranges that are not 64 KiB aligned (src/memory.rs takes the end of memory, which is exclusive, as the
  inclusive end of the heap);
- 64 bit numbers of more than 11 digits in formats;
- a hub with address 0.

The comment at src/sched.rs lines 125-132 says that `deschedule` also switches to the next task; the code leaves that to
`schedule`, and the model follows the code.

## Model

| member | source | states |
|---|---|---|
| `Process.WrapI8` | src/process.rs:13-14 | counters wrap around like an `i8` |
| `Process.PassedOver` | src/sched.rs:176-178 | a waiting task that is passed over has its counter halved, rounding down, and raised by its priority; nothing else changes |
| `Scheduling.Scheduler.AddTask` | src/sched.rs:114-123 | a task is appended under the next pid, which its saved context carries too |
| `Scheduling.Scheduler.Deschedule` | src/sched.rs:141-164 | the queue becomes what `Descheduled` says: the task with the core's `tpidr` goes to the back with counter 1, new state and saved registers, unless a ready task has time left |
| `Scheduling.KeepsCoreExactly` | src/sched.rs:142-151 | a task keeps its core if and only if it is still ready and its `i8` counter is at least 2 or -128 |
| `Scheduling.Scheduler.Schedule` | src/sched.rs:166-182 | the queue is rotated to its first runnable task, which is dispatched, and the previous `tpidr` is returned; 0 when nothing is runnable |
| `Scheduling.Scheduler.ExitTask` | src/sched.rs:184-193 | the core's task becomes a zombie and goes to the back |
| `Cores.DescheduleLookup` | src/sched.rs:141-164 | for every pid: descheduling keeps how often it is queued and changes only the task the core runs |
| `Cores.ScheduleLookup` | src/sched.rs:166-182 | for every pid: an attempt keeps it queued, dispatches only a runnable task, leaves the others alone but for the counter of waiting ones, and dispatches nothing only when nothing is runnable |
| `Cores.ExitMarkLookup` | src/sched.rs:184-193 | exit marks one task and keeps every pid |
| `CoreInvariants.SwitchStep` | src/sched.rs:58-85 | a tick or sleep always takes the held task off the core (the early return is dead) and keeps the invariant |
| `CoreInvariants.ExitStep` | src/sched.rs:31-52 | exit retires the held task, frees its stack once, and keeps the invariant |
| `CoreInvariants.AttemptStep` | src/sched.rs:166-182 | an attempt serves the chosen runnable task to the seeking core, or changes only counters, and keeps the invariant |
| `CoreInvariants.AddStep` | src/sched.rs:114-123 | a new task gets a fresh pid and a stack of its own, and the invariant is kept |
| `CoreInvariants.StepInv` | src/sched.rs:31-89 | every step of every core keeps: running tasks are exactly the held ones, pids are queued once, resting counters are 0 or 1, stacks have one owner |
| `CoreRuns.RunKeeps` | src/sched.rs:31-89 | the invariant holds after every run from a state in which it holds |
| `CoreRuns.SmallEntriesUnclashed` | src/sched.rs:114-117 | pids start at 2, so entry values below 2 never meet one |
| `CoreRuns.MutualExclusion` | src/sched.rs:31-89 | for any number of cores and every interleaving, no task is held twice and the running tasks are the held ones, if cores enter with a nonzero, never allocated `tpidr` |
| `CoreRuns.Conservation` | src/sched.rs:114-193 | every pid allocated stays queued exactly once, a stack is freed exactly when its task exits and never twice, and every other task owns a live stack |
| `CoreEntries.ZeroEntryLoses` | src/sched.rs:171-175 | a core that enters with 0 dispatches two tasks and holds only the second |
| `CoreEntries.AllocatedEntryBreaks` | src/sched.rs:141-164 | a core that enters with any pid can take that task off another core, which goes on executing it |
| `CoreEntries.AloneRun` | src/sched.rs:58-85 | a single core keeps mutual exclusion whatever nonzero value it enters with |
| `CoreEntries.ExclusionExactly` | src/sched.rs:31-89 | mutual exclusion on all runs holds if and only if no core enters with 0 and, with several cores, all enter with 1 |
| `CoreRuns.AheadMoved` | src/sched.rs:141-164 | taking a running task to the back lets nobody overtake a waiting one |
| `CoreRuns.AheadScheduled` | src/sched.rs:166-182 | a dispatch of another task leaves fewer idle tasks ahead of a ready one |
| `CoreRuns.BypassStep` | src/sched.rs:31-89 | no step of any core puts a ready task further back, and each dispatch of another brings it forward |
| `CoreRuns.BoundedBypass` | src/sched.rs:141-182 | a ready task with m idle tasks ahead is dispatched within m + 1 successful dispatches, whatever is interleaved |
| `CoreRuns.IdleAttempt` | src/sched.rs:166-182 | an attempt dispatches nothing exactly when nothing is runnable, and then it changes nothing at all |
| `CoreHistory.FaithfulRun` | src/sched.rs:153-174 | along every run, saved registers are those the task was last seen with, and sleepers wait for the time they asked for |
| `CoreHistory.DispatchRestores` | src/syscall.rs:8-26 | a dispatched task resumes with the registers it was last seen with; a sleeper only after more time than it asked for since its call, with x7 = 0, x0 the whole milliseconds since the call, and nothing else changed |
| `CoreHistory.IdleExactly` | src/process.rs:50-69 | a seeking core stays without a task if and only if no task is ready and no sleeper has slept for longer than it asked |
| `CoreHistory.ZombieStays` | src/process.rs:85-96 | a task that exited stays a zombie for ever |
| `CoreHistory.OrphanStays` | src/sched.rs:141-182 | a running task that no core executes stays so: nothing finds it again |
| `CoreHistory.LostForever` | src/sched.rs:171-175 | the first task given to a core that entered with 0 is lost in every continuation |
| `FrameSchedulers.PeriodicScheduler.BeginSplit` | ext/uspi/lib/dwhciframeschedper.c:67-74 | a start-split begins a cycle and its frame is still to be chosen |
| `FrameSchedulers.PeriodicScheduler.CompleteSplits` | ext/uspi/lib/dwhciframeschedper.c:76-107 | whether another complete-split follows, how many tries are left and in which microframe, as `NextSplit` says |
| `FrameSchedulers.PeriodicScheduler.TransactionComplete` | ext/uspi/lib/dwhciframeschedper.c:109-156 | the reaction to a status, as `Transacted` says |
| `FrameSchedulers.PeriodicScheduler.WaitForFrame` | ext/uspi/lib/dwhciframeschedper.c:158-181 | a start-split takes the next microframe, or 7 instead of 6 |
| `FrameSchedulers.NonPeriodicScheduler.CompleteSplits` | ext/uspi/lib/dwhciframeschednper.c:71-102 | whether another complete-split follows, as `NextSplit` says |
| `FrameSchedulers.NonPeriodicScheduler.TransactionComplete` | ext/uspi/lib/dwhciframeschednper.c:104-156 | the reaction to a status, with the retry counter, as `Transacted` says |
| `FrameSchedulers.SplitsBounded` | ext/uspi/lib/dwhciframeschedper.c:76-156 | from any complete-split on, there are at most tries + 1 of them, periodic ones in consecutive microframes |
| `FrameSchedulers.CycleOfNyets` | ext/uspi/lib/dwhciframeschednper.c:71-156 | the bounds are met: complete-splits all answered by NYET are repeated 4 times, 3 times from microframe 5 |
| `FrameSchedulers.WaitsForNext` | ext/uspi/lib/dwhciframeschedper.c:158-181 | a start-split takes the first microframe after the current one that is not 6; a frame that was chosen is kept |
| `FrameSchedulers.SplitCycle` | ext/uspi/lib/dwhciframeschedper.c:67-181 | of a scheduler driven by answers: each start-split is followed by at most 4 complete-splits, 3 from microframe 5; periodic ones use start + 2, start + 3, ... mod 8 and start is never 6; no assertion fails |
| `SplitCycles.SplitCyclesOverRuns` | ext/uspi/lib/dwhcidevice.c:1035-1091 | over every run and on every channel: at most 4 answered complete-splits per start-split (3 from microframe 5, never 6); those issued beyond are restarts of halted ones and one outstanding; without restarts the microframes are start + 2, start + 3, ... |
| `SplitCycles.RestartRepeats` | ext/uspi/lib/dwhcidevice.c:971-976 | a halted complete-split is issued again with the same tries and microframe, so restarts are not bounded |
| `HostRuns.AnswerAccepted` | ext/uspi/lib/dwhcidevice.c:1066-1091 | in the complete-split state the handler fails an assertion if and only if the status is empty or a bare halt |
| `UsbEndpoints.Endpoint.SkipPid` | ext/uspi/lib/usbendpoint.c:189-229 | the next PID becomes what `Skipped` says |
| `UsbEndpoints.Endpoint.ResetPid` | ext/uspi/lib/usbendpoint.c:231-237 | the next PID is DATA0 |
| `UsbEndpoints.ToggleIsParity` | ext/uspi/lib/usbendpoint.c:176-237 | a bulk or interrupt endpoint's PID is the parity of the packets moved since its last reset, however they were grouped |
| `TransferStages.TransferStageData.constructor` | ext/uspi/lib/dwhcixferstagedata.c:25-122 | split flag, sizes and packet counts of a new stage |
| `TransferStages.NewStageFields` | ext/uspi/lib/dwhcixferstagedata.c:50-121 | a new stage is split behind a hub and below high speed, covers the 8 setup bytes, the whole buffer or nothing with as few packets as hold it, and starts with one packet if split and with everything otherwise |
| `TransferStages.TransferStageData.TransactionComplete` | ext/uspi/lib/dwhcixferstagedata.c:140-185 | totals, packets, pointer, bytes per transaction and the endpoint's toggle after a transaction |
| `TransferStages.PacketCountExact` | ext/uspi/lib/dwhcixferstagedata.c:65 | the packets counted cover the transfer if and only if the 32 bit sum does not overflow |
| `TransferStages.NewStageStarts` | ext/uspi/lib/dwhcixferstagedata.c:52-94 | a new stage is fit to be started |
| `TransferStages.Window` | ext/uspi/lib/dwhcixferstagedata.c:335-347 | at a transaction start the bytes programmed are positive and inside the caller's buffer; a split moves min(max packet size, size - total) |
| `TransferStages.StartSplitMovesNothing` | ext/uspi/lib/dwhcixferstagedata.c:140-185 | accounting a start-split changes the status only |
| `TransferStages.CompleteSplitMoves` | ext/uspi/lib/dwhcixferstagedata.c:140-185 | a counted complete-split ticks off one packet and advances total and pointer alike: by the bytes programmed less those left, or by a full packet when none of them was reported moved; with packets left the stage is fit to start again (so the total exceeds the size only with none left) |
| `ByteCounts.ReportsWhatMoved` | ext/uspi/lib/dwhcixferstagedata.c:419-428 | over every run a stage that succeeds, split or not, reports the bytes its accounted transactions moved, up to its size, and one that fails none |
| `TransferStages.SplitAccounting` | ext/uspi/lib/dwhcixferstagedata.c:140-185 | the accounting invariant survives every status a split transaction may report |
| `TransferStages.PlainAccounting` | ext/uspi/lib/dwhcixferstagedata.c:140-185 | a non-split transfer reports exactly size minus bytes left and keeps the invariant |
| `TransferStages.SetupIsOnePacket` | ext/uspi/lib/dwhcixferstagedata.c:54-65 | setup data are one packet if and only if the packet size is at least 8 |
| `Controllers.Controller.AllocateChannel` | ext/uspi/lib/dwhcidevice.c:1244-1268 | the lowest free channel's bit is set; nothing changes when none is free |
| `Controllers.Controller.FreeChannel` | ext/uspi/lib/dwhcidevice.c:1270-1283 | exactly that channel's bit is cleared |
| `Controllers.Controller.EnableChannelInterrupt` | ext/uspi/lib/dwhcidevice.c:635-651 | exactly that channel's interrupt is enabled |
| `Controllers.Controller.DisableChannelInterrupt` | ext/uspi/lib/dwhcidevice.c:653-669 | exactly that channel's interrupt is disabled |
| `Controllers.Controller.TransferStageAsync` | ext/uspi/lib/dwhcidevice.c:740-785 | the driver's state and the answer are those of `Submitted` |
| `Controllers.Controller.BeginTransaction` | ext/uspi/lib/dwhcidevice.c:787-820 | a channel that is still enabled is halted first, otherwise the channel starts |
| `Controllers.Controller.BeginChannel` | ext/uspi/lib/dwhcidevice.c:822-941 | the channel waits for its transaction with its mask armed, in the frame its scheduler chose |
| `Controllers.Controller.ChannelInterruptHandler` | ext/uspi/lib/dwhcidevice.c:943-1148 | one channel interrupt does what `Handled` says |
| `Controllers.Controller.AdvanceStage` | ext/uspi/lib/dwhcidevice.c:993-1148 | the switch on the stage's state does what `Advanced` says |
| `Controllers.Controller.TimerHandler` | ext/uspi/lib/dwhcidevice.c:1211-1242 | a delay that runs out restarts the stage as `Delayed` says |
| `Controllers.Controller.InterruptHandler` | ext/uspi/lib/dwhcidevice.c:1150-1209 | one interrupt carries out the whole sweep over the pending channels, with what completion routines submit meanwhile, and keeps the invariant |
| `HostRuns.HandledOk` | ext/uspi/lib/dwhcidevice.c:943-1148 | a channel interrupt either goes on with the stage or ends it, fails no assertion and touches no other channel |
| `HostRuns.DelayedOk` | ext/uspi/lib/dwhcidevice.c:1211-1242 | a timer that runs out goes on with its stage and fails no assertion |
| `HostRuns.SubmittedOk` | ext/uspi/lib/dwhcidevice.c:740-785 | a stage is accepted if and only if a channel is free, and begins on the lowest free one |
| `HostRuns.StepInv` | ext/uspi/lib/dwhcidevice.c:740-1283 | every submission, interrupt, timer and toggle reset keeps the driver's invariant |
| `HostRuns.RunKeeps` | ext/uspi/lib/dwhcidevice.c:740-1283 | the invariant holds after every legal run |
| `HostRuns.ChannelDiscipline` | ext/uspi/lib/dwhcidevice.c:1244-1283 | over every run no assertion fails, and a channel's bit is set and its interrupt enabled exactly while it carries a stage |
| `HostRuns.CompletedOnce` | ext/uspi/lib/dwhcidevice.c:943-1148 | every accepted stage is completed at most once, exactly if it is no longer in flight; reported lengths fit their buffers; the wait flag is set exactly while a blocking stage is in flight |
| `HostRuns.TransactionsStayInside` | ext/uspi/lib/dwhcidevice.c:822-855 | whenever a channel is armed, its transaction is non-empty and inside the caller's buffer |
| `HostRuns.FreedBeforeCallback` | ext/uspi/lib/dwhcidevice.c:1025-1032 | when a completion routine is called its channel is free, so a resubmission is accepted |
| `AckAnswers.AckAloneExactly` | ext/uspi/lib/dwhcixferstagedata.c:160-177 | an ACK-only answer to a complete-split can lead to a failing assertion if and only if it is that of the last packet and tries are left |
| `AckAnswers.AckAloneReached` | ext/uspi/lib/dwhcixferstagedata.c:160-177 | a run of a fresh driver that reaches such an answer |
| `HostRuns.AnswerOutcome` | ext/uspi/lib/dwhcidevice.c:943-1148 | an answered transaction advances its endpoint's PID exactly if it is accounted, and no other |
| `Transitions.PlainAnswer` | ext/uspi/lib/dwhcidevice.c:998-1033 | a stage that is not split: failure on error; an interrupt endpoint waits for its interval on NAK or NYET, with a timer exactly if one is free; success otherwise, with the length moved |
| `Transitions.StartSplitAnswer` | ext/uspi/lib/dwhcidevice.c:1035-1064 | a start-split: failure on error, NAK or NYET; otherwise a complete-split follows |
| `Transitions.CompleteSplitAnswer` | ext/uspi/lib/dwhcidevice.c:1066-1143 | a complete-split: failure on error; repeated while tries are left after NYET, ACK or, but for interrupt endpoints, NAK; then success without packets left, a wait for an interrupt endpoint, another start-split for any other |
| `Transitions.HaltAnswer` | ext/uspi/lib/dwhcidevice.c:952-976 | a bare halt starts the same transaction again; a channel that was being halted is started |
| `Transitions.TimerAnswer` | ext/uspi/lib/dwhcidevice.c:1211-1242 | when its delay is over a stage starts its transaction, a split one a new start-split in the next microframe that is not 6 |
| `Transitions.SubmitAnswer` | ext/uspi/lib/dwhcidevice.c:740-785 | an accepted stage takes the lowest free channel and starts its first transaction |
| `HostRuns.OnePacketStage` | ext/uspi/lib/dwhcidevice.c:943-1148 | a setup or status stage counts a transaction at most once and ends with success as soon as it does |
| `HostRuns.SweepHandlesAll` | ext/uspi/lib/dwhcidevice.c:1164-1187 | all channels pending at the snapshot are still armed when their turn comes, each is handled, and the sweep is a legal run |
| `ToggleRuns.HandledPids` | ext/uspi/lib/dwhcixferstagedata.c:171-174 | an interrupt advances the toggle of its endpoint by the packets moved exactly if it counts, and touches no other toggle |
| `ToggleRuns.ToggleOverRuns` | ext/uspi/lib/usbendpoint.c:176-237 | over every run of the driver an endpoint that starts at DATA0 and carries no status stages has as PID the parity of the packets the driver accounted since its last reset, whatever other channels do |
| `ToggleRuns.ToggleExactly` | ext/uspi/lib/dwhcixferstagedata.c:155-174 | that PID is the parity of all packets reported as moved if and only if an even number of them came with a status that is not accounted |
| `ToggleRuns.ErrorLosesPackets` | ext/uspi/lib/dwhcixferstagedata.c:155-158 | a run in which a packet is reported moved with an error and the PID does not follow |
| `StageRuns.StageOutcome` | ext/uspi/lib/dwhcidevice.c:707-738 | in every run from submission to completion of a blocking stage: what was acknowledged, how the PID advanced, that it ends alone on its endpoint, and when it succeeds |
| `Controllers.Controller.TransferStage` | ext/uspi/lib/dwhcidevice.c:707-730 | submits the stage and waits while the driver's steps happen, until the completion routine was called; reports its status |
| `Controllers.Controller.SubmitControlRequest` | ext/uspi/lib/dwhcidevice.c:287-324 | stages run in order until one does not succeed; driver, success and length are those of `Requested` |
| `ControlTransfers.ControlDiscipline` | ext/uspi/lib/dwhcidevice.c:299-324 | a control request whose stages succeed, carried out by any legal run, keeps the SETUP, DATA1, status discipline and ends at SETUP if and only if none of its stages ended on NAK or NYET |
| `ControlNaks.NakBreaksDiscipline` | ext/uspi/lib/dwhcidevice.c:1006-1024 | a run in which a NAK for the setup transaction makes the data stage go out as SETUP, and the request succeeds |
| `ControlTransfers.BackAtSetupExactly` | ext/uspi/lib/usbendpoint.c:189-229 | however a request ends, the endpoint is at SETUP if and only if nothing was acknowledged or the status stage was |
| `ControlTransfers.ReportedLength` | ext/uspi/lib/dwhcidevice.c:1018-1022 | a request with data reports at most its buffer's length (8 bytes if its setup stage ended on a NAK); one without data reports what its setup stage moved |
| `ControlTransfers.EachIsDisciplined` | ext/uspi/lib/dwhcidevice.c:287-342 | in any sequence of successful requests without such NAKs, with any traffic between, each begins at SETUP and keeps the discipline |
| `Allocators.Room` | ext/uspi/env/lib/alloc.c:160-181 | every block is 16 byte aligned, marked with the magic number and lies in the carved arena |
| `Allocators.Disjoint` | ext/uspi/env/lib/alloc.c:160-172 | two blocks, live or free, never overlap |
| `Allocators.MallocKeepsExactly` | ext/uspi/env/lib/alloc.c:127-182 | malloc keeps the heap in order if and only if it is clear of the 32 bit wrap-around |
| `Allocators.MallocGives` | ext/uspi/env/lib/alloc.c:127-182 | a block handed out was not in use, is aligned and large enough, and nothing else changes hands; failure only with an empty free list |
| `Allocators.BlocksHaveClassSizes` | ext/uspi/env/lib/alloc.c:133-149 | over every run a block has the smallest of the six sizes that holds the request it was carved for, takes no more room than alignment needs, and only blocks above 0x80000 are ever leaked |
| `Allocators.FreedIsReused` | ext/uspi/env/lib/alloc.c:152-157 | a freed block is handed out again for the next request of its class, and the bump pointer stays |
| `Allocators.FailsExactly` | ext/uspi/env/lib/alloc.c:151-168 | a call clear of the wrap-around fails if and only if no free block has the size of the request's class and the arena has no room for another |
| `Allocators.FreeKeeps` | ext/uspi/env/lib/alloc.c:184-208 | a block in use passes the magic check and freeing it keeps the heap in order |
| `Allocators.RunKeeps` | ext/uspi/env/lib/alloc.c:127-208 | every run of malloc and free keeps the heap in order |
| `Allocators.HeapStaysInOrder` | ext/uspi/env/lib/alloc.c:94-208 | after every run live, free and leaked blocks partition the gapless arena, free lists are acyclic and hold blocks of their class only, and all blocks are disjoint, aligned and inside it |
| `Allocators.FirstCallWraps` | ext/uspi/env/lib/alloc.c:160-172 | asking for 0xFFFFFFF0 bytes first breaks the heap: the next block gets the same address |
| `PageAllocators.PallocKeepsExactly` | ext/uspi/env/lib/alloc.c:212-249 | palloc keeps the pages in order if and only if it is clear of the wrap-around |
| `PageAllocators.FreedPageIsReused` | ext/uspi/env/lib/alloc.c:226-231 | a freed page is handed out next |
| `PageAllocators.PallocFailsExactly` | ext/uspi/env/lib/alloc.c:225-244 | palloc fails if and only if no page is free and another would pass the limit |
| `PageAllocators.PagesWrap` | ext/uspi/env/lib/alloc.c:234-244 | calling palloc often enough brings the page pointer around and hands out a page behind the limit |
| `PageAllocators.PfreeKeeps` | ext/uspi/env/lib/alloc.c:251-268 | freeing a page in use keeps the pages in order |
| `PageAllocators.Allocator.constructor` | ext/uspi/env/lib/alloc.c:94-116 | `mem_init` gives the first quarter of the memory from 0x500000 on to blocks and the rest from the next page boundary on to pages |
| `PageAllocators.Allocator.Malloc` | ext/uspi/env/lib/alloc.c:127-182 | the object stays valid if and only if the call is clear of the wrap-around, and then hands out an unused block of exactly the request's class size, or none |
| `PageAllocators.Allocator.TakeBlock` | ext/uspi/env/lib/alloc.c:133-181 | its steps are those of `Malloced` |
| `PageAllocators.Allocator.FindBucket` | ext/uspi/env/lib/alloc.c:133-149 | the first bucket that is large enough, and its size, the smallest class that holds the request |
| `PageAllocators.Allocator.Free` | ext/uspi/env/lib/alloc.c:184-208 | exactly that block leaves the blocks in use |
| `PageAllocators.Allocator.GiveBack` | ext/uspi/env/lib/alloc.c:184-208 | the block goes to the front of the free list of its size |
| `PageAllocators.Allocator.Palloc` | ext/uspi/env/lib/alloc.c:212-249 | the object stays valid if and only if the call is clear of the wrap-around, and then a page not in use comes into use, or none |
| `PageAllocators.Allocator.Pfree` | ext/uspi/env/lib/alloc.c:251-268 | exactly that page leaves the pages in use |
| `PageAllocators.RegionsApart` | ext/uspi/env/lib/alloc.c:105-111 | blocks and pages never meet |
| `ConfigParsers.AcceptsExactly` | ext/uspi/lib/usbconfigparser.c:61-125 | the validation loop accepts exactly the buffers that are a concatenation of descriptors of nonzero length that are well-placed and have the length of their kind, and can be read in one way only |
| `ConfigParsers.LayoutMeans` | ext/uspi/lib/usbconfigparser.c:73-114 | that means: configurations of 9 bytes come first, interfaces of 9 bytes do not, endpoints follow neither, with 9 bytes if the last interface before them is audio and 7 otherwise |
| `ConfigParsers.WellSizedExactly` | ext/uspi/lib/usbconfigparser.c:61-125 | such a buffer is a concatenation of descriptors with whole headers if and only if it is accepted and none has length 1 |
| `ConfigParsers.AcceptsOverlap` | ext/uspi/lib/usbconfigparser.c:61-118 | a buffer with a descriptor of length 1 that is accepted |
| `ConfigParsers.HangsExactly` | ext/uspi/lib/usbconfigparser.c:61-118 | the loop never gets past a position if and only if well-placed descriptors lead there and it holds one of length 0 of a kind without a prescribed length |
| `ConfigParsers.EndlessHangs` | ext/uspi/lib/usbconfigparser.c:61-118 | a buffer on which the constructor does not return |
| `ConfigParsers.FetchMeaning` | ext/uspi/lib/usbconfigparser.c:154-193 | a fetch gives the next descriptor of its kind; an endpoint fetch never passes an interface |
| `ConfigParsers.DrainIsFilter` | ext/uspi/lib/usbconfigparser.c:154-193 | repeated fetches return what a filter over the list returns |
| `ConfigParsers.Parser.constructor` | ext/uspi/lib/usbconfigparser.c:26-126 | the parser is valid exactly for accepted buffers, and then stands on their first descriptor |
| `ConfigParsers.Parser.CheckDescriptor` | ext/uspi/lib/usbconfigparser.c:66-114 | a descriptor passes exactly if it fits, has the length of its kind and may follow the one before |
| `ConfigParsers.Parser.Validate` | ext/uspi/lib/usbconfigparser.c:61-125 | the loop over the descriptors gives the verdict of `Check` |
| `ConfigParsers.Parser.GetDescriptor` | ext/uspi/lib/usbconfigparser.c:154-193 | the cursor moves as `Fetch` says, the in-bounds assertion holds |
| `Mmu.VirtAddrProperties` | src/memory/mmu.rs:149-169 | the first range that contains the address decides; otherwise identity and normal memory; an error above the maximum |
| `Mmu.WalkMeans` | src/memory/mmu.rs:350-399 | range by range what the hardware sees: where an address leads, RW_EL1 or RO_EL1 and never EL0, outer shareable device memory and inner shareable DRAM, execute-never; ordinary memory elsewhere |
| `Mmu.TableDecodes` | src/memory/mmu.rs:337-347 | a table descriptor leads back to its table |
| `Mmu.PageDecodes` | src/memory/mmu.rs:350-399 | a page descriptor decodes to its output page, memory type, access permissions, shareability and execute-never bit |
| `Mmu.AlignedUniform` | src/memory/mmu.rs:149-169 | with aligned ranges, every page has the properties of its first byte throughout |
| `Mmu.TranslationTables.Populate` | src/memory/mmu.rs:419-434 | the nested loops fill every entry of both levels, if and only if the layout covers the address space |
| `Mmu.WalkRefinesLayout` | src/memory/mmu.rs:419-434 | walking the filled tables gives the layout's output address and attributes at every address, for aligned ranges |
| `Mmu.AlignmentExactly` | src/memory/mmu.rs:149-169 | for ranges that do not overlap and differ in attributes, the walk agrees everywhere if and only if all ranges and offsets are aligned |
| `Mmu.KernelLayoutExactly` | src/memory.rs:120-183 | the kernel's three ranges agree with the tables everywhere if and only if their bounds are aligned |
| `Mmu.HeapEndBreaks` | src/memory.rs:222-227 | a heap end that is a multiple of 64 KiB, used as inclusive, makes the page behind the heap non-cacheable |
| `KernelTimers.Timer.StartKernelTimer` | ext/uspi/env/lib/timer.c:158-192 | the first free slot is taken, as `Started` says |
| `KernelTimers.Timer.CancelKernelTimer` | ext/uspi/env/lib/timer.c:194-200 | the slot is emptied |
| `KernelTimers.CancelledNeverFires` | ext/uspi/env/lib/timer.c:194-200 | a pending timer that is cancelled never fires, whatever happens before and after |
| `KernelTimers.CancelExactly` | ext/uspi/env/lib/timer.c:194-200 | exactly the slot of the handle is emptied |
| `KernelTimers.Timer.PollKernelTimers` | ext/uspi/env/lib/timer.c:254-279 | elapsed timers fire in slot order, with what their handlers start and cancel, as `PolledFrom` says |
| `KernelTimers.Timer.InterruptHandler` | ext/uspi/env/lib/timer.c:281-312 | a tick advances the 32 bit counters and polls |
| `KernelTimers.ElapsedWhenDue` | ext/uspi/env/lib/timer.c:268 | from its acceptance on, the sign test is true exactly on the tick the timer is due, across wrap-around |
| `KernelTimers.FiresOnceWhenDue` | ext/uspi/env/lib/timer.c:158-312 | a timer accepted with delay 1 to 2^31 - 1 and not cancelled fires exactly once, on the tick that is due, whatever handlers do |
| `KernelTimers.SecondsAreTenTicks` | ext/uspi/env/lib/timer.c:306-309 | until the tick count wraps around, ten ticks are one second |
| `KernelTimers.FiresOnce` | ext/uspi/env/lib/timer.c:158-312 | every accepted timer that is not cancelled fires exactly once, on a tick given by its delay and by whether the poll had still to come to its slot |
| `KernelTimers.FiresWhenDueExactly` | ext/uspi/env/lib/timer.c:158-312 | a timer fires on the tick its delay says if and only if the delay is 1 to 2^31, or below 2^31 when the poll had still to come to its slot |
| `KernelTimers.WrongTick` | ext/uspi/env/lib/timer.c:268 | with delay 0 or above 2^31 a timer fires on the next tick |
| `KernelTimers.WrongTickAhead` | ext/uspi/env/lib/timer.c:268 | with a delay of 2^31 or more a timer started ahead of the poll fires at once |
| `KernelTimers.HandleExactly` | ext/uspi/env/lib/timer.c:158-192 | no handle is given out if and only if all 20 slots are pending |
| `PendingInterrupts.PendingIRQs.Next` | src/bsp/device_driver/bcm/interrupt_controller.rs:38-49 | the lowest pending interrupt is yielded and dropped |
| `PendingInterrupts.AscendingExactly` | src/bsp/device_driver/bcm/interrupt_controller.rs:38-49 | what is yielded is every set bit, once, in ascending order |
| `PendingInterrupts.PeripheralIC.Enable` | src/bsp/device_driver/bcm/interrupt_controller/peripheral_ic.rs:109-122 | exactly this interrupt is enabled |
| `PendingInterrupts.PeripheralIC.Disable` | src/bsp/device_driver/bcm/interrupt_controller/peripheral_ic.rs:124-134 | exactly this interrupt is disabled |
| `PendingInterrupts.PeripheralIC.RegisterHandler` | src/bsp/device_driver/bcm/interrupt_controller/peripheral_ic.rs:94-107 | a handler is registered if and only if the slot is free |
| `PendingInterrupts.PeripheralIC.HandlePendingIrqs` | src/bsp/device_driver/bcm/interrupt_controller/peripheral_ic.rs:152-172 | handlers of the pending interrupts are called in ascending order up to the first without one |
| `PendingInterrupts.CallsExactly` | src/bsp/device_driver/bcm/interrupt_controller/peripheral_ic.rs:157-170 | those are the handlers of the first interrupts in order, up to the first without a handler |
| `PendingInterrupts.HandledExactly` | src/bsp/device_driver/bcm/interrupt_controller/peripheral_ic.rs:79-84 | number i is yielded if and only if bit i % 32 of register 1 + i / 32 is set, the split `enable` and `disable` use |
| `Formatters.TString.ReserveSpace` | ext/uspi/lib/string.c:407-435 | afterwards there is room for that many characters and a NUL, and the text is unchanged |
| `Formatters.TString.PutChar` | ext/uspi/lib/string.c:382-392 | the character is appended that many times |
| `Formatters.TString.PutString` | ext/uspi/lib/string.c:394-405 | the string is appended |
| `Formatters.TString.PutField` | ext/uspi/lib/string.c:276-299 | a signed text is appended in a field of the given width |
| `Formatters.TString.PutArgument` | ext/uspi/lib/string.c:238-369 | the text of one conversion is appended |
| `Formatters.TString.FormatV` | ext/uspi/lib/string.c:171-380 | the buffer holds exactly the concatenation of the formatted pieces, and the final NUL is in bounds |
| `Formatters.ReadsBack` | ext/uspi/lib/string.c:197-227 | a conversion is read with exactly the flags, width and letter it was written with |
| `Formatters.FieldMeans` | ext/uspi/lib/string.c:346-362 | a field is as wide as asked for; padding stands right of a left-justified text and left of any other, as zeros only before unsigned numbers |
| `Formatters.BodyMeans` | ext/uspi/lib/string.c:238-345 | the text of a number reads back as it in base 8, 10 or 16, with a minus sign before negative ones and capital letters for `X` |
| `Formatters.Scan` | ext/uspi/lib/string.c:197-227 | flags, width and letter of a conversion are read, ending at its letter |
| `Formatters.FormatsCompose` | ext/uspi/lib/string.c:171-380 | formatting two formats in a row gives the two texts in a row |
| `Formatters.FindDivisor` | ext/uspi/lib/string.c:441-451 | the divisor is a power of the base, at most the number, without overflow |
| `Formatters.Ntoa` | ext/uspi/lib/string.c:437-472 | the text of a number of at most 11 digits and a NUL are written within 12 characters |
| `Formatters.NumBufExactly` | ext/uspi/lib/string.c:234 | the number buffer suffices if and only if the number has at most 11 digits, as every 32 bit number has |
| `Formatters.LongOverflows` | ext/uspi/lib/string.c:336-346 | 100000000000 is the smallest number with which `%lu` needs more |
| `Digits.NumeralIsRight` | ext/uspi/lib/string.c:437-472 | the digits stand for the number and have no leading zero |
| `Digits.NumberReads` | ext/uspi/lib/string.c:453-468 | the characters read back as the number, without a leading zero, in the case asked for |
| `Digits.NumeralUnique` | ext/uspi/lib/string.c:437-472 | no other digits without leading zero stand for it |
| `Digits.FromTopIsNumeral` | ext/uspi/lib/string.c:453-468 | digits found from the top with the largest fitting divisor are the numeral |
| `Digits.LengthExactly` | ext/uspi/lib/string.c:437-472 | a number has at most k digits if and only if it is below the k-th power of the base |
| `Digits.FitsNumBuf` | ext/uspi/lib/string.c:437-472 | 32 bit numbers in base 8 or more have at most 11 digits |
| `HubTree.EnumeratePorts` | ext/uspi/lib/usbstandardhub.c:154-372 | when enumeration succeeds, and which ports end with a device, with which speed and translator |
| `HubTree.DetectDevices` | ext/uspi/lib/usbstandardhub.c:184-290 | which ports get a device, and when detection gives up |
| `HubTree.TranslatorIsFirstSlowdown` | ext/uspi/lib/usbstandardhub.c:258-280 | a device's translator is the hub and port of the first step from high speed to a slower one on its path, and absent without one |
| `HubTree.FlagMeansAddressExactly` | ext/uspi/lib/dwhcixferstagedata.c:50 | split flag and nonzero hub address agree if and only if that hub's address is not 0 |
| `Division.Divide` | ext/uspi/env/lib/libhelper.c:27-64 | quotient and rest of 32 bit division, without overflow of the 64 bit divisor, both loops terminating |

## Left out

- The loops of `switch` and `exit_task` around `schedule` are steps of the interleaving, not methods: they need not end when nothing ever becomes runnable.
- The global lock is atomicity, and the clock stands still within one critical section. Time does not run backwards.
- User code does not write TPIDR_EL0 to itself; an unknown system call, which makes the kernel panic, is not modelled.
- Tasks are values that move within the queue, so the boxed context and polling closure have no identity of their own. Stacks are opaque tokens; their contents, TLB flushes and the exception entry code are not part of the model.
- 64 bit overflow of pids, of the sleep time in microseconds and of clock values is not modelled.
- MMIO, barriers, caches, busy waits, delays and wall-clock rates. `HZ` differs between ext/uspi/include/uspios.h and ext/uspi/env/include/uspienv/timer.h, so timer claims count ticks.
- The bits of a channel's status are booleans, those of the error mask one flag. The assertion that a periodic transfer does not report MDATA is not modelled.
- Buffer addresses are not bounded to 32 bits. A non-split transfer of 2^19 bytes or 2^10 packets and more is truncated by the transfer size register; the controller's contract is stated for the truncated counts.
- A delay timer that cannot be had leaves its channel allocated for ever, in the code as in the model; no claim is made that stages end.
- ControlTransfers.ControlDiscipline: requires of split devices that packets hold the 8 setup bytes, as USB 2.0 section 5.5.3 demands; and that only blocking requests use a control endpoint, as ext/uspi/lib/dwhcidevice.c:350 asserts. The PID of a transaction is taken when it is answered; it does not change while the stage is alone on its endpoint.
- Device initialization, root port handling, the temporary buffer of a stage and the lookup of the endpoint object.
- What callers store in blocks is not modelled, nor the debug counters. Freed blocks larger than 0x80000 are never reused; the model counts them as leaked.
- PageAllocators.Allocator.constructor: requires a base that is a multiple of 16 and memory that reaches to 0x500000, since the allocator's own alignment assertion and its size computation fail otherwise.
- ConfigParsers.Parser.constructor: requires that the loop returns, which it does exactly unless `ConfigParsers.HangsExactly` applies. Reading past the end of the buffer for the class byte of a truncated interface descriptor gives 0 here; such a descriptor is refused either way.
- ConfigParsers.Parser.Validate: requires the same, for a method that returns.
- The memory type of attribute index 2 (non-cacheable DRAM) is taken from its name; `set_up_mair` does not configure it.
- Mmu.AlignmentExactly: is stated for ranges that do not overlap and differ in attributes, as those of the kernel; misaligned ranges with equal attributes or overlapping ones can cancel each other.
- Nothing is claimed about the seconds counter once the 32 bit tick count has wrapped around, when the remainder by ten jumps.
- Formatters.TString.FormatV: requires a format that does not end within a conversion, where the code reads past its NUL, arguments without NUL characters, numbers that fit the number buffer, and a text that fits 64 bit lengths. `malloc` always succeeds.
- Formatters.Ntoa: requires that the number buffer suffices, for which `Formatters.NumBufExactly` gives the exact condition.
- Formatters.TString.PutArgument: requires the same of numbers after an `l`.
- HubTree.EnumeratePorts: leaves out memory management and the 8 bit address counter, which wraps to 0 after 255 devices. That a port with a status is powered is asserted by the code and required here.
- Division by zero, which is an assertion of the code, and `DivideModulo` wrappers.
- Ethernet, keyboard, mouse, MIDI, gamepad, mass storage, screen, UART, mailbox, logging and network code: input and output, with little state of their own.
