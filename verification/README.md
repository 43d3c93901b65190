# ZeOS

ZeOS is a small single-CPU kernel with a two-thread game on top of it. This project models both and proves what
they rely on. Every trap goes through an interrupt gate, so a system call or an interrupt runs without being
interrupted (zeos/interrupt.c:86-89); a trap is one atomic step of the model, and runs are sequences of traps of any
length, in any order, with any clock readings.

The project has five parts.

**Tasks, scheduler, semaphores** (`scheduling*.dfy`, `fairness.dfy`, `sem_answers.dfy`, `call_answers.dfy`,
`round_robin.dfy`, `tick_law.dfy`, `tick_accounts.dfy`). The kernel's scheduling data as a transition system. A
task's saved kernel stack is an abstract point of continuation: back from a call, at the end of sem_wait, or at the
end of the clock handler.

**Frames, page tables, TLB** (`paging*.dfy`, `page_copies.dfy`, `utils.dfy`, `mm.dfy`). The specification speaks of
phys_mem, the ten page tables, cr3, and `seen`: every translation of the current address space that has existed since
cr3 was last written. The TLB may hold any of them, and a copy may use any of them. The class `Memory` has the
arrays, the loops and the bytes.

**The whole kernel** (`kernel_spec.dfy`, `kernel_runs.dfy`, `kernel_laws.dfy`, `kernel_cases.dfy`,
`kernel_leftovers.dfy`, `kernel_steps.dfy`, `list.dfy`, `kernel.dfy`). The two together, one trap a step, and the
class `System`: task array, semaphore table, and all queues as circular intrusive lists over one heap of nodes. Its
methods are the system calls and interrupts, and each is proved to make exactly the specified step; its boot sequence
is proved to reach exactly the state in which the runs start. A run ends before a trap that leads out of the model: a
fork that would copy unmapped data pages, a createthread that finds no page for the stack, a sem_init with a value
that is no int, a sem_signal of a counter at INT_MAX.

**The two threads of the game** (`ring.dfy`, `protocol.dfy`). The frame ring and the keyboard ring, and the protocol
of main and thread_dump on top of the kernel: semaphore 0, alloc, dealloc and the ring under arbitrary preemption.

**The board** (`board.dfy`, `game_*.dfy`, `libc.dfy`). Each pass over the board as one simultaneous step, the
in-place scans, the rules cell by cell (`game_laws.dfy`), and whole games.

The kernel's laws that can fail are stated with the exact condition, and for each a lemma gives a run from boot, or an
event at boot, that breaks it:

- sem_signal finds a waiter where it looks for one: `SignalSafeExactly`, `SafeAfterInitExactly`; `SignalCanOverflow`.
- A task is never switched to itself: `SwitchesToItselfExactly`; `YieldAloneAtBoot`.
- No frame is lost: `NoneLostExactly`; `ForkLosesAFrame` with the window in use (logical pages 284..303 are also heap
  pages), `LitteredForkLosesFrames` and `FailedForkLosesFrames` with a slot that still maps pages.
- The TLB is right and tasks are isolated: `TlbIsRightExactly`, `UsersAreIsolatedExactly`; `StaleForkHappens`.
- Tasks keep their data pages: `DataIsMappedExactly`; `ExitStarvesThread`.
- main's alloc succeeds and no frame of the game is dropped: `AllocSucceedsExactly`, `DropsOnlyWhenFull`; `AllocFails`,
  `FrameIsDropped`.

The failing side of `ForkRestoresExactly` is met in no run: `free_frame` ignores frame 256, which is harmless because
of the invariant, proved for all runs, that 256 is init's first code frame and in use. Nor is that of
`CopyIsRightExactly`: the pages that fork copies do not overlap. The comment at zeos/sys.c:118 speaks of page
TOTAL_PAGES-1 as the temporary page; the code uses the pages 284..303, and so does the model.

## Model

| member | source | states |
|---|---|---|
| `Accounting.ChargeKeepsOrigin` | zeos/p_stats.c:3-13 | Whichever counter is charged and whatever the clock reads, wrapped or not, the tick from which the counters add up to the elapsed ticks does not move: no tick is lost or counted twice. |
| `SchedulingInvariant.QueuesDisjoint` | zeos/sched.c:110-148 | Under the one-place invariant the running task and the idle task are in no queue, and no task is in two. |
| `SchedulingInvariant.DispatchInv` | zeos/sched.c:126-148 | From any state in which the running task has been put away, sched_next_rr ends in a state that satisfies the whole invariant. |
| `SchedulingInvariant.StepInv` | zeos/sys.c:62-480 | Every system call and interrupt keeps the invariant: each of the ten task structs is in exactly one place; a semaphore's queue is as long as its counter is below zero; the running task has ST_RUN and 1 <= remaining_quantum <= its quantum; `destroyed` marks only ready tasks inside sem_wait. |
| `SchedulingInvariant.EnabledIsSafe` | zeos/sys.c:454-464 | sem_signal never takes an element from an empty list. |
| `SchedulingInvariant.SwitchStep` | zeos/sched.c:126-158 | A call that gives up the CPU changes exactly what a dispatch changes: the picked task, the charged ticks, the head of the readyqueue. |
| `SchedulingRuns.InvAlways` | zeos/sched.c:212-230 | The invariant holds in every state of every run from boot. |
| `SchedulingRuns.NeverUnsafe` | zeos/sys.c:454-464 | In every state of every run, no event that may happen takes from an empty list. |
| `SchedulingRuns.SemaphoreLawAlways` | zeos/sys.c:430-464 | In every state of every run, an initialised semaphore has let through exactly min(waits, initial value + signals) callers, in the order in which they called; the others wait in that order; counter = value + signals - waits. |
| `SchedulingRuns.DeficitsAreBounded` | zeos/sys.c:439-446 | All semaphores together are at most NR_TASKS - 1 below zero. |
| `SchedulingRuns.SignalSafeExactly` | zeos/sys.c:454-463 | Under the invariant, sem_signal is safe if and only if the increment of the counter does not overflow. |
| `SchedulingRuns.SignalCanOverflow` | zeos/sys.c:430-463 | In the run sem_init(n, INT_MAX) the next sem_signal(n) overflows, for every n. |
| `SchedulingRuns.InitExactly` | zeos/sys.c:430-437 | sem_init keeps the invariant if and only if the value fits in an int. |
| `SchedulingRuns.SafeAfterInitExactly` | zeos/sys.c:430-463 | For every value, the sem_signal that follows a sem_init is safe if and only if the value is below INT_MAX: a larger one is stored as a negative counter without waiters. |
| `SemaphoreAnswers.MarksAlwaysTrue` | zeos/sys.c:466-480 | In every run, a task carries the `destroyed` mark exactly when sem_destroy released it and it has not run since; copying task structs in fork and createthread keeps that so. |
| `SemaphoreAnswers.BlockedWaitAnswers` | zeos/sys.c:439-452 | When a caller that blocked in sem_wait gets the CPU again, the answer is -1 if sem_destroy released it and 0 if sem_signal did. |
| `SemaphoreAnswers.ImmediateWaitAnswers` | zeos/sys.c:439-452 | A sem_wait that does not block answers 0 at once. |
| `CallAnswers.AnswersAtOnce` | zeos/sys.c:62-480 | Every call that keeps the CPU answers at once what the manual says: fork the child's PID, -12 or -11; createthread 0 or -12; terminatethread the error of dealloc; the semaphore calls 0 or -1; an interrupt leaves the register alone. |
| `CallAnswers.OthersKeepAnswers` | zeos/sys.c:62-480 | No call changes anything of another task in use but its `destroyed` mark. |
| `CallAnswers.ResumedAnswers` | zeos/sys.c:57-60 | In every run, for an observer who knows only the events and who has the CPU: a task that fork made gets 0 when it is on the CPU for the first time, a task that yielded gets 0 when it is back, and a program that the clock interrupted finds in its register what it had there. |
| `CallAnswers.ForkAnswersTwice` | zeos/sys.c:57-154 | In every run, a fork that succeeds answers twice: the child's PID to the caller at once, and 0 to the child whenever it first has the CPU. |
| `Fairness.WaitShrinks` | zeos/sched.c:93-158 | For a ready task, remaining_quantum plus the quanta of the tasks ahead never grows, and drops on every clock tick and every dispatch, until the task runs. |
| `Fairness.ReadyTaskRuns` | zeos/sched.c:126-158 | In every run, the task at position k of the readyqueue runs before 10 * (k + 1) more clock ticks. |
| `Fairness.SwitchesToItselfExactly` | zeos/sched.c:253-266 | The only event in which a task is switched to itself is a yield with an empty readyqueue. |
| `Fairness.YieldAloneAtBoot` | zeos/sched.c:253-266 | Already a yield of init right after boot is one. |
| `Fairness.IdleMeansStuck` | zeos/sched.c:131-138 | When the idle task runs, every other task struct is free or waits on a semaphore. |
| `Fairness.IdleForever` | zeos/sched.c:131-138 | Once the idle task runs, it runs forever; the readyqueue stays empty and no queue changes. |
| `TickLaw.OriginStep` | zeos/sched.c:110-148 | No event moves the origin of a task's tick accounts, except the events that start a task. |
| `TickLaw.TicksAlwaysAccounted` | zeos/p_stats.c:3-13 | In every state of every run and for any clock readings, user + system + ready + blocked ticks of a task in use equal, modulo 2^32, the ticks from its start to its last update; fork resets the start, createthread copies it. |
| `TickAccounts.TicksAttributed` | zeos/p_stats.c:3-13 | In every state of every run: user_ticks, system_ticks and ready_ticks of a task in use are, each modulo 2^32, the sums of the spans in an observer's diary in which the task was in user mode, in the kernel, and off the CPU; total_trans is the number of times it got the CPU; blocked_ticks is 0. Only interrupts end a span in user mode, so the user time before a system call counts as kernel time. |
| `TickAccounts.InterruptCharges` | zeos/sys.c:37-45 | An interrupt that does not switch adds the ticks since the last reading to user_ticks, those of its handler to system_ticks, and nothing to ready_ticks. |
| `RoundRobin.ReadyIsFifo` | zeos/sched.c:126-148 | In every state of every run: the tasks that ever joined the readyqueue, by the events that make them ready, are those that the scheduler took, in the same order, followed by the readyqueue. |
| `RoundRobin.QuantumAlways` | zeos/sched.c:93-108 | In every state of every run, remaining_quantum is 10 less the ticks that the running task has seen since it got the CPU, modulo 10. |
| `RoundRobin.PreemptsExactly` | zeos/sched.c:93-108 | The clock takes the CPU away if and only if it is the task's tenth, twentieth, ... tick and another task is ready. |
| `RoundRobin.TaskAfter` | zeos/sys.c:62-480 | What every event does to a task's identifiers, directory and state: only exit changes a PID, to -1. |
| `RoundRobin.IdsAlways` | zeos/sys.c:24-25 | In every state of every run: no identifier is above its counter, tasks with the same PID have the same directory, and a task off the CPU has ST_READY, or ST_RUN if it is inside sem_wait. |
| `RoundRobin.ForkedPidIsNew` | zeos/sys.c:129 | The PID of a forked process is no other task's. |
| `Paging.FreeListSound` | zeos/mm.c:214-227 | The frames alloc_frame can hand out are free and even, and it hands them out in increasing order. |
| `Paging.FreeListComplete` | zeos/mm.c:214-227 | Every free even frame from 256 on is one that alloc_frame can hand out. |
| `PagingInvariant.FreeFramesAreNobodys` | zeos/mm.c:214-227 | A frame that alloc_frame would hand out is in no data or heap entry of any table and is no shared code frame. |
| `PagingInvariant.FreedFramesAreOwned` | zeos/mm.c:242-246 | A frame that a data or heap entry gives to free_frame is 0 or above 256, so that ignoring frame 256 does no harm. |
| `PagingInvariant.AllocOwn` | zeos/sys.c:244-272 | alloc keeps frame ownership: every data or heap entry, of whatever table, names a frame of its own. |
| `PagingInvariant.DeallocOwn` | zeos/sys.c:279-297 | dealloc keeps frame ownership. |
| `PagingInvariant.ExitOwn` | zeos/sys.c:198-206 | exit keeps frame ownership over all slots' tables, the freed slot's included. |
| `PagingInvariant.ForkOwn` | zeos/sys.c:82-127 | fork keeps frame ownership, whether it succeeds or rolls back. |
| `PagingLaws.AllocThenDealloc` | zeos/sys.c:244-297 | alloc and then dealloc of the page it returned restores phys_mem and every table exactly, and dealloc answers 0. |
| `PagingLaws.CanForkCounts` | zeos/mm.c:214-227 | Twenty frames can be allocated if and only if at least twenty even frames from 256 on are free. |
| `PagingLaws.ForkRestoresExactly` | zeos/sys.c:95-106 | A fork that fails restores phys_mem if and only if frame 256 is in use. |
| `PagingLaws.ForkAllOrNothing` | zeos/sys.c:82-127 | A fork that finds fewer than twenty even free frames leaves phys_mem entry by entry as it was, changes no table but the child's, maps nothing new there, and leaves all tables as they were if and only if the pages that it filled were unmapped there. |
| `PagingLaws.ForkIsolates` | zeos/sys.c:82-127 | After a fork that succeeds the child's twenty data pages are in frames that were free and that no other entry of any table names; its code pages are the parent's frames; its heap entries are those that the slot's last owner left, so that it maps nothing more if and only if that owner's heap was empty; the parent keeps its table if and only if its window was unmapped. |
| `PagingLaws.OnlyOwner` | zeos/mm.c:249-268 | Two entries that name the same data frame are the same entry. |
| `PagingLaws.ForkLosesNoneExactly` | zeos/sys.c:82-127 | A successful fork loses no frame if and only if the parent's window and the child slot's data pages are unmapped. |
| `PagingLaws.FailedForkLosesNoneExactly` | zeos/sys.c:95-106 | A failing fork loses no frame if and only if the child's slot maps none of the pages it tries to fill. |
| `PagingLaws.AllocCoherent` | zeos/sys.c:244-272 | alloc cannot make the TLB wrong. |
| `PagingLaws.DeallocCoherent` | zeos/sys.c:279-297 | After dealloc's flush no stale translation is left. |
| `PagingLaws.ForkCoherentExactly` | zeos/sys.c:82-127 | fork keeps a TLB that cannot be wrong if and only if it succeeds (and flushes), or the child's table is not the current one, or no frame was free at all. |
| `PagingLoops.RollingEnds` | zeos/sys.c:95-106 | The rollback loop ends in the state of a failed fork. |
| `PagingLoops.BootFrames` | zeos/mm.c:81-106 | Boot gives init's page 256 + k the frame 256 + 2k; in particular its first code page takes frame 256 for good. |
| `PagingLoops.BootMemInv` | zeos/mm.c:134-142 | The memory that the kernel boots with satisfies the ownership and TLB invariants, and no frame is lost. |
| `PageCopies.CopyStep` | zeos/sys.c:119-125 | One round of fork's copy loop: whichever translation the TLB uses, the child's frame gets the bytes of the parent's page and no frame outside the copied ones changes. |
| `Utils.CopyData` | zeos/utils.c:6-20 | The two loops copy forward in words and then bytes; a size that is not positive copies nothing. |
| `Utils.CopyIsRightExactly` | zeos/utils.c:6-20 | copy_data makes a true copy of every memory if and only if the destination does not begin inside the source. |
| `Utils.LastByteIsLost` | zeos/utils.c:6-20 | When it does begin inside, the last source byte is overwritten before it is read. |
| `MemoryManager.Memory.constructor` | zeos/mm.c:134-142 | init_mm: kernel frames and pages only, the two guard pages not present, the address space of task 0. |
| `MemoryManager.Memory.InitTablePages` | zeos/mm.c:55-76 | Every table maps the kernel pages one to one, without page 0 and the guard pages, and nothing else. |
| `MemoryManager.Memory.InitFrames` | zeos/mm.c:198-210 | Exactly the frames below 256 are in use. |
| `MemoryManager.Memory.SetUserPages` | zeos/mm.c:81-106 | Twenty-eight consecutive pages get the first free frames, in order; nothing else changes. |
| `MemoryManager.Memory.AllocFrame` | zeos/mm.c:214-227 | Hands out the first free candidate and marks it, or answers -1 and changes nothing if there is none. |
| `MemoryManager.Memory.FreeFrame` | zeos/mm.c:242-246 | Frees frames 257..1023 and ignores all others. |
| `MemoryManager.Memory.GetFrame` | zeos/mm.c:266-268 | The frame of a page table entry. |
| `MemoryManager.Memory.SetSsPag` | zeos/mm.c:249-257 | Maps one page in one table; in the current address space the processor may cache the new translation, and old ones stay cached. |
| `MemoryManager.Memory.DelSsPag` | zeos/mm.c:260-263 | Unmaps one page in one table; the TLB keeps what it has. |
| `MemoryManager.Memory.SetCr3` | zeos/mm.c:109-112 | Changes the address space and empties the TLB. |
| `MemoryManager.Memory.AllocK` | zeos/sys.c:244-272 | The loops compute the specification Alloc: the first heap hole gets the first free frame, or -ENOMEM and no change. |
| `MemoryManager.Memory.DeallocK` | zeos/sys.c:279-297 | -EACCES outside the heap, -EFAULT for an unmapped page, else the frame is freed, the page unmapped and the TLB flushed. |
| `MemoryManager.Memory.AllocDataPages` | zeos/sys.c:82-106 | Fork's allocation loop with its rollback loop: twenty pages filled, or everything given back. |
| `MemoryManager.Memory.ShareKernelAndCode` | zeos/sys.c:108-117 | The child's kernel and code entries become the parent's. |
| `MemoryManager.Memory.CopyPage` | zeos/utils.c:6-20 | copy_data between two pages of the current address space, through any translations that the TLB may hold. |
| `MemoryManager.Memory.CopyThroughWindow` | zeos/sys.c:121-124 | Map, copy, unmap: one page through the temporary window. |
| `MemoryManager.Memory.CopyDataPages` | zeos/sys.c:118-127 | The copy loop: with a right TLB and an unused window, all twenty child frames hold the bytes of the parent's pages and no other frame has changed. |
| `MemoryManager.Memory.Fork` | zeos/sys.c:82-127 | The memory half of fork computes the specification, and copies the bytes; the caller needs its data pages only if the copy loop is reached. |
| `MemoryManager.Memory.Exit` | zeos/sys.c:198-206 | The loop of exit computes the specification. |
| `KernelSpec.StepDirs` | zeos/sys.c:77-80 | A task keeps its page directory; fork gives the child that of its slot, createthread that of its creator. |
| `KernelSpec.NextInv` | zeos/sys.c:62-480 | Every trap of the whole kernel, scheduler and memory together, keeps both invariants and cr3 = the running task's directory. |
| `KernelRuns.KernelInvAlways` | zeos/sched.c:185-230 | They hold in every state of every run from boot. |
| `KernelRuns.FramesAreOwned` | zeos/mm.c:214-246 | In every state of every run, a nonzero data or heap entry of any of the ten tables names an even frame in 272..1022 that is in use, that no other entry names, that is no shared code frame, and that alloc_frame would not hand out. |
| `KernelRuns.CoherentExactly` | zeos/sys.c:95-127 | One trap of the whole kernel leaves a right TLB right if and only if it is not a fork that fails into the table that is the current one, after it has filled a page: that path returns without set_cr3. |
| `KernelRuns.TlbIsRightExactly` | zeos/sys.c:95-127 | For every run from boot: every cached translation agrees with the current page table whenever control is in user mode, if and only if no trap of the run is such a fork. Runs contain any traps but a fork that would copy unmapped data pages and a createthread that finds no page for the stack. |
| `KernelRuns.IsolatedExactly` | zeos/sys.c:82-127 | One trap that starts with a right TLB: afterwards every data or heap translation that the TLB may hold leads to a frame in use, named by no user entry of any of the ten tables but that page of the current one, if and only if the trap is not such a fork. |
| `KernelRuns.UsersAreIsolatedExactly` | zeos/sys.c:82-127 | That holds in every state of a run if and only if no trap of the run is such a fork. |
| `KernelRuns.TlbIsNeverWrong` | zeos/sched.c:244-257 | Corollary: no such fork happens in a run in which no slot is freed while threads live in its address space. |
| `KernelRuns.FedExactly` | zeos/sys.c:95-106 | One trap: if every task in use but the idle one has its data pages mapped before it, so has every one after it, if and only if the trap is neither an exit while another task lives in the address space nor a fork that fails, after it has filled a page, into the table of a free slot in which a task lives. |
| `KernelRuns.DataIsMappedExactly` | zeos/sys.c:194-206 | Every such task has its data pages in every state of a run if and only if no trap of the run is one of those two. |
| `KernelRuns.DataAlwaysMapped` | zeos/sys.c:194-206 | Corollary: in a run in which no slot is freed while threads live in its address space and no task exits while others share its own, every task but the idle one may fork at any time. |
| `KernelCases.ExitStarvesThread` | zeos/sys.c:118-127 | A run in which a fork faults: init starts a thread and exits; a task struct and twenty frames are free, but the thread's data pages are unmapped. |
| `KernelRuns.NoneLostExactly` | zeos/sys.c:194-206 | A trap loses no frame if and only if it is not an unclean fork. |
| `KernelRuns.NoFrameIsLost` | zeos/sys.c:82-127 | In every run of clean forks, every frame in use is in some table. |
| `KernelCases.ForkLosesAFrame` | zeos/sys.c:118-127 | Boot, alloc, fork: the window goes over the allocated page, and its frame is in no table any more. |
| `KernelCases.StaleForkHappens` | zeos/sys.c:95-106 | A run from boot that ends in a wrong TLB: init starts a thread and exits, the thread starts threads until only init's task struct is free and allocates until nineteen frames are, and forks. |
| `KernelLeftovers.LitteredForkLosesFrames` | zeos/sys.c:354-370 | A run in which the freed slot still maps pages: init forks, the child allocates twice and terminates as a thread, init forks until that slot is the only free one. With the window unused, the next fork loses the frames of the old data pages, and its child maps a heap page of the old owner. |
| `KernelLeftovers.FailedForkLosesFrames` | zeos/sys.c:95-106 | The same with nineteen frames left: the fork that fails loses frames too. |
| `KernelRuns.ForkAnswersExactly` | zeos/sys.c:62-106 | fork answers -ENOMEM if and only if there is no free task struct and -EAGAIN if and only if there is one but fewer than twenty even frames are free, whether or not the caller has data pages; then every frame is as it was and the struct is back in the freequeue. Otherwise the answer is the PID of the new task, which is last in the readyqueue. |
| `KernelLaws.AllocAnswersExactly` | zeos/sys.c:244-277 | alloc maps the lowest unmapped heap page to the lowest free even frame and answers with the page's address, 4096 times its number; if and only if the heap is full or no such frame is free, it changes nothing and answers -12. |
| `KernelLaws.DeallocAnswersExactly` | zeos/sys.c:279-303 | dealloc answers -13 if and only if the page is outside the heap, -14 if and only if it is in the heap and not mapped, and changes nothing then; else it answers 0, unmaps that page and frees its frame. |
| `KernelLaws.ThreadGetsPage` | zeos/sys.c:324 | createthread gives the thread the page that alloc would have answered. |
| `KernelLaws.ExitGivesBack` | zeos/sys.c:194-206 | exit unmaps exactly the caller's twenty data pages and frees exactly their frames. |
| `KernelLaws.TerminateGivesBack` | zeos/sys.c:354-370 | terminatethread answers dealloc's errors and changes nothing else; else it unmaps exactly the stack page, frees its frame, and the task struct is the last of the freequeue. |
| `KernelLaws.KernelAlwaysMapped` | zeos/mm.c:55-76 | In every state of every run, every table names frame p for kernel page p, and maps it unless it is page 0 or a guard page, which fork maps too. |
| `KernelLaws.CodeAlwaysMapped` | zeos/mm.c:81-106 | In every state of every run, the table of every task in use but the idle one maps the eight code pages to the frames 256, 258, ..., 270. |
| `IntrusiveList.InitListHead` | zeos/list.c:6-10 | The list becomes empty; all other lists in the node heap stay as they are. |
| `IntrusiveList.RingInserted` | zeos/list.c:18-26 | The links that __list_add leaves are those of the ring with the entry at that place. |
| `IntrusiveList.LinkBetween` | zeos/list.c:18-26 | __list_add between two neighbours at any position inserts the entry there, next and prev both. |
| `IntrusiveList.ListAdd` | zeos/list.c:36-39 | list_add is prepend; every other list keeps its sequence. |
| `IntrusiveList.ListAddTail` | zeos/list.c:50-53 | list_add_tail is append; every other list keeps its sequence. |
| `IntrusiveList.RingWithout` | zeos/list.c:62-66 | The links that __list_del leaves are those of the ring without the entry. |
| `IntrusiveList.Unlink` | zeos/list.c:62-79 | list_del takes the entry at any position out of the ring and detaches it. |
| `IntrusiveList.ListDel` | zeos/list.c:74-79 | list_del removes exactly that element, keeps the order of the others and every other list; the entry's links are null and it is in no list. |
| `IntrusiveList.ListEmpty` | zeos/list.c:96-99 | True if and only if the sequence is empty. |
| `IntrusiveList.ListFirst` | zeos/include/list.h:131-132 | The first element. |
| `KernelCode.System.Enqueue` | zeos/list.c:50-53 | The slot is appended to the queue; the lists stay well formed. |
| `KernelCode.System.Dequeue` | zeos/sched.c:132-135 | list_first, list_del and list_head_to_task_struct: the first slot leaves the queue, its node detached. |
| `KernelCode.System.RequeueCurrent` | zeos/sched.c:110-124 | update_process_state_rr of the running task: its node is in no list and its state is ST_RUN, so list_del is never called on a detached node. |
| `KernelCode.System.SchedNextRR` | zeos/sched.c:126-148 | Over real lists and arrays, sched_next_rr computes the specification in both halves of the kernel. |
| `KernelCode.System.TaskSwitch` | zeos/sched.c:245-257 | The new current task, in its own address space, with the TLB flushed. |
| `KernelCode.System.GiveUp` | zeos/sched.c:261-266 | force_task_switch computes the specification. |
| `KernelCode.System.ClockInterrupt` | zeos/interrupt.c:36-42 | The clock interrupt with update_sched_data_rr, needs_sched_rr and schedule computes the specification. |
| `KernelCode.System.KeyboardInterrupt` | zeos/interrupt.c:16-51 | The keyboard interrupt charges the ticks, and for a code of 128 or more puts the character of char_map into the keyboard buffer, if there is room; a code behind the end of the table reads the byte that lies there. |
| `KernelCode.DigitKeys` | zeos/interrupt.c:16-32 | The table holds the digits' characters at their keys. |
| `KernelCode.UpperKeys` | zeos/interrupt.c:16-32 | And those of the upper row of letters, |
| `KernelCode.MiddleKeys` | zeos/interrupt.c:16-32 | of the middle row, |
| `KernelCode.LowerKeys` | zeos/interrupt.c:16-32 | of the lower row, |
| `KernelCode.BareKeys` | zeos/interrupt.c:16-32 | no character for the fifteen keys behind them, |
| `KernelCode.PadKeys` | zeos/interrupt.c:16-32 | those of the keypad, |
| `KernelCode.LastKeys` | zeos/interrupt.c:16-32 | and '<' alone among the last fourteen. |
| `KernelCode.System.Yield` | zeos/sys.c:217-221 | sys_yield computes the specification, which makes a yield with an empty readyqueue a return; the code loads a stale register_esp there. |
| `KernelCode.System.ValidSemaphore` | zeos/sys.c:418-428 | Both questions that valid_sem answers. |
| `KernelCode.System.SemInit` | zeos/sys.c:430-437 | For every value, sys_sem_init makes the new scheduler state that of the specification, a value above INT_MAX stored as a negative counter; for the values that may happen in a run it makes the step of the kernel. Re-initialising loses no waiter, because an uninitialised semaphore has none. |
| `KernelCode.System.SemWait` | zeos/sys.c:439-452 | sys_sem_wait, both halves, computes the specification. |
| `KernelCode.System.SemSignal` | zeos/sys.c:454-464 | Whenever the signal is safe, sys_sem_signal makes the new scheduler state that of the specification: list_first is never called on an empty list. In a run it makes the step of the kernel. |
| `KernelCode.System.ReleaseWaiters` | zeos/sys.c:470-476 | The loop of sem_destroy ends, and has appended all waiters to the readyqueue in order, marked. |
| `KernelCode.System.SemDestroy` | zeos/sys.c:466-480 | sys_sem_destroy computes the specification. |
| `KernelCode.System.SysAlloc` | zeos/sys.c:274-277 | sys_alloc computes the specification. |
| `KernelCode.System.SysDealloc` | zeos/sys.c:299-303 | sys_dealloc of any address computes the specification for the page that the address is on. |
| `KernelCode.System.SysExit` | zeos/sys.c:194-214 | sys_exit computes the specification. |
| `KernelCode.System.SysTerminateThread` | zeos/sys.c:354-370 | sys_terminatethread computes the specification for the page of the user stack pointer; the task goes on if that page cannot be freed. |
| `KernelCode.System.SysFork` | zeos/sys.c:62-154 | sys_fork computes the specification in both halves, and the child's frames hold the bytes of the parent's data pages if the TLB is right and the window unused. |
| `KernelCode.System.SysCreateThread` | zeos/sys.c:305-352 | sys_createthread computes the specification. |
| `KernelCode.System.InitFreequeue` | zeos/sched.c:212-224 | All ten task structs are in the freequeue, in order, with PID -1. |
| `KernelCode.System.InitSched` | zeos/sched.c:226-230 | Both queues exist and the readyqueue is empty. |
| `KernelCode.System.InitIdle` | zeos/sched.c:160-181 | The first free task struct becomes the idle task and is in no queue. |
| `KernelCode.System.MakeTask1` | zeos/sched.c:185-200 | The next one becomes init. |
| `KernelCode.System.BootSystem` | zeos/system.c:84-96 | The boot sequence ends exactly in the state in which every run of the model starts. |
| `Rings.Ring.constructor` | zeos/user.c:60-63 | An empty ring. |
| `Rings.Ring.Pending` | zeos/user.c:65-72 | pending_frames is the number of elements. |
| `Rings.Ring.Push` | zeos/user.c:73-80 | push_frame and write_to_buffer append, or drop the element if the ring is full. |
| `Rings.Ring.Pop` | zeos/user.c:81-92 | read_frame and read_from_buffer take the oldest element, and find nothing if and only if the ring is empty. |
| `Rings.Ring.Perform` | zeos/user.c:60-92 | Any sequence of operations on a ring that starts empty leaves the contents, and returns the elements, of the abstract run of that sequence. |
| `Rings.FirstInFirstOut` | zeos/io.c:102-129 | For every sequence of operations, as `Ring.Perform` carries it out: what entered is what was read followed by what is there, never more than the capacity; every other arrival was dropped. |
| `Rings.DropsOnlyWhenFull` | zeos/user.c:73-80 | In every such sequence, nothing is ever dropped if and only if there are never more than capacity unread arrivals. |
| `Protocol.MovesAreReady` | zeos/user.c:187-210 | Whatever the two threads may do next, the kernel allows; createthread finds a page. |
| `Protocol.AllocPages` | zeos/sys.c:244-272 | alloc maps exactly one page that was not mapped, and answers with it. |
| `Protocol.DeallocPages` | zeos/sys.c:279-297 | dealloc of a mapped page answers 0 and unmaps exactly that page. |
| `Protocol.MoveKeeps` | zeos/user.c:187-246 | Every move of either thread and every interrupt keeps: one permit, in the semaphore or with a thread; the mapped heap pages are exactly the dumper's stack, the frame in main's hand, the frame in the dumper's hand, the ring and the dropped frames, each once; and mapped heap pages and free frames together are always the 356 frames that boot leaves free. |
| `Protocol.ProtocolAlways` | zeos/user.c:187-246 | That holds in every state of every preemptive run from boot. |
| `Protocol.OneInside` | zeos/user.c:187-210 | At most one thread is between sem_wait and sem_signal; the semaphore is free exactly when none is. |
| `Protocol.RingIsSound` | zeos/user.c:73-92 | Every pointer in the ring is a mapped heap page, no two are equal, and none is the dumper's stack page, a dropped frame, or the frame in either thread's hand. |
| `Protocol.FreeSucceedsOnce` | zeos/user.c:194-207 | Whenever the dumper frees a frame, dealloc answers 0; afterwards the page is unmapped and no thread knows it. |
| `Protocol.ShownIsMapped` | zeos/sys.c:372-397 | The page that dump_screen reads is mapped. |
| `Protocol.RoomForStack` | zeos/sys.c:305-352 | When main starts the dumper, a page can be allocated for its stack. |
| `Protocol.AllocSucceedsExactly` | zeos/user.c:187-193 | In every state of every run in which main is about to allocate, a frame can be allocated if and only if ring and dropped frames are at most 354. |
| `Protocol.AllocFails` | zeos/user.c:187-193 | There is a run in which that fails: main pushes 355 frames before the dumper reads. |
| `Protocol.NeverIdle` | zeos/user.c:187-210 | One of the two threads always runs: the game never stops for want of a permit. |
| `Protocol.DroppedIsLost` | zeos/user.c:73-80 | A frame that finds the ring full stays mapped forever: it is never freed. |
| `Protocol.FrameIsDropped` | zeos/user.c:73-80 | There is a run in which that happens to a frame: the dumper does not read, and main pushes 65 frames. |
| `GameSteps.DownStep` | zeos/user.c:247-262 | One round of the scan of aliens_down, in place, is the next piece of the simultaneous step. |
| `GameSteps.RightStep` | zeos/user.c:263-277 | The same for aliens_right. |
| `GameSteps.LeftStep` | zeos/user.c:278-292 | The same for aliens_left. |
| `GameSteps.FallStep` | zeos/user.c:349-364 | The same for move_shoots_aliens. |
| `GameSteps.RiseStep` | zeos/user.c:365-377 | The same for move_shoots_ship. |
| `GameSteps.CancelStep` | zeos/user.c:378-387 | The same for cancel_shoots. |
| `GameCode.Game.constructor` | zeos/user.c:31-51 | A blank board and the initial values. |
| `GameCode.Game.InitBoard` | zeos/user.c:111-132 | init_board turns a blank board into walls, ship, formation and shields. |
| `GameCode.Game.AliensDown` | zeos/user.c:247-262 | For every board, the in-place scan is the simultaneous step of all aliens in rows 3..22; WIN is set if and only if it finds none. |
| `GameCode.Game.AliensRight` | zeos/user.c:263-277 | The same for rows 3..21 to the right. |
| `GameCode.Game.AliensLeft` | zeos/user.c:278-292 | The same for rows 3..21 to the left. |
| `GameCode.Game.MoveAliens` | zeos/user.c:322-348 | move_aliens with its counters and direction flags computes the specification. |
| `GameCode.Game.CancelShoots` | zeos/user.c:378-387 | For every board, exactly the pairs of an alien's shot above a ship's shot disappear. |
| `GameCode.Game.MoveShootsAliens` | zeos/user.c:349-364 | For every board, all alien shots fall at once, with the shield and crossing rules; LOSE is set if and only if one is on the ship. |
| `GameCode.Game.MoveShootsShip` | zeos/user.c:365-377 | For every board, all ship shots rise at once, with the kill, shield and crossing rules. |
| `GameCode.Game.MoveShoots` | zeos/user.c:388-392 | The three in their order. |
| `GameCode.Game.ShootCollision` | zeos/user.c:293-301 | True if and only if an alien's shot is on one of the ship's six cells. |
| `GameCode.Game.ShipRight` | zeos/user.c:302-311 | The ship moves one column, unless at the wall; LOSE on a collision. |
| `GameCode.Game.ShipLeft` | zeos/user.c:312-321 | The same to the left. |
| `GameCode.Game.MakeShipShoot` | zeos/user.c:393-400 | With EASY set, a shot starts above the ship whatever was there. |
| `GameCode.Game.IaShootAlien` | zeos/user.c:401-429 | At even times the lowest alien shoots in the first column from last_shoot on that has an alien, and last_shoot and shoot_pointer go on; if there is no such column, or at odd times, nothing changes. The array accesses stay in range. |
| `GameCode.Game.Shoot` | zeos/user.c:416-428 | The last loop of ia_shoot_alien stops at the first column that has an alien. |
| `GameCode.Game.IaMove` | zeos/user.c:430-434 | Shots, march, aim. |
| `GameCode.Game.PlayRound` | zeos/user.c:475-495 | One round of the main loop is a step of the model of games. |
| `GameRuns.RightShifts` | zeos/user.c:263-277 | Every alien within sight moves by exactly one column. |
| `GameRuns.LeftShifts` | zeos/user.c:278-292 | The same to the left. |
| `GameRuns.RightThenLeft` | zeos/user.c:263-292 | Right and then left restores any alien plane within rows 3..21 and columns 2..76. |
| `GameRuns.MarchKeeps` | zeos/user.c:322-348 | One march keeps the formation invariant and the march count, never adds an alien, and sets WIN if and only if there is no alien anywhere. |
| `GameRuns.RoundKeeps` | zeos/user.c:475-495 | So does a whole round, with any key. |
| `GameRuns.GameAlways` | zeos/user.c:322-348 | In every state of every game: exactly one direction flag, 2 <= y_aliens <= 29, the ship whole in columns 4..75, and the live aliens a subset of the initial formation moved by (x_aliens - 3, y_aliens - 2). |
| `GameRuns.DownBranchIsDead` | zeos/user.c:330-332 | The branch `else move_down = 1` is never taken. |
| `GameRuns.AliensStayInSight` | zeos/user.c:247-292 | While the game runs no alien leaves the rows and columns that are scanned. |
| `GameRuns.AliensNeverGrow` | zeos/user.c:247-292 | The number of live aliens never grows. |
| `GameRuns.WinExactly` | zeos/user.c:322-348 | A round wins if and only if it marches and no alien is left anywhere on the board. |
| `GameRuns.LostByMarch420` | zeos/user.c:322-348 | The number of marches is 28 * (x_aliens - 3) plus the progress in the sweep, at most 420, and the 420th sets LOSE. |
| `GameLaws.DownCell` | zeos/user.c:247-262 | Cell by cell, for every board: a march down moves an alien one row down unless a shot of the ship is on it, takes the shield from the cells that such an alien leaves, and changes nothing else. |
| `GameLaws.RightCell` | zeos/user.c:263-277 | The same to the right, whatever is on the cells. |
| `GameLaws.LeftCell` | zeos/user.c:278-292 | The same to the left. |
| `GameLaws.FallCell` | zeos/user.c:349-364 | Cell by cell: an alien's shot falls one row unless a shield is there, which it destroys, or it is on the last row, or shots of the ship are on both cells; nothing else changes. |
| `GameLaws.RiseCell` | zeos/user.c:365-377 | Cell by cell: an alien with a shot of the ship on its cell dies; a shot that hit none rises one row unless a shield is above, or it is on row 2, or shots of the aliens are on both cells; nothing else changes. |
| `GameLaws.CancelCell` | zeos/user.c:378-387 | Cell by cell: an alien's shot and a shot of the ship just below it disappear, and nothing else changes. |
| `GameLaws.RiseKillsHit` | zeos/user.c:365-377 | The live aliens after the ship's shots have moved are those before without those that were hit, and their number falls by as many. |
| `GameLaws.DownMovesAll` | zeos/user.c:247-262 | A march down that sees all aliens: cell (i, j) has one if and only if (i - 1, j) had one without a shot of the ship on it; the number falls by those that had one. |
| `GameLaws.AcrossKeepsAll` | zeos/user.c:263-292 | A march across that sees all aliens kills none. |
| `GameLaws.InitialCell` | zeos/user.c:111-132 | Where init_board puts aliens, shields, ship and walls. |
| `GameLaws.InitialCount` | zeos/user.c:111-132 | There are 74 aliens. |
| `GameLaws.KeyMoves` | zeos/user.c:302-321 | 'a' moves the ship one column to the left unless it is at column 4, 'd' one to the right unless at 75; a key loses if and only if the ship moves onto a shot of the aliens, and changes nothing else but the board. |
| `GameLaws.KeyCell` | zeos/user.c:302-321 | The ship's six cells move with it, 'w' puts a shot two rows above its middle, and no other cell changes. |
| `GameLaws.AimCell` | zeos/user.c:401-429 | ia_shoot_alien adds one shot, to the cell of the lowest alien of the first column from last_shoot on that has one, at even times, and changes no other cell. |
| `GameLaws.NextAim` | zeos/user.c:401-429 | After a shot the five columns -1, 24, 33, 37 and 39 beside the formation's are aimed at in turn. |
| `GameLaws.AliensAccounted` | zeos/user.c:475-495 | In every state of every game, the live aliens and those that shots of the ship have killed are together 74. |
| `GameLaws.WinIsAllKilled` | zeos/user.c:475-495 | A round wins if and only if it marches when all 74 have been killed. |
| `GameLaws.LoseExactly` | zeos/user.c:475-495 | A round loses if and only if the ship moves onto a shot of the aliens, or at a tick a shot that is not cancelled is on the ship, or the formation marches down for the fifteenth time. |
| `Libc.Itoa` | zeos/libc.c:14-36 | The digit loop and the reversal in place write the decimal digits and a zero from the given position on, and nothing else in memory; a negative number gives the empty string. |
| `Libc.OneByteBuffer` | zeos/user.c:138-166 | A one-byte buffer, which board_to_screen passes, gets the digit, and the byte behind it is cleared. |
| `Libc.DecimalIsRight` | zeos/libc.c:14-36 | These digits denote the number and have no leading zero. |
| `Libc.NumeralIsUnique` | zeos/libc.c:14-36 | No other string of digits without a leading zero denotes it. |

## Left out

- Boot assembly, entry code, GDT, IDT and TSS, switch_stack and register_esp: raw stack and descriptor layouts; the model takes atomic traps and the flush by set_cr3 as given.
- The bits `user` and `rw` of page table entries, and the page directories: a table entry is its frame and its present bit, a task's directory is the index of its table.
- The kernel stack surgery of fork and createthread, and the words that createthread writes to the new user stack: a task's continuation is abstract.
- `KernelCode.System.SysCreateThread`: requires that a page can be allocated when a task struct is free, because createthread does not check the answer of alloc_k.
- `KernelCode.System.SysFork`: a caller whose data pages are unmapped is left out where fork would copy them, because reading them faults, and the page fault handler is not part of this model; `DataIsMappedExactly` says in which runs no caller is one, `ExitStarvesThread` gives a run in which one is. Where fork answers -ENOMEM or -EAGAIN such callers are not left out. The bytes clause also requires a right TLB and an unused window.
- `MemoryManager.Memory.Fork`: leaves out the same callers.
- `KernelCode.System.Yield`: a task that yields with an empty readyqueue switches to itself; zeos/sched.c:256 passes the register_esp saved at its last switch, before switch_stack saves the present one, and init that was never switched out has 0 there. The model makes that yield a return, as intended. `Fairness.SwitchesToItselfExactly` proves that no other event meets this.
- `KernelCode.System.GiveUp`: does not model switch_stack, nor the stale register_esp of a task that switches to itself.
- `KernelCode.System.TaskSwitch`: does not model switch_stack and the TSS; the new task's stack pointer is taken as given.
- `KernelCode.System.SemSignal`: requires a waiter where the new counter says that there is one; without, list_first of the empty list is no task, and what the source does with it is not modelled. Under the invariant that is exactly a counter at INT_MAX (`SignalSafeExactly`), whose increment is taken to wrap; after a sem_init it is exactly a value of INT_MAX or more (`SafeAfterInitExactly`).
- `KernelCode.System.RequeueCurrent`: models update_process_state_rr for the readyqueue only, as the kernel calls it; the branches for no queue and for other queues are never reached.
- sys_write, sys_gettime, sys_getpid, sys_get_stats, get_key, dump_screen's output, access_ok and errno: settled by reading one branch.
- `CallAnswers.ResumedAnswers`: says nothing of the register of a new thread, which starts at its wrapper and not behind a call.
- Parked idle task: cpu_idle is a task without system calls.
- Process identifiers and thread identifiers are unbounded integers; their counters are assumed not to overflow.
- `Protocol.MovesAreReady`: main's use of the answer of a failed alloc is not modelled, as the game does not check it; `AllocSucceedsExactly` states when it can fail. What the threads draw and the calls of main that change nothing shared (get_key, gettime) are left out.
- The game's drawing, welcome and end screens, frames per second and waiting loops.
- `Rings.Ring.Push`: one generic ring stands for the frame ring of user.c (64 entries) and the keyboard ring of io.c (32 characters), which are the same code.
- build.c, the linker scripts and TESTING_SPRITE_INICI.
