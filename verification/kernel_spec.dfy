/** The whole kernel: scheduler, semaphores and memory manager together, one trap a step. */
module KernelSpec {
  import opened Scheduling
  import opened SchedulingInvariant
  import opened Paging
  import opened PagingInvariant
  import opened PagingLaws

  datatype Kernel = Kernel(s: Sched, m: Mem)

  datatype Trap =
    | Simple(e: Event)             // a trap that allocates and frees no memory
    | TrapFork(r: Readings)
    | TrapCreateThread
    | TrapExit(r: Readings)
    | TrapTerminate(r: Readings, page: nat)
    | TrapAlloc
    | TrapDealloc(page: nat)

  /** Events whose memory half is nothing but a possible switch of address space. */
  predicate IsSimple(e: Event) {
    !e.EvFork? && !e.EvCreateThread? && !e.EvExit? && !e.EvTerminate?
  }

  /** The scheduler's view of a trap that is not alloc or dealloc. */
  function EventOf(k: Kernel, t: Trap): Event
    requires Shape(k.m) && !t.TrapAlloc? && !t.TrapDealloc?
  {
    match t
    case Simple(e) => e
    case TrapFork(r) => EvFork(r, CanFork(k.m))
    case TrapCreateThread => EvCreateThread
    case TrapExit(r) => EvExit(r)
    case TrapTerminate(r, page) => EvTerminate(r, DeallocResult(k.m, k.m.cr3, page))
  }

  ghost predicate KernelInv(k: Kernel) {
    && Inv(k.s) && MemInv(k.m)
    && (forall i :: 0 <= i < NR_TASKS ==> k.s.task[i].dir < NR_TABLES)
    && k.m.cr3 == Current(k.s).dir
  }

  /** Traps that happen: the idle task makes no system calls, a thread gets a page for its stack, and a fork that
      copies the caller's data pages finds them mapped. */
  ghost predicate Allowed(k: Kernel, t: Trap)
    requires WellFormed(k.s) && Shape(k.m)
  {
    match t
    case TrapAlloc => k.s.cur != IDLE
    case TrapDealloc(_) => k.s.cur != IDLE
    case Simple(e) => IsSimple(e) && Enabled(k.s, e)
    case TrapFork(r) => Enabled(k.s, EventOf(k, t)) && (k.s.free != [] ==> CanCopy(k.m, k.s.free[0]))
    case TrapCreateThread => Enabled(k.s, EvCreateThread) && (k.s.free != [] ==> CanAlloc(k.m, k.m.cr3))
    case _ => Enabled(k.s, EventOf(k, t))
  }

  /** A trap that happens in a state of a run. */
  ghost predicate Ready(k: Kernel, t: Trap) {
    KernelInv(k) && Allowed(k, t)
  }

  /** The kernel after a trap. (Outside the invariant, which no run leaves, nothing is said.) */
  ghost function After(k: Kernel, t: Trap): Kernel {
    if Ready(k, t) then Next(k, t) else k
  }

  /** What the trap does to frames and tables before the task may be switched. */
  function MemoryHalf(k: Kernel, t: Trap): (m: Mem)
    requires Shape(k.m) && WellFormed(k.s)
    ensures Shape(m)
  {
    match t
    case TrapFork(_) => if k.s.free == [] then k.m else Paging.Fork(k.m, k.m.cr3, k.s.free[0])
    case TrapCreateThread => if k.s.free == [] then k.m else Alloc(k.m, k.m.cr3)
    case TrapExit(_) => Paging.Exit(k.m, k.m.cr3)
    case TrapTerminate(_, page) => Dealloc(k.m, k.m.cr3, page)
    case TrapAlloc => Alloc(k.m, k.m.cr3)
    case TrapDealloc(page) => Dealloc(k.m, k.m.cr3, page)
    case Simple(_) => k.m
  }

  ghost predicate SwitchesTask(k: Kernel, t: Trap)
    requires KernelInv(k)
  {
    !t.TrapAlloc? && !t.TrapDealloc? && Switches(k.s, EventOf(k, t))
  }

  ghost function SchedulerHalf(k: Kernel, t: Trap): (s: Sched)
    requires KernelInv(k) && Allowed(k, t)
    ensures Inv(s)
  {
    match t
    case TrapAlloc => ReturnInv(k.s, AllocResult(k.m, k.m.cr3)); Return(k.s, AllocResult(k.m, k.m.cr3))
    case TrapDealloc(p) =>
      ReturnInv(k.s, DeallocResult(k.m, k.m.cr3, p)); Return(k.s, DeallocResult(k.m, k.m.cr3, p))
    case _ => StepInv(k.s, EventOf(k, t)); Step(k.s, EventOf(k, t))
  }

  ghost function Next(k: Kernel, t: Trap): (d: Kernel)
    requires Ready(k, t)
    ensures WellFormed(d.s) && Shape(d.m)
  {
    var s, m := SchedulerHalf(k, t), MemoryHalf(k, t);
    SchedDirs(k, t, s.cur);
    Kernel(s, if SwitchesTask(k, t) then SetCr3(m, Current(s).dir) else m)
  }

  // ---------------------------------------------------------------- page directories

  lemma SwitchDirs(s: Sched, e: Event, i: nat)
    requires Inv(s) && Enabled(s, e) && Switches(s, e) && i < NR_TASKS
    ensures Safe(s, e) && Step(s, e).task[i].dir == s.task[i].dir
  {
    hide OnePlace, WaitersAgree, SemaphoresAgree, CpuAgrees, HandedOver, Enabled, Step, Safe;
    SwitchStep(s, e);
  }

  lemma ForkDirs(s: Sched, r: Readings, room: bool, i: nat)
    requires WellFormed(s) && i < NR_TASKS
    ensures Scheduling.Fork(s, r, room).task[i].dir == if s.free != [] && i == s.free[0] then i else s.task[i].dir
  {
  }

  lemma CreateDirs(s: Sched, i: nat)
    requires WellFormed(s) && i < NR_TASKS
    ensures Scheduling.CreateThread(s).task[i].dir
            == if s.free != [] && i == s.free[0] then Current(s).dir else s.task[i].dir
  {
  }

  lemma WaitDirs(s: Sched, n: int, r: Readings, i: nat)
    requires WellFormed(s) && i < NR_TASKS && !(ValidSem(s, n) && s.sem[n].counter <= 0)
    ensures SemWait(s, n, r).task[i].dir == s.task[i].dir
  {
  }

  lemma SignalDirs(s: Sched, n: int, i: nat)
    requires WellFormed(s) && i < NR_TASKS && (WakesSomeone(s, n) ==> s.blocked[n] != [])
    ensures SemSignal(s, n).task[i].dir == s.task[i].dir
  {
  }

  lemma DestroyDirs(s: Sched, n: int, i: nat)
    requires WellFormed(s) && i < NR_TASKS
    ensures SemDestroy(s, n).task[i].dir == s.task[i].dir
  {
  }

  lemma ClockDirs(s: Sched, r: Readings, i: nat)
    requires WellFormed(s) && i < NR_TASKS
    ensures Keyboard(s, r).task[i].dir == s.task[i].dir
    ensures !Preempts(s) ==> Clock(s, r).task[i].dir == s.task[i].dir
  {
  }

  /** A task keeps its page directory, except a new one: fork gives the child that of its slot, createthread
      that of its creator. */
  lemma StepDirs(s: Sched, e: Event, i: nat)
    requires Inv(s) && Enabled(s, e) && i < NR_TASKS
    ensures Safe(s, e)
    ensures Step(s, e).task[i].dir
            == if e.EvFork? && s.free != [] && i == s.free[0] then i
               else if e.EvCreateThread? && s.free != [] && i == s.free[0] then Current(s).dir
               else s.task[i].dir
  {
    EnabledIsSafe(s, e);
    if Switches(s, e) {
      hide Inv, Enabled, Step;
      SwitchDirs(s, e, i);
    } else {
      hide OnePlace, WaitersAgree, SemaphoresAgree, CpuAgrees, Enabled, Clock, Keyboard, Scheduling.Fork, CreateThread,
        SemWait, SemSignal, SemDestroy;
      match e {
        case EvClock(r) => ClockDirs(s, r, i);
        case EvKeyboard(r) => ClockDirs(s, r, i);
        case EvFork(r, room) => ForkDirs(s, r, room, i);
        case EvCreateThread => CreateDirs(s, i);
        case EvSemWait(n, r) => WaitDirs(s, n, r, i);
        case EvSemSignal(n) => SignalDirs(s, n, i);
        case EvSemDestroy(n) => DestroyDirs(s, n, i);
        case _ =>
      }
    }
  }

  lemma SchedDirs(k: Kernel, t: Trap, i: nat)
    requires KernelInv(k) && Allowed(k, t) && i < NR_TASKS
    ensures SchedulerHalf(k, t).task[i].dir < NR_TABLES
  {
    hide OnePlace, WaitersAgree, SemaphoresAgree, CpuAgrees, Enabled, Step;
    if !t.TrapAlloc? && !t.TrapDealloc? {
      StepDirs(k.s, EventOf(k, t), i);
    }
  }

  lemma KeepsCpu(s: Sched, e: Event)
    requires Inv(s) && Enabled(s, e) && !Switches(s, e)
    ensures Safe(s, e) && Step(s, e).cur == s.cur
  {
    hide OnePlace, WaitersAgree, CpuAgrees;
  }

  lemma RunningIsNotFree(s: Sched)
    requires Inv(s)
    ensures s.free != [] ==> s.free[0] != s.cur
  {
    QueuesDisjoint(s);
  }

  lemma Cr3Stays(k: Kernel, t: Trap)
    requires KernelInv(k) && Allowed(k, t) && !SwitchesTask(k, t)
    ensures Current(SchedulerHalf(k, t)).dir == k.m.cr3
  {
    hide OnePlace, WaitersAgree, SemaphoresAgree, CpuAgrees, Enabled, Step, Switches;
    RunningIsNotFree(k.s);
    if !t.TrapAlloc? && !t.TrapDealloc? {
      KeepsCpu(k.s, EventOf(k, t));
      StepDirs(k.s, EventOf(k, t), k.s.cur);
    }
  }

  lemma MemoryHalfInv(k: Kernel, t: Trap)
    requires KernelInv(k)
    ensures MemInv(MemoryHalf(k, t)) && MemoryHalf(k, t).cr3 == k.m.cr3
  {
    hide Inv, MemInv;
    match t
    case TrapFork(_) => if k.s.free != [] { FirstFreeInRange(k.s); PagingInvariant.ForkInv(k.m, k.s.free[0]); }
    case TrapCreateThread => AllocInv(k.m);
    case TrapExit(_) => ExitInv(k.m);
    case TrapTerminate(_, page) => DeallocInv(k.m, page);
    case TrapAlloc => AllocInv(k.m);
    case TrapDealloc(page) => DeallocInv(k.m, page);
    case Simple(_) =>
  }

  lemma FirstFreeInRange(s: Sched)
    requires Inv(s) && s.free != []
    ensures s.free[0] < NR_TABLES
  {
  }

  lemma NextInv(k: Kernel, t: Trap)
    requires KernelInv(k) && Allowed(k, t)
    ensures KernelInv(Next(k, t))
  {
    hide OnePlace, WaitersAgree, SemaphoresAgree, CpuAgrees, Owned, SharedAreUsed, TlbCovers, Allowed, SwitchesTask,
      SchedulerHalf, MemoryHalf;
    var d := Next(k, t);
    MemoryHalfInv(k, t);
    forall i | 0 <= i < NR_TASKS ensures d.s.task[i].dir < NR_TABLES {
      SchedDirs(k, t, i);
    }
    if SwitchesTask(k, t) {
      SetCr3Inv(MemoryHalf(k, t), Current(d.s).dir);
    } else {
      Cr3Stays(k, t);
    }
  }
}
