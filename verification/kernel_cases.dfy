/** Runs on which the kernel does lose a frame, or leave the TLB wrong: the conditions of the exact laws are met
    in runs from boot. */
module KernelCases {
  import opened Scheduling
  import opened SchedulingInvariant
  import SchedulingRuns
  import opened Paging
  import opened PagingInvariant
  import opened PagingLaws
  import opened PagingLoops
  import opened KernelSpec
  import opened KernelRuns

  /** Some run from boot ends in k. */
  ghost predicate Reached(r: Readings, guards: set<nat>, k: Kernel) {
    exists ts, ks :: IsKernelRun(r, guards, ts, ks) && ks[|ts|] == k
  }

  lemma BootIsReached(r: Readings, guards: set<nat>)
    ensures Reached(r, guards, BootKernel(r, guards))
  {
    hide BootKernel;
    assert IsKernelRun(r, guards, [], [BootKernel(r, guards)]);
  }

  lemma NextIsReached(r: Readings, guards: set<nat>, k: Kernel, t: Trap)
    requires Reached(r, guards, k) && KernelInv(k) && Allowed(k, t)
    ensures Reached(r, guards, Next(k, t)) && KernelInv(Next(k, t))
  {
    hide KernelInv, Allowed, Next, BootKernel, After;
    NextInv(k, t);
    AfterReady(k, t);
    var ts, ks :| IsKernelRun(r, guards, ts, ks) && ks[|ts|] == k;
    var us, ms := ts + [t], ks + [Next(k, t)];
    forall n | 0 <= n < |us| ensures TrapAt(us, ms, n) {
      if n < |ts| {
        assert TrapAt(ts, ks, n);
      }
    }
    assert IsKernelRun(r, guards, us, ms);
  }

  lemma AfterReady(k: Kernel, t: Trap)
    requires KernelInv(k) && Allowed(k, t)
    ensures After(k, t) == Next(k, t) && WellFormed(k.s) && Shape(k.m)
  {
    hide Allowed, Next;
  }

  // ---------------------------------------------------------------- a heap without gaps

  /** The first h heap pages of init's table are mapped, and no others. */
  ghost predicate Packed(m: Mem, h: nat)
    requires Shape(m)
  {
    forall p :: INIT_HEAP <= p < TOTAL_PAGES ==> (m.pt[INIT][p].frame != 0 <==> p < INIT_HEAP + h)
  }

  lemma PackedAlloc(m: Mem, h: nat)
    requires Shape(m) && Packed(m, h) && h < TOTAL_PAGES - INIT_HEAP && |FreeEven(m.used)| > 0
    ensures CanAlloc(m, INIT) && Packed(Alloc(m, INIT), h + 1)
    ensures |FreeEven(Alloc(m, INIT).used)| == |FreeEven(m.used)| - 1
    ensures INIT_HEAP + h < TOTAL_PAGES && Alloc(m, INIT).pt[INIT][INIT_HEAP + h].present
  {
    FreeListSize(m.used);
    FreeListSound(m.used, NUM_PAG_KERNEL);
    hide FreeFrom;
    assert m.pt[INIT][INIT_HEAP + h].frame == 0;
    AllocTakesOne(m, INIT);
  }

  /** A task c of init's process runs, the freequeue is `free`, the heap has h pages. */
  ghost predicate Camp(r: Readings, guards: set<nat>, k: Kernel, c: nat, free: seq<nat>, h: nat) {
    && Reached(r, guards, k) && KernelInv(k) && Coherent(k.m)
    && k.s.cur == c && c != IDLE && k.m.cr3 == INIT && k.s.free == free
    && Packed(k.m, h) && h + |FreeEven(k.m.used)| <= 385
  }

  lemma BootCamp(r: Readings, guards: set<nat>)
    ensures Camp(r, guards, BootKernel(r, guards), INIT, SchedulingRuns.Slots(2, 8), 0)
    ensures |FreeEven(BootMem(guards).used)| == 356 && BootKernel(r, guards).s.ready == []
    ensures DataMapped(BootMem(guards).pt[INIT])
  {
    BootIsReached(r, guards);
    BootIsCoherent(r, guards);
    BootFree(guards);
    BootCr3(guards);
    hide KernelInv, BootMem;
    forall p | INIT_DATA <= p < TOTAL_PAGES
      ensures BootMem(guards).pt[INIT][p]
              == if p < INIT_HEAP then Entry(true, NUM_PAG_KERNEL + 2 * (p - INIT_CODE)) else NONE
    {
      BootEntry(guards, INIT, p);
    }
  }

  lemma AllocHalves(k: Kernel)
    requires KernelInv(k) && k.s.cur != IDLE
    ensures Allowed(k, TrapAlloc)
    ensures var d := Next(k, TrapAlloc);
            && d.m == Alloc(k.m, k.m.cr3) && d.s.cur == k.s.cur && d.s.free == k.s.free && d.m.cr3 == k.m.cr3
            && d.s.ready == k.s.ready && forall i :: 0 <= i < NR_TASKS ==> d.s.task[i].dir == k.s.task[i].dir
  {
    hide OnePlace, WaitersAgree, SemaphoresAgree, CpuAgrees, Owned, SharedAreUsed, TlbCovers, CanAlloc, AllocResult;
  }

  lemma CampAlloc(r: Readings, guards: set<nat>, k: Kernel, c: nat, free: seq<nat>, h: nat)
    requires Camp(r, guards, k, c, free, h) && |FreeEven(k.m.used)| > 0
    ensures Ready(k, TrapAlloc) && Camp(r, guards, Next(k, TrapAlloc), c, free, h + 1)
    ensures |FreeEven(Next(k, TrapAlloc).m.used)| == |FreeEven(k.m.used)| - 1
    ensures Next(k, TrapAlloc).m == Alloc(k.m, INIT)
  {
    hide KernelInv, Next, Allowed, Reached, Coherent, Packed, FreeEven, StaleFork;
    ShapeOf(k);
    PackedAlloc(k.m, h);
    AllocHalves(k);
    NextIsReached(r, guards, k, TrapAlloc);
    CoherentExactly(k, TrapAlloc);
    NoFork(k, TrapAlloc);
  }

  lemma NoFork(k: Kernel, t: Trap)
    requires WellFormed(k.s) && Shape(k.m) && !t.TrapFork?
    ensures !StaleFork(k, t)
  {
  }

  lemma CreateHalves(k: Kernel)
    requires KernelInv(k) && k.s.cur != IDLE && k.s.free != [] && CanAlloc(k.m, k.m.cr3)
    ensures Allowed(k, TrapCreateThread) && k.s.free[0] < |k.s.task| && k.s.cur < |k.s.task|
    ensures var d := Next(k, TrapCreateThread);
            && d.m == Alloc(k.m, k.m.cr3) && d.s.cur == k.s.cur && d.s.free == k.s.free[1..] && d.m.cr3 == k.m.cr3
            && d.s.ready == k.s.ready + [k.s.free[0]]
            && k.s.free[0] < |d.s.task| && d.s.task[k.s.free[0]].dir == Current(k.s).dir == k.m.cr3
  {
    hide OnePlace, WaitersAgree, SemaphoresAgree, CpuAgrees, Owned, SharedAreUsed, TlbCovers, CanAlloc, Alloc;
    AllocKeepsCr3(k.m, k.m.cr3);
    RunningIsNotFree(k.s);
  }

  lemma AllocKeepsCr3(m: Mem, d: nat)
    requires Shape(m) && d < NR_TABLES
    ensures Alloc(m, d).cr3 == m.cr3
  {
  }

  lemma CampCreate(r: Readings, guards: set<nat>, k: Kernel, c: nat, free: seq<nat>, h: nat)
    requires Camp(r, guards, k, c, free, h) && |FreeEven(k.m.used)| > 0 && free != []
    ensures Ready(k, TrapCreateThread) && Camp(r, guards, Next(k, TrapCreateThread), c, free[1..], h + 1)
    ensures |FreeEven(Next(k, TrapCreateThread).m.used)| == |FreeEven(k.m.used)| - 1
    ensures var d := Next(k, TrapCreateThread);
            && d.s.ready == k.s.ready + [free[0]] && free[0] < |d.s.task| && d.s.task[free[0]].dir == INIT
  {
    hide KernelInv, Next, Allowed, Reached, Coherent, Packed, FreeEven, StaleFork;
    ShapeOf(k);
    PackedAlloc(k.m, h);
    CreateHalves(k);
    NextIsReached(r, guards, k, TrapCreateThread);
    CoherentExactly(k, TrapCreateThread);
    NoFork(k, TrapCreateThread);
  }

  // ---------------------------------------------------------------- a lost frame

  /** init allocates one page and forks: fork's window goes over that page, and its frame is lost. */
  lemma ForkLosesAFrame(r: Readings, guards: set<nat>) returns (k: Kernel)
    ensures Reached(r, guards, k) && Ready(k, TrapFork(r)) && NoneLost(k.m)
    ensures !NoneLost(Next(k, TrapFork(r)).m)
  {
    var b := BootKernel(r, guards);
    BootCamp(r, guards);
    BootKernelInv(r, guards);
    BootMemOf(r, guards);
    hide BootKernel, KernelInv, Next, Allowed, Reached, Coherent, NoneLost, FreeEven, FreeFrom, Camp;
    CampMeans(r, guards, b, INIT, SchedulingRuns.Slots(2, 8), 0);
    CampAlloc(r, guards, b, INIT, SchedulingRuns.Slots(2, 8), 0);
    k := Next(b, TrapAlloc);
    CampMeans(r, guards, k, INIT, SchedulingRuns.Slots(2, 8), 1);
    PackedAlloc(b.m, 0);
    CanForkCounts(k.m);
    DataStays(b, TrapAlloc, INIT);
    MayFork(k, r);
    CleanOther(b, TrapAlloc);
    NoneLostExactly(b, TrapAlloc);
    UsedWindow(k, r);
    NoneLostExactly(k, TrapFork(r));
  }

  lemma BootMemOf(r: Readings, guards: set<nat>)
    ensures BootKernel(r, guards).m == BootMem(guards)
  {
    hide BootMem;
  }

  lemma CampMeans(r: Readings, guards: set<nat>, k: Kernel, c: nat, free: seq<nat>, h: nat)
    requires Camp(r, guards, k, c, free, h)
    ensures Reached(r, guards, k) && KernelInv(k) && Coherent(k.m) && WellFormed(k.s) && Shape(k.m)
    ensures k.s.cur == c && c != IDLE && k.m.cr3 == INIT && k.s.free == free && Packed(k.m, h)
  {
  }

  lemma MayFork(k: Kernel, r: Readings)
    requires KernelInv(k) && k.s.cur != IDLE && DataMapped(k.m.pt[k.m.cr3])
    ensures Allowed(k, TrapFork(r))
  {
    hide OnePlace, WaitersAgree, SemaphoresAgree, CpuAgrees, MemInv, DataMapped, CanFork;
  }

  lemma CleanOther(k: Kernel, t: Trap)
    requires WellFormed(k.s) && Shape(k.m) && !t.TrapFork?
    ensures CleanFork(k, t)
  {
  }

  lemma UsedWindow(k: Kernel, r: Readings)
    requires WellFormed(k.s) && Shape(k.m) && k.s.free != [] && CanFork(k.m)
    requires k.m.pt[k.m.cr3][INIT_HEAP].present
    ensures !CleanFork(k, TrapFork(r))
  {
    hide CanFork;
    assert !Unmapped(k.m.pt[k.m.cr3], INIT_HEAP, TEMP_END);
  }

  // ---------------------------------------------------------------- a wrong TLB

  lemma ExitHalves(k: Kernel, r: Readings)
    requires KernelInv(k) && k.s.cur != IDLE && k.s.ready != [] && k.s.ready[0] < |k.s.task|
    requires k.s.task[k.s.ready[0]].dir == k.m.cr3
    ensures Allowed(k, TrapExit(r))
    ensures var d := Next(k, TrapExit(r));
            && d.s.cur == k.s.ready[0] && d.s.free == k.s.free + [k.s.cur] && d.m.cr3 == k.m.cr3
            && d.m.used == Paging.Exit(k.m, k.m.cr3).used && d.m.pt == Paging.Exit(k.m, k.m.cr3).pt
  {
    hide OnePlace, WaitersAgree, SemaphoresAgree, CpuAgrees, Owned, SharedAreUsed, TlbCovers, HandedOver, Dispatch, Step,
      Paging.Exit;
    var e := EvExit(r);
    SwitchStep(k.s, e);
    FreeAfter(k.s, e);
    StepDirs(k.s, e, k.s.ready[0]);
  }

  lemma ExitFrees(m: Mem, h: nat)
    requires Shape(m) && Packed(m, h)
    ensures var x := Paging.Exit(m, INIT);
            && Packed(x, h) && |FreeEven(x.used)| >= |FreeEven(m.used)|
  {
    var x := Paging.Exit(m, INIT);
    assert FreeEven(m.used) <= FreeEven(x.used);
    var more := FreeEven(x.used) - FreeEven(m.used);
    assert FreeEven(x.used) == FreeEven(m.used) + more;
  }

  /** init starts a thread. */
  lemma InitHasThread(r: Readings, guards: set<nat>) returns (k: Kernel)
    ensures Camp(r, guards, k, INIT, SchedulingRuns.Slots(3, 7), 1)
    ensures k.s.ready == [2] && 2 < |k.s.task| && k.s.task[2].dir == INIT && |FreeEven(k.m.used)| == 355
    ensures KernelInv(k) && Fed(k)
  {
    var b := BootKernel(r, guards);
    BootCamp(r, guards);
    BootMemOf(r, guards);
    BootIsFed(r, guards);
    hide BootKernel, BootMem, Next, FreeEven, Camp, KernelInv, Allowed, Fed;
    CampCreate(r, guards, b, INIT, SchedulingRuns.Slots(2, 8), 0);
    k := Next(b, TrapCreateThread);
    ShapeOf(b);
    FedExactly(b, TrapCreateThread);
    assert SchedulingRuns.Slots(2, 8)[1..] == SchedulingRuns.Slots(3, 7);
  }

  /** Then it exits; the thread goes on in init's address space, and init's task struct is the last of the
      freequeue. */
  lemma ThreadOutlivesInit(r: Readings, guards: set<nat>) returns (k: Kernel)
    ensures Camp(r, guards, k, 2, SchedulingRuns.Slots(3, 7) + [INIT], 1)
    ensures |FreeEven(k.m.used)| >= 355
  {
    hide Next, Allowed, FreeEven, Camp, Coherent, Packed, KernelInv, Reached, StaleFork;
    var a := InitHasThread(r, guards);
    CampMeans(r, guards, a, INIT, SchedulingRuns.Slots(3, 7), 1);
    ExitHalves(a, r);
    k := Next(a, TrapExit(r));
    NextIsReached(r, guards, a, TrapExit(r));
    CoherentExactly(a, TrapExit(r));
    NoFork(a, TrapExit(r));
    ExitPacked(a.m, k.m, 1);
    Camped(r, guards, k, 2, SchedulingRuns.Slots(3, 7) + [INIT], 1);
  }

  /** The data pages of that thread are unmapped then, although there are frames and a task struct for a child: its
      next fork faults in the copy loop. */
  lemma ExitStarvesThread(r: Readings, guards: set<nat>) returns (a: Kernel, k: Kernel)
    ensures Reached(r, guards, a) && Ready(a, TrapExit(r)) && Fed(a) && k == Next(a, TrapExit(r))
    ensures WellFormed(a.s) && Shape(a.m) && Starves(a, TrapExit(r))
    ensures Reached(r, guards, k) && KernelInv(k) && k.s.cur != IDLE
    ensures k.s.free != [] && k.s.free[0] != k.m.cr3 && CanFork(k.m)
    ensures !DataMapped(k.m.pt[k.m.cr3]) && !Allowed(k, TrapFork(r))
  {
    hide Next, Allowed, FreeEven, Camp, Coherent, Packed, KernelInv, Reached, DataMapped, CanFork, Fed;
    a := InitHasThread(r, guards);
    CampMeans(r, guards, a, INIT, SchedulingRuns.Slots(3, 7), 1);
    ExitHalves(a, r);
    k := Next(a, TrapExit(r));
    NextIsReached(r, guards, a, TrapExit(r));
    ShapeOf(k);
    ThreadLives(a);
    DataGoes(a, TrapExit(r), INIT);
    ExitPacked(a.m, k.m, 1);
    CanForkCounts(k.m);
    MayNotFork(k, r);
  }

  lemma ThreadLives(k: Kernel)
    requires KernelInv(k) && k.s.cur == INIT && k.s.ready == [2] && k.s.task[2].dir == k.m.cr3
    ensures LivesIn(k.s, 2, k.m.cr3)
  {
    hide OnePlace, WaitersAgree, SemaphoresAgree, CpuAgrees, MemInv;
    QueuesDisjoint(k.s);
    assert 2 in k.s.ready;
  }

  lemma MayNotFork(k: Kernel, r: Readings)
    requires KernelInv(k) && k.s.free != [] && k.s.free[0] != k.m.cr3 && CanFork(k.m) && !DataMapped(k.m.pt[k.m.cr3])
    ensures !Allowed(k, TrapFork(r))
  {
    hide OnePlace, WaitersAgree, SemaphoresAgree, CpuAgrees, MemInv, DataMapped, CanFork;
  }

  lemma ExitPacked(m: Mem, x: Mem, h: nat)
    requires Shape(m) && Shape(x) && Packed(m, h) && h <= 1
    requires x.used == Paging.Exit(m, INIT).used && x.pt == Paging.Exit(m, INIT).pt
    ensures Packed(x, h) && |FreeEven(x.used)| >= |FreeEven(m.used)| && h + |FreeEven(x.used)| <= 385
  {
    hide FreeEven;
    ExitFrees(m, h);
    FreeEvenBounded(x.used);
  }

  lemma Camped(r: Readings, guards: set<nat>, k: Kernel, c: nat, free: seq<nat>, h: nat)
    requires Reached(r, guards, k) && KernelInv(k) && Coherent(k.m)
    requires k.s.cur == c && c != IDLE && k.m.cr3 == INIT && k.s.free == free
    requires Shape(k.m) && Packed(k.m, h) && h + |FreeEven(k.m.used)| <= 385
    ensures Camp(r, guards, k, c, free, h)
  {
  }

  /** It starts threads until init's task struct is the only free one. */
  lemma {:induction false} UseUpSlots(r: Readings, guards: set<nat>, k: Kernel, free: seq<nat>, h: nat) returns (d: Kernel)
    requires Camp(r, guards, k, 2, free + [INIT], h) && |FreeEven(k.m.used)| >= |free|
    ensures Camp(r, guards, d, 2, [INIT], h + |free|)
    ensures |FreeEven(d.m.used)| == |FreeEven(k.m.used)| - |free|
    decreases |free|
  {
    hide Camp, FreeEven, Next, Ready;
    if free == [] {
      d := k;
      assert free + [INIT] == [INIT];
    } else {
      CampCreate(r, guards, k, 2, free + [INIT], h);
      assert (free + [INIT])[1..] == free[1..] + [INIT];
      d := UseUpSlots(r, guards, Next(k, TrapCreateThread), free[1..], h + 1);
    }
  }

  /** It allocates pages until 19 frames are left. */
  lemma {:induction false} UseUpFrames(r: Readings, guards: set<nat>, k: Kernel, h: nat) returns (d: Kernel, g: nat)
    requires Camp(r, guards, k, 2, [INIT], h) && |FreeEven(k.m.used)| >= 19
    ensures Camp(r, guards, d, 2, [INIT], g) && |FreeEven(d.m.used)| == 19
    decreases |FreeEven(k.m.used)|
  {
    hide Camp, FreeEven, Next, Ready;
    if |FreeEven(k.m.used)| == 19 {
      d, g := k, h;
    } else {
      CampAlloc(r, guards, k, 2, [INIT], h);
      d, g := UseUpFrames(r, guards, Next(k, TrapAlloc), h + 1);
    }
  }

  /** A stale fork can happen: in some run from boot the TLB is right, and wrong after the fork that comes next. */
  lemma StaleForkHappens(r: Readings, guards: set<nat>) returns (k: Kernel)
    ensures Reached(r, guards, k) && Ready(k, TrapFork(r)) && Coherent(k.m)
    ensures WellFormed(k.s) && Shape(k.m) && StaleFork(k, TrapFork(r))
    ensures !Coherent(Next(k, TrapFork(r)).m)
  {
    hide Camp, FreeEven, Next, Ready, Reached, KernelInv, Coherent, FreeFrom;
    var a := ThreadOutlivesInit(r, guards);
    var b := UseUpSlots(r, guards, a, SchedulingRuns.Slots(3, 7), 1);
    var g;
    k, g := UseUpFrames(r, guards, b, 8);
    CampMeans(r, guards, k, 2, [INIT], g);
    CanForkCounts(k.m);
    FreeListSize(k.m.used);
    NoRoom(k, r);
    CoherentExactly(k, TrapFork(r));
  }

  lemma NoRoom(k: Kernel, r: Readings)
    requires KernelInv(k) && k.s.cur != IDLE && !CanFork(k.m)
    ensures Allowed(k, TrapFork(r)) && Ready(k, TrapFork(r))
  {
    hide OnePlace, WaitersAgree, SemaphoresAgree, CpuAgrees, MemInv, DataMapped, CanFork;
  }
}
