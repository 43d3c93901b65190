/** Runs in which a task struct goes back to the freequeue while its table still maps pages: sys_exit leaves the heap,
    sys_terminatethread the data pages and the heap. */
module KernelLeftovers {
  import opened Scheduling
  import opened SchedulingInvariant
  import SchedulingRuns
  import opened Paging
  import opened PagingInvariant
  import opened PagingLaws
  import opened PagingLoops
  import opened KernelSpec
  import opened KernelRuns
  import opened KernelCases

  const SLOT: nat := 2

  // ---------------------------------------------------------------- tables

  /** The tables but one. */
  ghost predicate SameElsewhere(m: Mem, x: Mem, d: nat)
    requires Shape(m) && Shape(x)
  {
    forall c :: 0 <= c < NR_TABLES && c != d ==> x.pt[c] == m.pt[c]
  }

  lemma ForkTakesTwenty(m: Mem, child: nat)
    requires Shape(m) && child < NR_TABLES && CanFork(m)
    ensures |FreeEven(Paging.Fork(m, m.cr3, child).used)| == |FreeEven(m.used)| - NUM_PAG_DATA
  {
    var q, x := FreeList(m.used), Paging.Fork(m, m.cr3, child);
    var fs := q[..NUM_PAG_DATA];
    FreeListSound(m.used, NUM_PAG_KERNEL);
    IncreasingSize(fs);
    assert forall f :: f in fs ==> f in q;
    assert FreeEven(x.used) == FreeEven(m.used) - Elements(fs);
    assert Elements(fs) <= FreeEven(m.used);
  }

  lemma ForkTables(m: Mem, child: nat)
    requires Own(m) && child < NR_TABLES && child != m.cr3 && CanFork(m) && Unmapped(m.pt[m.cr3], INIT_HEAP, TEMP_END)
    ensures var x := Paging.Fork(m, m.cr3, child);
            && SameElsewhere(m, x, child) && x.cr3 == m.cr3 && DataMapped(x.pt[child])
            && (forall p :: INIT_HEAP <= p < TOTAL_PAGES ==> x.pt[child][p] == m.pt[child][p])
  {
    hide FreeFrom, Owned, SharedAreUsed;
    ForkIsolates(m, m.cr3, child);
    var x := Paging.Fork(m, m.cr3, child);
    forall p | INIT_DATA <= p < INIT_HEAP ensures x.pt[child][p].present && x.pt[child][p].frame < TOTAL_PAGES {
      assert NewAndSole(m, x, child, p);
    }
  }

  /** alloc maps the first page of the heap that is not mapped. */
  lemma AllocTables(m: Mem, p: nat)
    requires Own(m) && INIT_HEAP <= p < TOTAL_PAGES && m.pt[m.cr3][p].frame == 0 && |FreeEven(m.used)| > 0
    requires forall q :: INIT_HEAP <= q < p ==> m.pt[m.cr3][q].frame != 0
    ensures var x := Alloc(m, m.cr3);
            && SameElsewhere(m, x, m.cr3) && x.cr3 == m.cr3 && x.pt[m.cr3][p].present && x.pt[m.cr3][p].frame != 0
            && (forall q :: 0 <= q < TOTAL_PAGES && q != p ==> x.pt[m.cr3][q] == m.pt[m.cr3][q])
            && |FreeEven(x.used)| == |FreeEven(m.used)| - 1
  {
    FreeListSize(m.used);
    FreeListSound(m.used, NUM_PAG_KERNEL);
    hide FreeFrom, Owned;
    assert FirstHole(m.pt[m.cr3], INIT_HEAP) == p;
    AllocTakesOne(m, m.cr3);
  }

  lemma DeallocTables(m: Mem, p: nat)
    requires Own(m) && INIT_HEAP <= p < TOTAL_PAGES && m.pt[m.cr3][p].frame != 0
    ensures DeallocResult(m, m.cr3, p) == 0
    ensures var x := Dealloc(m, m.cr3, p);
            && SameElsewhere(m, x, m.cr3)
            && (forall q :: 0 <= q < TOTAL_PAGES && q != p ==> x.pt[m.cr3][q] == m.pt[m.cr3][q])
            && |FreeEven(x.used)| >= |FreeEven(m.used)|
  {
    hide Owned, SharedAreUsed;
    var x := Dealloc(m, m.cr3, p);
    var more := FreeEven(x.used) - FreeEven(m.used);
    assert FreeEven(m.used) <= FreeEven(x.used);
    assert FreeEven(x.used) == FreeEven(m.used) + more;
  }

  // ---------------------------------------------------------------- traps

  lemma ForkHalves(k: Kernel, r: Readings)
    requires KernelInv(k) && k.s.cur != IDLE && k.s.free != [] && CanFork(k.m) && DataMapped(k.m.pt[k.m.cr3])
    ensures Allowed(k, TrapFork(r)) && k.s.free[0] < NR_TABLES
    ensures var d := Next(k, TrapFork(r));
            && d.m == Paging.Fork(k.m, k.m.cr3, k.s.free[0]) && d.s.cur == k.s.cur && d.s.free == k.s.free[1..]
            && d.s.ready == k.s.ready + [k.s.free[0]] && d.s.task[k.s.free[0]].dir == k.s.free[0]
  {
    hide OnePlace, WaitersAgree, SemaphoresAgree, CpuAgrees, Owned, SharedAreUsed, TlbCovers, CanFork, DataMapped,
      Paging.Fork;
    RunningIsNotFree(k.s);
    assert !SwitchesTask(k, TrapFork(r));
  }

  lemma SwitchHalves(k: Kernel, t: Trap)
    requires KernelInv(k) && k.s.cur != IDLE && k.s.ready != [] && k.s.ready[0] < |k.s.task|
    requires if t.TrapTerminate? then DeallocResult(k.m, k.m.cr3, t.page) == 0 else t.Simple? && t.e.EvYield?
    ensures Allowed(k, t)
    ensures var d, c := Next(k, t), k.s.ready[0];
            && d.s.cur == c && d.s.ready == k.s.ready[1..] + (if t.Simple? then [k.s.cur] else [])
            && d.s.free == k.s.free + (if t.Simple? then [] else [k.s.cur])
            && d.m.cr3 == k.s.task[c].dir && d.m.used == MemoryHalf(k, t).used && d.m.pt == MemoryHalf(k, t).pt
            && forall i :: 0 <= i < NR_TASKS ==> d.s.task[i].dir == k.s.task[i].dir
  {
    hide OnePlace, WaitersAgree, SemaphoresAgree, CpuAgrees, Owned, SharedAreUsed, TlbCovers, HandedOver, Dispatch, Step,
      Dealloc;
    var e := EventOf(k, t);
    SwitchStep(k.s, e);
    forall i | 0 <= i < NR_TASKS ensures Next(k, t).s.task[i].dir == k.s.task[i].dir {
      StepDirs(k.s, e, i);
    }
  }

  // ---------------------------------------------------------------- init forks

  /** init runs, has its data pages and an empty heap; no frame is lost. */
  ghost predicate House(r: Readings, guards: set<nat>, k: Kernel, free: seq<nat>) {
    Camp(r, guards, k, INIT, free, 0) && NoneLost(k.m) && DataMapped(k.m.pt[INIT])
  }

  lemma HouseMeans(r: Readings, guards: set<nat>, k: Kernel, free: seq<nat>)
    requires House(r, guards, k, free)
    ensures Reached(r, guards, k) && KernelInv(k) && Coherent(k.m) && WellFormed(k.s) && Shape(k.m) && Own(k.m)
    ensures k.s.cur == INIT && k.m.cr3 == INIT && k.s.free == free && NoneLost(k.m) && DataMapped(k.m.pt[INIT])
    ensures Packed(k.m, 0) && Unmapped(k.m.pt[INIT], INIT_HEAP, TOTAL_PAGES) && Unmapped(k.m.pt[INIT], INIT_HEAP, TEMP_END)
  {
    hide Inv, Reached, Coherent, DataMapped, NoneLost, SharedAreUsed, TlbCovers;
    CampMeans(r, guards, k, INIT, free, 0);
    forall p | INIT_HEAP <= p < TOTAL_PAGES ensures !k.m.pt[INIT][p].present {
      assert Private(p) && EntryOwns(k.m.used, k.m.pt[INIT][p]);
    }
  }

  lemma Housed(r: Readings, guards: set<nat>, k: Kernel, free: seq<nat>)
    requires Reached(r, guards, k) && KernelInv(k) && Coherent(k.m)
    requires k.s.cur == INIT && k.m.cr3 == INIT && k.s.free == free
    requires Shape(k.m) && Packed(k.m, 0) && NoneLost(k.m) && DataMapped(k.m.pt[INIT])
    ensures House(r, guards, k, free)
  {
    hide KernelInv, Reached, Coherent, DataMapped, NoneLost, Packed, FreeEven;
    FreeEvenBounded(k.m.used);
  }

  lemma BootHouse(r: Readings, guards: set<nat>)
    ensures House(r, guards, BootKernel(r, guards), SchedulingRuns.Slots(2, 8))
    ensures |FreeEven(BootMem(guards).used)| == 356 && BootKernel(r, guards).s.ready == []
    ensures forall d, p :: 0 <= d < NR_TABLES && d != INIT && INIT_CODE <= p < TOTAL_PAGES ==>
                             BootMem(guards).pt[d][p] == NONE
  {
    BootCamp(r, guards);
    BootKernelInv(r, guards);
    BootMemOf(r, guards);
    hide BootKernel, BootMem, Camp, NoneLost, DataMapped, FreeEven, KernelInv;
    forall d, p | 0 <= d < NR_TABLES && d != INIT && INIT_CODE <= p < TOTAL_PAGES
      ensures BootMem(guards).pt[d][p] == NONE
    {
      BootEntry(guards, d, p);
    }
  }

  /** A fork into a table without data pages. */
  lemma HouseFork(r: Readings, guards: set<nat>, k: Kernel, c: nat, rest: seq<nat>)
    requires House(r, guards, k, [c] + rest) && |FreeEven(k.m.used)| >= NUM_PAG_DATA && Shape(k.m)
    requires c < NR_TABLES && c != INIT && Unmapped(k.m.pt[c], INIT_DATA, INIT_HEAP)
    ensures Ready(k, TrapFork(r)) && House(r, guards, Next(k, TrapFork(r)), rest) && c !in rest
    ensures var d := Next(k, TrapFork(r));
            && SameElsewhere(k.m, d.m, c) && DataMapped(d.m.pt[c])
            && (forall p :: INIT_HEAP <= p < TOTAL_PAGES ==> d.m.pt[c][p] == k.m.pt[c][p])
            && |FreeEven(d.m.used)| == |FreeEven(k.m.used)| - NUM_PAG_DATA
            && d.s.ready == k.s.ready + [c] && d.s.task[c].dir == c
  {
    hide KernelInv, Next, Allowed, Reached, Coherent, NoneLost, FreeEven, CanFork, DataMapped, Own, Paging.Fork, House,
      StaleFork, CleanFork, Unmapped;
    var t := TrapFork(r);
    HouseMeans(r, guards, k, [c] + rest);
    FirstIsOnce(k, c, rest);
    CanForkCounts(k.m);
    ForkHalves(k, r);
    ForkTakesTwenty(k.m, c);
    ForkTables(k.m, c);
    NextIsReached(r, guards, k, t);
    CoherentExactly(k, t);
    RoomIsNotStale(k, t);
    NoneLostExactly(k, t);
    EmptyIsClean(k, t);
    Housed(r, guards, Next(k, t), rest);
  }

  lemma RoomIsNotStale(k: Kernel, t: Trap)
    requires WellFormed(k.s) && Shape(k.m) && CanFork(k.m)
    ensures !StaleFork(k, t)
  {
  }

  lemma EmptyIsClean(k: Kernel, t: Trap)
    requires WellFormed(k.s) && Shape(k.m) && t.TrapFork? && k.s.free != [] && CanFork(k.m)
    requires Unmapped(k.m.pt[k.m.cr3], INIT_HEAP, TEMP_END)
    ensures CleanFork(k, t) <==> Unmapped(k.m.pt[k.s.free[0]], INIT_DATA, INIT_HEAP)
  {
    hide Unmapped, CanFork;
  }

  /** Forks into the slots `free`, so that only SLOT is free. */
  lemma {:induction false} FillHouse(r: Readings, guards: set<nat>, k: Kernel, free: seq<nat>) returns (d: Kernel)
    requires House(r, guards, k, free + [SLOT]) && |FreeEven(k.m.used)| >= NUM_PAG_DATA * (|free| + 1) && Shape(k.m)
    requires forall c :: c in free ==> 2 < c < NR_TABLES && Unmapped(k.m.pt[c], INIT_DATA, INIT_HEAP)
    ensures House(r, guards, d, [SLOT]) && |FreeEven(d.m.used)| >= NUM_PAG_DATA
    ensures Shape(d.m) && d.m.pt[SLOT] == k.m.pt[SLOT]
    decreases |free|
  {
    hide House, FreeEven, Next, Allowed, DataMapped, Unmapped, KernelInv;
    if free == [] {
      d := k;
      assert free + [SLOT] == [SLOT];
    } else {
      assert free + [SLOT] == [free[0]] + (free[1..] + [SLOT]) && free[0] in free;
      HouseFork(r, guards, k, free[0], free[1..] + [SLOT]);
      var x := Next(k, TrapFork(r));
      forall c | c in free[1..] ensures 2 < c < NR_TABLES && Unmapped(x.m.pt[c], INIT_DATA, INIT_HEAP) {
        assert c in free && c in free[1..] + [SLOT] && x.m.pt[c] == k.m.pt[c];
      }
      d := FillHouse(r, guards, x, free[1..]);
    }
  }

  lemma FirstIsOnce(k: Kernel, c: nat, rest: seq<nat>)
    requires KernelInv(k) && k.s.free == [c] + rest
    ensures k.s.free != [] && k.s.free[0] == c && k.s.free[1..] == rest && c !in rest
  {
    hide OnePlace, WaitersAgree, SemaphoresAgree, CpuAgrees, MemInv;
    FreeIsASet(k.s);
  }

  // ---------------------------------------------------------------- the child allocates and terminates

  /** The child of init in SLOT runs; the other tables are those of x. */
  ghost predicate Visit(r: Readings, guards: set<nat>, k: Kernel, x: Mem) {
    && Reached(r, guards, k) && KernelInv(k) && Coherent(k.m) && NoneLost(k.m)
    && k.s.cur == SLOT && k.m.cr3 == SLOT && k.s.ready == [INIT] && k.s.task[INIT].dir == INIT
    && k.s.free == SchedulingRuns.Slots(3, 7) && Shape(x) && SameElsewhere(x, k.m, SLOT) && DataMapped(k.m.pt[SLOT])
  }

  lemma VisitMeans(r: Readings, guards: set<nat>, k: Kernel, x: Mem)
    requires Visit(r, guards, k, x)
    ensures Reached(r, guards, k) && KernelInv(k) && Coherent(k.m) && NoneLost(k.m) && WellFormed(k.s) && Own(k.m)
    ensures k.s.cur == SLOT && k.m.cr3 == SLOT && k.s.ready == [INIT] && k.s.task[INIT].dir == INIT
    ensures k.s.free == SchedulingRuns.Slots(3, 7) && Shape(x) && SameElsewhere(x, k.m, SLOT) && DataMapped(k.m.pt[SLOT])
  {
  }

  lemma VisitBegins(r: Readings, guards: set<nat>, k: Kernel)
    requires House(r, guards, k, SchedulingRuns.Slots(3, 7)) && k.s.ready == [SLOT] && k.s.task[SLOT].dir == SLOT
    requires DataMapped(k.m.pt[SLOT])
    ensures var t := Simple(EvYield(r));
            && Ready(k, t) && Visit(r, guards, Next(k, t), k.m)
            && Next(k, t).m.pt == k.m.pt && Next(k, t).m.used == k.m.used
  {
    hide KernelInv, Next, Allowed, Reached, Coherent, NoneLost, House, Own, DataMapped, StaleFork, CleanFork;
    var t := Simple(EvYield(r));
    HouseMeans(r, guards, k, SchedulingRuns.Slots(3, 7));
    SwitchHalves(k, t);
    NextIsReached(r, guards, k, t);
    NoFork(k, t);
    CoherentExactly(k, t);
    CleanOther(k, t);
    NoneLostExactly(k, t);
    ShapeOf(Next(k, t));
    DirOfInit(k);
  }

  lemma DirOfInit(k: Kernel)
    requires KernelInv(k) && k.s.cur == INIT && k.m.cr3 == INIT
    ensures k.s.task[INIT].dir == INIT
  {
  }

  lemma VisitAllocates(r: Readings, guards: set<nat>, k: Kernel, x: Mem, p: nat)
    requires Visit(r, guards, k, x) && INIT_HEAP <= p < TOTAL_PAGES && |FreeEven(k.m.used)| > 0
    requires k.m.pt[SLOT][p].frame == 0 && forall q :: INIT_HEAP <= q < p ==> k.m.pt[SLOT][q].frame != 0
    ensures Ready(k, TrapAlloc) && Visit(r, guards, Next(k, TrapAlloc), x)
    ensures var d := Next(k, TrapAlloc);
            && d.m.pt[SLOT][p].present && d.m.pt[SLOT][p].frame != 0
            && (forall q :: 0 <= q < TOTAL_PAGES && q != p ==> d.m.pt[SLOT][q] == k.m.pt[SLOT][q])
            && |FreeEven(d.m.used)| == |FreeEven(k.m.used)| - 1
  {
    hide KernelInv, Next, Allowed, Reached, Coherent, NoneLost, Visit, Own, FreeEven, Alloc, StaleFork, CleanFork;
    VisitMeans(r, guards, k, x);
    AllocHalves(k);
    AllocTables(k.m, p);
    NextIsReached(r, guards, k, TrapAlloc);
    NoFork(k, TrapAlloc);
    CoherentExactly(k, TrapAlloc);
    CleanOther(k, TrapAlloc);
    NoneLostExactly(k, TrapAlloc);
    SameData(k.m.pt[SLOT], Next(k, TrapAlloc).m.pt[SLOT]);
    ShapeOf(Next(k, TrapAlloc));
    Visits(r, guards, Next(k, TrapAlloc), x);
  }

  lemma Visits(r: Readings, guards: set<nat>, k: Kernel, x: Mem)
    requires Reached(r, guards, k) && KernelInv(k) && Coherent(k.m) && NoneLost(k.m)
    requires k.s.cur == SLOT && k.m.cr3 == SLOT && k.s.ready == [INIT] && k.s.task[INIT].dir == INIT
    requires k.s.free == SchedulingRuns.Slots(3, 7) && Shape(x) && SameElsewhere(x, k.m, SLOT) && DataMapped(k.m.pt[SLOT])
    ensures Visit(r, guards, k, x)
  {
  }

  lemma SameData(row: Row, d: Row)
    requires |row| == |d| == TOTAL_PAGES && DataMapped(row)
    requires forall p :: INIT_DATA <= p < INIT_HEAP ==> d[p] == row[p]
    ensures DataMapped(d)
  {
  }

  /** It terminates as a thread whose stack is page p; its data pages, and its other heap pages, stay mapped. */
  lemma VisitEnds(r: Readings, guards: set<nat>, k: Kernel, x: Mem, p: nat)
    requires Visit(r, guards, k, x) && INIT_HEAP <= p < TOTAL_PAGES && k.m.pt[SLOT][p].frame != 0
    requires Packed(x, 0) && DataMapped(x.pt[INIT])
    ensures var t := TrapTerminate(r, p);
            && Ready(k, t) && House(r, guards, Next(k, t), SchedulingRuns.Slots(3, 7) + [SLOT])
            && SameElsewhere(x, Next(k, t).m, SLOT) && DataMapped(Next(k, t).m.pt[SLOT])
            && (forall q :: 0 <= q < TOTAL_PAGES && q != p ==> Next(k, t).m.pt[SLOT][q] == k.m.pt[SLOT][q])
            && |FreeEven(Next(k, t).m.used)| >= |FreeEven(k.m.used)|
  {
    hide KernelInv, Next, Allowed, Reached, Coherent, NoneLost, Visit, Own, FreeEven, Dealloc, StaleFork, CleanFork, House;
    var t := TrapTerminate(r, p);
    VisitMeans(r, guards, k, x);
    DeallocTables(k.m, p);
    SwitchHalves(k, t);
    NextIsReached(r, guards, k, t);
    NoFork(k, t);
    CoherentExactly(k, t);
    CleanOther(k, t);
    NoneLostExactly(k, t);
    SameData(k.m.pt[SLOT], Next(k, t).m.pt[SLOT]);
    Housed(r, guards, Next(k, t), SchedulingRuns.Slots(3, 7) + [SLOT]);
  }

  // ---------------------------------------------------------------- the runs

  /** Boot; init forks; the child allocates two pages and terminates as a thread; init forks seven times. Then the
      only free task struct is one whose table maps the data pages and a heap page of its last owner. */
  lemma SlotIsLittered(r: Readings, guards: set<nat>) returns (k: Kernel)
    ensures House(r, guards, k, [SLOT]) && |FreeEven(k.m.used)| >= NUM_PAG_DATA
    ensures Shape(k.m) && DataMapped(k.m.pt[SLOT]) && k.m.pt[SLOT][INIT_HEAP].present
  {
    var b := BootKernel(r, guards);
    BootHouse(r, guards);
    BootMemOf(r, guards);
    hide BootKernel, BootMem, House, Visit, FreeEven, Next, Ready, DataMapped, KernelInv, Packed;
    HouseMeans(r, guards, b, SchedulingRuns.Slots(2, 8));
    assert SchedulingRuns.Slots(2, 8) == [SLOT] + SchedulingRuns.Slots(3, 7);
    HouseFork(r, guards, b, SLOT, SchedulingRuns.Slots(3, 7));
    var a := Next(b, TrapFork(r));
    HouseMeans(r, guards, a, SchedulingRuns.Slots(3, 7));
    VisitBegins(r, guards, a);
    var c := Next(a, Simple(EvYield(r)));
    VisitAllocates(r, guards, c, a.m, INIT_HEAP);
    var d := Next(c, TrapAlloc);
    VisitAllocates(r, guards, d, a.m, INIT_HEAP + 1);
    var e := Next(d, TrapAlloc);
    VisitEnds(r, guards, e, a.m, INIT_HEAP + 1);
    k := FillHouse(r, guards, Next(e, TrapTerminate(r, INIT_HEAP + 1)), SchedulingRuns.Slots(3, 7));
    HouseMeans(r, guards, k, [SLOT]);
  }

  /** The fork that comes next finds room, and hands the child a heap page of the last owner; the frames of the last
      owner's data pages are lost, although fork's window is not in use. */
  lemma LitteredForkLosesFrames(r: Readings, guards: set<nat>) returns (k: Kernel)
    ensures Reached(r, guards, k) && Ready(k, TrapFork(r)) && NoneLost(k.m) && k.s.free == [SLOT] && k.m.cr3 == INIT
    ensures CanFork(k.m) && Unmapped(k.m.pt[INIT], INIT_HEAP, TOTAL_PAGES)
    ensures !Unmapped(k.m.pt[SLOT], INIT_HEAP, TOTAL_PAGES) && !Unmapped(k.m.pt[SLOT], INIT_DATA, INIT_HEAP)
    ensures var x := Next(k, TrapFork(r)).m; !Unmapped(x.pt[SLOT], INIT_HEAP, TOTAL_PAGES) && !NoneLost(x)
  {
    hide House, FreeEven, Next, Allowed, KernelInv, Reached, Coherent, NoneLost, CanFork, Paging.Fork, CleanFork;
    k := SlotIsLittered(r, guards);
    HouseMeans(r, guards, k, [SLOT]);
    CanForkCounts(k.m);
    ForkHalves(k, r);
    assert k.m.pt[SLOT][INIT_DATA].present;
    EmptyIsClean(k, TrapFork(r));
    NoneLostExactly(k, TrapFork(r));
    ForkTables(k.m, SLOT);
  }

  /** init allocates until 19 frames are left. */
  lemma {:induction false} UseUpRoom(r: Readings, guards: set<nat>, k: Kernel, h: nat) returns (d: Kernel, g: nat)
    requires Camp(r, guards, k, INIT, [SLOT], h) && |FreeEven(k.m.used)| >= 19
    requires KernelInv(k) && NoneLost(k.m)
    ensures Camp(r, guards, d, INIT, [SLOT], g) && |FreeEven(d.m.used)| == 19
    ensures KernelInv(d) && NoneLost(d.m) && d.m.pt[SLOT] == k.m.pt[SLOT]
    decreases |FreeEven(k.m.used)|
  {
    hide Camp, FreeEven, Next, Allowed, KernelInv, NoneLost, CleanFork;
    if |FreeEven(k.m.used)| == 19 {
      d, g := k, h;
    } else {
      ShapeOf(k);
      CampAlloc(r, guards, k, INIT, [SLOT], h);
      AllocElsewhere(k.m);
      NextInv(k, TrapAlloc);
      CleanOther(k, TrapAlloc);
      NoneLostExactly(k, TrapAlloc);
      d, g := UseUpRoom(r, guards, Next(k, TrapAlloc), h + 1);
    }
  }

  lemma AllocElsewhere(m: Mem)
    requires Shape(m)
    ensures Alloc(m, INIT).pt[SLOT] == m.pt[SLOT]
  {
  }

  /** Also a fork that fails can lose frames: those of the pages that it fills before it finds that there are too
      few. */
  lemma FailedForkLosesFrames(r: Readings, guards: set<nat>) returns (k: Kernel)
    ensures Reached(r, guards, k) && Ready(k, TrapFork(r)) && NoneLost(k.m) && !CanFork(k.m)
    ensures !NoneLost(Next(k, TrapFork(r)).m)
  {
    hide House, Camp, FreeEven, Next, Allowed, KernelInv, Reached, NoneLost, CanFork, FreeFrom;
    var a := SlotIsLittered(r, guards);
    HouseMeans(r, guards, a, [SLOT]);
    HouseIsCamp(r, guards, a, [SLOT]);
    var g;
    k, g := UseUpRoom(r, guards, a, 0);
    CampMeans(r, guards, k, INIT, [SLOT], g);
    CanForkCounts(k.m);
    FreeListSize(k.m.used);
    NoRoom(k, r);
    assert k.m.pt[SLOT][INIT_DATA].present;
    NoneLostExactly(k, TrapFork(r));
  }

  lemma HouseIsCamp(r: Readings, guards: set<nat>, k: Kernel, free: seq<nat>)
    requires House(r, guards, k, free)
    ensures Camp(r, guards, k, INIT, free, 0)
  {
  }
}
