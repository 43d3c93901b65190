/** What alloc, dealloc, createthread and exit do to the pages and frames, and answer, in the terms of the manual; and the
    pages that every task always has. */
module KernelLaws {
  import opened Scheduling
  import opened SchedulingInvariant
  import opened Paging
  import opened PagingInvariant
  import opened PagingLaws
  import opened PagingLoops
  import opened KernelSpec
  import opened KernelRuns

  // ---------------------------------------------------------------- alloc

  /** f is the lowest free frame with an even number from 256 on. */
  ghost predicate LowestFree(used: seq<bool>, f: nat) {
    && 256 <= f < 1024 == |used| && f % 2 == 0 && !used[f]
    && forall g :: 256 <= g < f && g % 2 == 0 ==> used[g]
  }

  /** p is the lowest heap page that is not mapped. */
  ghost predicate LowestHole(row: Row, p: nat) {
    && 284 <= p < 1024 == |row| && !row[p].present
    && forall q :: 284 <= q < p ==> row[q].present
  }

  /** x is m with page p of table c mapped to frame f, and no other change of frames and tables. */
  ghost predicate Mapped(m: Mem, x: Mem, c: nat, p: nat, f: nat)
    requires Shape(m) && c < NR_TABLES && p < 1024 && f < 1024
  {
    && x.used == m.used[f := true] && x.pt == m.pt[c := m.pt[c][p := Entry(true, f)]] && x.cr3 == m.cr3
  }

  /** The lowest free frame goes to the lowest unmapped heap page. */
  ghost predicate Allocates(m: Mem, x: Mem, c: nat, p: nat)
    requires Shape(m) && c < NR_TABLES
  {
    LowestHole(m.pt[c], p) && exists f :: LowestFree(m.used, f) && Mapped(m, x, c, p, f)
  }

  ghost predicate HeapFull(row: Row) {
    forall p :: 284 <= p < 1024 && p < |row| ==> row[p].present
  }

  ghost predicate FramesGone(used: seq<bool>) {
    forall f :: 256 <= f < |used| && f % 2 == 0 ==> used[f]
  }

  lemma FirstIsLowest(used: seq<bool>)
    requires |used| == TOTAL_PAGES
    ensures FreeList(used) == [] <==> FramesGone(used)
    ensures FreeList(used) != [] ==> LowestFree(used, FreeList(used)[0])
  {
    FreeListSound(used, NUM_PAG_KERNEL);
    var q := FreeList(used);
    hide FreeFrom;
    forall g | 256 <= g < 1024 && g % 2 == 0 && !used[g] ensures g in q {
      FreeListComplete(used, NUM_PAG_KERNEL, g);
    }
    if q != [] {
      forall g | 256 <= g < q[0] && g % 2 == 0 ensures used[g] {
        assert !used[g] ==> g in q;
      }
    }
  }

  lemma HoleIsLowest(m: Mem, c: nat)
    requires Own(m) && c < NR_TABLES
    ensures var h := FirstHole(m.pt[c], INIT_HEAP); if HeapFull(m.pt[c]) then h >= TOTAL_PAGES else LowestHole(m.pt[c], h)
  {
    var row := m.pt[c];
    forall p | 284 <= p < 1024 ensures row[p].present <==> row[p].frame != 0 {
      assert Private(p) && EntryOwns(m.used, m.pt[c][p]);
    }
  }

  lemma AllocIs(m: Mem, c: nat)
    requires Own(m) && c < NR_TABLES
    ensures var h := FirstHole(m.pt[c], INIT_HEAP);
            if HeapFull(m.pt[c]) || FramesGone(m.used) then !CanAlloc(m, c) && Alloc(m, c) == m
            else CanAlloc(m, c) && Allocates(m, Alloc(m, c), c, h)
  {
    FirstIsLowest(m.used);
    HoleIsLowest(m, c);
    hide FreeFrom, HeapFull, FramesGone, LowestHole, LowestFree, FirstHole;
    if CanAlloc(m, c) {
      assert Mapped(m, Alloc(m, c), c, FirstHole(m.pt[c], INIT_HEAP), FreeList(m.used)[0]) by {
        FreeListSound(m.used, NUM_PAG_KERNEL);
      }
    }
  }

  /** The scheduler's data, but for the running task's register. */
  ghost predicate OnlyAnswers(s: Sched, d: Sched, value: int)
    requires WellFormed(s)
  {
    d == s.(task := s.task[s.cur := s.task[s.cur].(ret := value)])
  }

  lemma HeapCallHalves(k: Kernel, t: Trap)
    requires Ready(k, t) && (t.TrapAlloc? || t.TrapDealloc?)
    ensures WellFormed(k.s) && Own(k.m) && Next(k, t).m == MemoryHalf(k, t)
    ensures t.TrapAlloc? ==> OnlyAnswers(k.s, Next(k, t).s, AllocResult(k.m, k.m.cr3))
    ensures t.TrapDealloc? ==> OnlyAnswers(k.s, Next(k, t).s, DeallocResult(k.m, k.m.cr3, t.page))
  {
    hide OnePlace, WaitersAgree, SemaphoresAgree, CpuAgrees, Owned, SharedAreUsed, TlbCovers, MemoryHalf, AllocResult,
      DeallocResult;
  }

  /** alloc: the lowest unmapped heap page of the caller gets the lowest free even frame, and the answer is the address of
      that page; or, exactly if the heap is full or no such frame is left, nothing changes and the answer is -12. */
  lemma AllocAnswersExactly(k: Kernel)
    requires Ready(k, TrapAlloc)
    ensures WellFormed(k.s) && Own(k.m)
    ensures var d := Next(k, TrapAlloc);
            if HeapFull(k.m.pt[k.m.cr3]) || FramesGone(k.m.used) then d.m == k.m && OnlyAnswers(k.s, d.s, -12)
            else exists p: nat :: Allocates(k.m, d.m, k.m.cr3, p) && OnlyAnswers(k.s, d.s, p * 4096)
  {
    hide Next, Allowed, Own, HeapFull, FramesGone, Allocates, OnlyAnswers, FirstHole;
    HeapCallHalves(k, TrapAlloc);
    AllocIs(k.m, k.m.cr3);
  }

  // ---------------------------------------------------------------- dealloc

  /** x is m without the mapping of page p in table c, whose frame is free again, and no other change. */
  ghost predicate Gives(m: Mem, x: Mem, c: nat, p: nat)
    requires Shape(m) && c < NR_TABLES && p < 1024
  {
    && x.pt == m.pt[c := m.pt[c][p := Entry(false, 0)]] && x.cr3 == m.cr3
    && m.pt[c][p].frame < 1024 && x.used == m.used[m.pt[c][p].frame := false]
  }

  /** dealloc of a page: -13 for a page outside the heap, -14 for one that is not mapped, and nothing changes; else the
      answer is 0, the page is unmapped and its frame is free. */
  lemma DeallocAnswersExactly(k: Kernel, p: nat)
    requires Ready(k, TrapDealloc(p))
    ensures WellFormed(k.s) && Own(k.m)
    ensures var d := Next(k, TrapDealloc(p));
            if p < 284 || p >= 1024 then d.m == k.m && OnlyAnswers(k.s, d.s, -13)
            else if !k.m.pt[k.m.cr3][p].present then d.m == k.m && OnlyAnswers(k.s, d.s, -14)
            else Gives(k.m, d.m, k.m.cr3, p) && OnlyAnswers(k.s, d.s, 0)
  {
    hide Next, Allowed, OnlyAnswers;
    HeapCallHalves(k, TrapDealloc(p));
    DeallocIs(k.m, p);
  }

  lemma DeallocIs(m: Mem, p: nat)
    requires Own(m)
    ensures var x, r := Dealloc(m, m.cr3, p), DeallocResult(m, m.cr3, p);
            if p < 284 || p >= 1024 then x == m && r == -13
            else if !m.pt[m.cr3][p].present then x == m && r == -14
            else Gives(m, x, m.cr3, p) && r == 0
  {
    if 284 <= p < 1024 {
      assert Private(p) && EntryOwns(m.used, m.pt[m.cr3][p]);
    }
  }

  // ---------------------------------------------------------------- createthread and exit

  /** createthread gives the new thread a page for its stack, as alloc would. */
  lemma ThreadGetsPage(k: Kernel)
    requires Ready(k, TrapCreateThread)
    ensures WellFormed(k.s) && Own(k.m)
    ensures k.s.free == [] ==> Next(k, TrapCreateThread).m == k.m
    ensures k.s.free != [] ==> exists p: nat :: Allocates(k.m, Next(k, TrapCreateThread).m, k.m.cr3, p)
  {
    hide OnePlace, WaitersAgree, SemaphoresAgree, CpuAgrees, Owned, SharedAreUsed, TlbCovers, HeapFull, FramesGone,
      Allocates, FirstHole, CanAlloc, Alloc;
    AllocIs(k.m, k.m.cr3);
    assert !SwitchesTask(k, TrapCreateThread);
    if k.s.free != [] {
      assert Next(k, TrapCreateThread).m == Alloc(k.m, k.m.cr3) && CanAlloc(k.m, k.m.cr3);
      assert Allocates(k.m, Alloc(k.m, k.m.cr3), k.m.cr3, FirstHole(k.m.pt[k.m.cr3], INIT_HEAP));
    }
  }

  /** exit unmaps the caller's twenty data pages and frees their frames; no other entry, and no other frame, changes. */
  lemma ExitGivesBack(k: Kernel, r: Readings)
    requires Ready(k, TrapExit(r))
    ensures WellFormed(k.s) && Own(k.m) && Shape(Next(k, TrapExit(r)).m)
    ensures var x, c := Next(k, TrapExit(r)).m, k.m.cr3;
            && (forall d, p :: 0 <= d < NR_TABLES && 0 <= p < 1024 ==>
                  x.pt[d][p] == if d == c && 264 <= p < 284 then Entry(false, 0) else k.m.pt[d][p])
            && (forall f :: 0 <= f < 1024 ==>
                  (x.used[f] <==> k.m.used[f] && !exists p :: 264 <= p < 284 && k.m.pt[c][p] == Entry(true, f)))
  {
    hide OnePlace, WaitersAgree, SemaphoresAgree, CpuAgrees, TlbCovers, Enabled, Step, SwitchesTask;
    var c := k.m.cr3;
    forall p | 264 <= p < 284 ensures Private(p) && EntryOwns(k.m.used, k.m.pt[c][p]) {
    }
    assert Next(k, TrapExit(r)).m.pt == Paging.Exit(k.m, c).pt && Next(k, TrapExit(r)).m.used == Paging.Exit(k.m, c).used;
    ExitFreesData(k.m);
  }

  /** terminatethread: the errors of dealloc, with which the task goes on; else the task struct goes to the freequeue, the
      stack page is unmapped and its frame is free. */
  lemma TerminateGivesBack(k: Kernel, r: Readings, p: nat)
    requires Ready(k, TrapTerminate(r, p))
    ensures WellFormed(k.s) && Own(k.m)
    ensures var d := Next(k, TrapTerminate(r, p));
            if p < 284 || p >= 1024 then d.m == k.m && OnlyAnswers(k.s, d.s, -13)
            else if !k.m.pt[k.m.cr3][p].present then d.m == k.m && OnlyAnswers(k.s, d.s, -14)
            else Gives(k.m, d.m.(cr3 := k.m.cr3), k.m.cr3, p) && d.s.free == k.s.free + [k.s.cur]
  {
    hide OnePlace, WaitersAgree, SemaphoresAgree, CpuAgrees, Owned, SharedAreUsed, TlbCovers, Dealloc, DeallocResult,
      Dispatch, AtSwitch;
    DeallocIs(k.m, p);
    var t := TrapTerminate(r, p);
    FreeAfter(k.s, EventOf(k, t));
  }

  lemma ExitFreesData(m: Mem)
    requires Own(m)
    ensures forall f :: 0 <= f < 1024 ==>
              (Paging.Exit(m, m.cr3).used[f]
               <==> m.used[f] && !exists p :: 264 <= p < 284 && m.pt[m.cr3][p] == Entry(true, f))
  {
    var c := m.cr3;
    forall p | 264 <= p < 284 ensures EntryOwns(m.used, m.pt[c][p]) {
      assert Private(p);
    }
    forall f | 0 <= f < 1024
      ensures f in DataFrames(m.pt[c]) && f > 256 <==> exists p :: 264 <= p < 284 && m.pt[c][p] == Entry(true, f)
    {
      if f in DataFrames(m.pt[c]) && f > 256 {
        var p :| 264 <= p < 284 && m.pt[c][p].frame == f;
        assert m.pt[c][p] == Entry(true, f);
      }
    }
  }

  // ---------------------------------------------------------------- the pages that every task has

  /** Kernel page p of a table names frame p, and is mapped, but for page 0 and the guard pages: boot does not map these,
      and fork does. */
  predicate IsKernelEntry(e: Entry, p: nat, guards: set<nat>) {
    e.frame == p && (p != 0 && p !in guards ==> e.present)
  }

  ghost predicate KernelMapped(m: Mem, guards: set<nat>)
    requires Shape(m)
  {
    forall d, p :: 0 <= d < NR_TABLES && 0 <= p < 256 ==> IsKernelEntry(m.pt[d][p], p, guards)
  }

  /** Below the data pages a trap changes at most the table of the slot that a fork fills, which gets the caller's
      frames. */
  lemma LowPages(k: Kernel, t: Trap, d: nat, p: nat)
    requires KernelInv(k) && Allowed(k, t) && d < NR_TABLES && p < 264
    ensures k.s.free != [] ==> k.s.free[0] < NR_TABLES
    ensures Next(k, t).m.pt[d][p]
            == if t.TrapFork? && k.s.free != [] && CanFork(k.m) && d == k.s.free[0] then
                 Entry(true, k.m.pt[k.m.cr3][p].frame)
               else k.m.pt[d][p]
  {
    hide Enabled, Step, OnePlace, WaitersAgree, SemaphoresAgree, CpuAgrees, Switches, Owned, SharedAreUsed, TlbCovers,
      MemoryHalf;
    LowPagesHalf(k, t, d, p);
  }

  lemma LowPagesHalf(k: Kernel, t: Trap, d: nat, p: nat)
    requires KernelInv(k) && d < NR_TABLES && p < 264
    ensures k.s.free != [] ==> k.s.free[0] < NR_TABLES
    ensures MemoryHalf(k, t).pt[d][p]
            == if t.TrapFork? && k.s.free != [] && CanFork(k.m) && d == k.s.free[0] then
                 Entry(true, k.m.pt[k.m.cr3][p].frame)
               else k.m.pt[d][p]
  {
    hide OnePlace, WaitersAgree, SemaphoresAgree, CpuAgrees, Owned, SharedAreUsed, TlbCovers, FreeFrom;
  }

  /** In every state of every run, every table maps the kernel. */
  lemma {:induction false} KernelAlwaysMapped(r: Readings, guards: set<nat>, ts: seq<Trap>, ks: seq<Kernel>, n: nat)
    requires IsKernelRun(r, guards, ts, ks) && n < |ks|
    ensures Shape(ks[n].m) && KernelMapped(ks[n].m, guards)
  {
    hide KernelInv, Next, Allowed, After, TrapAt, BootKernel, CanFork, IsKernelEntry;
    KernelInvAlways(r, guards, ts, ks, n);
    ShapeOf(ks[n]);
    if n == 0 {
      BootKernelPages(r, guards);
    } else {
      KernelAlwaysMapped(r, guards, ts, ks, n - 1);
      KernelInvAlways(r, guards, ts, ks, n - 1);
      assert TrapAt(ts, ks, n - 1);
      AfterIsNext(ts, ks, n - 1);
      forall d, p | 0 <= d < NR_TABLES && 0 <= p < 256 ensures IsKernelEntry(ks[n].m.pt[d][p], p, guards) {
        LowPages(ks[n - 1], ts[n - 1], d, p);
        assert IsKernelEntry(ks[n - 1].m.pt[ks[n - 1].m.cr3][p], p, guards);
        SharedEntry(ks[n - 1].m.pt[ks[n - 1].m.cr3][p], p, guards);
      }
    }
  }

  lemma BootKernelPages(r: Readings, guards: set<nat>)
    ensures KernelMapped(BootKernel(r, guards).m, guards)
  {
    hide FreeFrom;
    AllFree(KernelFrames(), NUM_PAG_KERNEL, 27);
    var m := BootKernel(r, guards).m;
    forall d, p | 0 <= d < NR_TABLES && 0 <= p < 256 ensures IsKernelEntry(m.pt[d][p], p, guards) {
      assert m.pt[d][p] == KernelRow(guards)[p];
    }
  }

  lemma SharedEntry(e: Entry, p: nat, guards: set<nat>)
    requires IsKernelEntry(e, p, guards)
    ensures IsKernelEntry(Entry(true, e.frame), p, guards)
  {
  }

  /** The eight code pages of a table map the frames 256, 258, ..., 270. */
  ghost predicate CodeMapped(row: Row) {
    |row| == TOTAL_PAGES && forall p :: 256 <= p < 264 ==> row[p] == Entry(true, 256 + 2 * (p - 256))
  }

  ghost predicate CanRun(k: Kernel)
    requires KernelInv(k)
  {
    forall i :: 0 <= i < NR_TASKS && i !in k.s.free && i != IDLE ==> CodeMapped(k.m.pt[k.s.task[i].dir])
  }

  lemma CanRunNext(k: Kernel, t: Trap)
    requires KernelInv(k) && Allowed(k, t) && CanRun(k)
    ensures KernelInv(Next(k, t)) && CanRun(Next(k, t))
  {
    hide Enabled, Step, OnePlace, WaitersAgree, SemaphoresAgree, CpuAgrees, Switches, MemInv, Next, CanFork;
    NextInv(k, t);
    var d := Next(k, t);
    forall i | 0 <= i < NR_TASKS && i !in d.s.free && i != IDLE ensures CodeMapped(d.m.pt[d.s.task[i].dir]) {
      UsedAfter(k, t, i);
      CallerHasCode(k, t);
      var c := d.s.task[i].dir;
      forall p | 256 <= p < 264 ensures d.m.pt[c][p] == Entry(true, 256 + 2 * (p - 256)) {
        LowPages(k, t, c, p);
      }
    }
  }

  lemma CallerHasCode(k: Kernel, t: Trap)
    requires KernelInv(k) && Allowed(k, t) && CanRun(k)
    ensures t.TrapFork? ==> CodeMapped(k.m.pt[k.m.cr3])
  {
    hide OnePlace, WaitersAgree, SemaphoresAgree, MemInv, CodeMapped;
    QueuesDisjoint(k.s);
  }

  /** In every state of every run, the table of every task in use but the idle one maps the program's code. */
  lemma {:induction false} CodeAlwaysMapped(r: Readings, guards: set<nat>, ts: seq<Trap>, ks: seq<Kernel>, n: nat)
    requires IsKernelRun(r, guards, ts, ks) && n < |ks|
    ensures KernelInv(ks[n]) && CanRun(ks[n])
  {
    hide KernelInv, Next, Allowed, After, TrapAt, BootKernel, CanRun;
    KernelInvAlways(r, guards, ts, ks, n);
    if n == 0 {
      BootCanRun(r, guards);
    } else {
      CodeAlwaysMapped(r, guards, ts, ks, n - 1);
      assert TrapAt(ts, ks, n - 1);
      AfterIsNext(ts, ks, n - 1);
      CanRunNext(ks[n - 1], ts[n - 1]);
    }
  }

  lemma BootCanRun(r: Readings, guards: set<nat>)
    ensures KernelInv(BootKernel(r, guards)) && CanRun(BootKernel(r, guards))
  {
    BootKernelInv(r, guards);
    hide KernelInv, BootMem;
    var k := BootKernel(r, guards);
    forall p | 256 <= p < 264 ensures k.m.pt[1][p] == Entry(true, 256 + 2 * (p - 256)) {
      BootEntry(guards, 1, p);
    }
    forall i | 2 <= i < NR_TASKS ensures i in k.s.free {
      assert k.s.free[i - 2] == i;
    }
  }
}
