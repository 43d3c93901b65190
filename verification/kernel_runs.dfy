/** Runs of the whole kernel: which frames have owners, and exactly when the TLB is right, tasks are isolated, data
    pages stay mapped and no frame is lost. */
module KernelRuns {
  import opened Scheduling
  import opened SchedulingInvariant
  import SchedulingRuns
  import opened Paging
  import opened PagingInvariant
  import opened PagingLaws
  import opened PagingLoops
  import opened KernelSpec

  function BootKernel(r: Readings, guards: set<nat>): Kernel {
    Kernel(SchedulingRuns.BootSched(r), BootMem(guards))
  }

  ghost predicate TrapAt(ts: seq<Trap>, ks: seq<Kernel>, n: nat)
    requires n < |ts| && |ks| == |ts| + 1
  {
    && WellFormed(ks[n].s) && Shape(ks[n].m) && Allowed(ks[n], ts[n])
    && ks[n + 1] == After(ks[n], ts[n])
  }

  lemma AfterIsNext(ts: seq<Trap>, ks: seq<Kernel>, n: nat)
    requires n < |ts| && |ks| == |ts| + 1 && TrapAt(ts, ks, n) && KernelInv(ks[n])
    ensures WellFormed(ks[n].s) && Shape(ks[n].m) && Allowed(ks[n], ts[n]) && ks[n + 1] == Next(ks[n], ts[n])
  {
    hide KernelInv, Allowed, Next;
  }

  /** A run of the kernel from boot. It stops before a fork that would copy unmapped data pages, and before a
      createthread that finds no page for the stack. */
  ghost predicate IsKernelRun(r: Readings, guards: set<nat>, ts: seq<Trap>, ks: seq<Kernel>) {
    && |ks| == |ts| + 1
    && ks[0] == BootKernel(r, guards)
    && forall n :: 0 <= n < |ts| ==> TrapAt(ts, ks, n)
  }

  lemma BootKernelInv(r: Readings, guards: set<nat>)
    ensures KernelInv(BootKernel(r, guards)) && NoneLost(BootKernel(r, guards).m)
  {
    SchedulingRuns.BootInv(r);
    BootMemInv(guards);
    assert BootMem(guards).cr3 == 1 by { BootCr3(guards); }
  }

  lemma {:induction false} KernelInvAlways(r: Readings, guards: set<nat>, ts: seq<Trap>, ks: seq<Kernel>, n: nat)
    requires IsKernelRun(r, guards, ts, ks) && n < |ks|
    ensures KernelInv(ks[n])
  {
    hide KernelInv, Next, Allowed, After, TrapAt, BootKernel;
    if n == 0 {
      BootKernelInv(r, guards);
    } else {
      KernelInvAlways(r, guards, ts, ks, n - 1);
      assert TrapAt(ts, ks, n - 1);
      AfterIsNext(ts, ks, n - 1);
      NextInv(ks[n - 1], ts[n - 1]);
    }
  }

  /** In every state of every run: a data or heap entry of any of the ten tables, in use
      or left behind, names an even frame in 272..1022 that is in use, that no other such entry names, and that
      is not one of the shared code frames; and alloc_frame would not hand it out. */
  lemma FramesAreOwned(r: Readings, guards: set<nat>, ts: seq<Trap>, ks: seq<Kernel>, n: nat,
                       d: nat, p: nat, c: nat, q: nat)
    requires IsKernelRun(r, guards, ts, ks) && n < |ks|
    requires d < NR_TABLES && c < NR_TABLES && Private(p) && INIT_CODE <= q < TOTAL_PAGES
    ensures KernelInv(ks[n])
    ensures var m, f := ks[n].m, ks[n].m.pt[d][p].frame;
            f != 0 ==> && FIRST_OWNED <= f < TOTAL_PAGES && f % 2 == 0 && m.used[f] && f !in FreeList(m.used)
                       && (m.pt[c][q].frame == f ==> c == d && q == p)
  {
    hide Inv;
    KernelInvAlways(r, guards, ts, ks, n);
    var m := ks[n].m;
    assert EntryOwns(m.used, m.pt[d][p]);
    if m.pt[d][p].frame != 0 {
      FreeListSound(m.used, NUM_PAG_KERNEL);
      if m.pt[c][q].frame == m.pt[d][p].frame {
        OnlyOwner(m, d, p, c, q);
      }
    }
  }

  // ---------------------------------------------------------------- the TLB

  /** No task lives in the address space of a slot that is free. */
  ghost predicate Homes(s: Sched)
    requires WellFormed(s)
  {
    forall i :: 0 <= i < NR_TASKS && i !in s.free ==> s.task[i].dir !in s.free
  }

  /** A slot is not freed while other tasks live in its address space. */
  ghost predicate Orderly(k: Kernel, t: Trap)
    requires WellFormed(k.s)
  {
    t.TrapExit? || t.TrapTerminate? ==>
      forall j :: 0 <= j < NR_TASKS && j !in k.s.free && j != k.s.cur ==> k.s.task[j].dir != k.s.cur
  }

  lemma FreeAfter(s: Sched, e: Event)
    requires Inv(s) && Enabled(s, e)
    ensures Safe(s, e)
    ensures Step(s, e).free
            == if e.EvExit? || (e.EvTerminate? && e.err >= 0) then s.free + [s.cur]
               else if s.free != [] && e.EvFork? && !e.room then s.free[1..] + [s.free[0]]
               else if s.free != [] && (e.EvFork? || e.EvCreateThread?) then s.free[1..]
               else s.free
  {
    hide OnePlace, WaitersAgree, SemaphoresAgree, CpuAgrees, HandedOver;
    EnabledIsSafe(s, e);
    if Switches(s, e) {
      hide Step;
      SwitchStep(s, e);
    }
  }

  lemma FreeIsASet(s: Sched)
    requires Inv(s) && s.free != []
    ensures s.free[0] !in s.free[1..] && s.cur !in s.free && IDLE !in s.free
  {
    QueuesDisjoint(s);
    Uncons(s.free);
    assert Places(s)[s.free[0]] == 1;
  }

  lemma HomesStep(s: Sched, e: Event)
    requires Inv(s) && Enabled(s, e) && Homes(s)
    requires e.EvExit? || (e.EvTerminate? && e.err >= 0) ==>
               forall j :: 0 <= j < NR_TASKS && j !in s.free && j != s.cur ==> s.task[j].dir != s.cur
    ensures Safe(s, e) && Homes(Step(s, e))
  {
    hide OnePlace, WaitersAgree, SemaphoresAgree, CpuAgrees, Step, Enabled;
    FreeAfter(s, e);
    var d := Step(s, e);
    forall i | 0 <= i < NR_TASKS && i !in d.free
      ensures d.task[i].dir !in d.free
    {
      StepDirs(s, e, i);
      QueuesDisjoint(s);
      if s.free != [] {
        FreeIsASet(s);
        assert s.free == [s.free[0]] + s.free[1..];
      }
    }
  }

  lemma HomesNext(k: Kernel, t: Trap)
    requires KernelInv(k) && Allowed(k, t) && Orderly(k, t) && Homes(k.s)
    ensures Homes(Next(k, t).s)
  {
    hide OnePlace, WaitersAgree, SemaphoresAgree, CpuAgrees, Owned, SharedAreUsed, TlbCovers, Enabled, Step, Homes;
    if !t.TrapAlloc? && !t.TrapDealloc? {
      HomesStep(k.s, EventOf(k, t));
    } else {
      SameHomes(k.s, Next(k, t).s);
    }
  }

  lemma SameHomes(s: Sched, d: Sched)
    requires WellFormed(s) && WellFormed(d) && Homes(s) && d.free == s.free
    requires forall i :: 0 <= i < NR_TASKS ==> d.task[i].dir == s.task[i].dir
    ensures Homes(d)
  {
  }

  /** The one way to a wrong TLB: a fork whose free slot has the table that the caller itself lives in, and
      which fails after it has mapped some frames there. */
  predicate StaleFork(k: Kernel, t: Trap)
    requires WellFormed(k.s) && Shape(k.m)
  {
    t.TrapFork? && k.s.free != [] && k.s.free[0] == k.m.cr3 && !CanFork(k.m) && FreeList(k.m.used) != []
  }

  /** One trap, exactly: a TLB that cannot be wrong before it can be wrong after it if and only if the trap is
      such a fork. */
  lemma CoherentExactly(k: Kernel, t: Trap)
    requires KernelInv(k) && Allowed(k, t) && Coherent(k.m)
    ensures Coherent(Next(k, t).m) <==> !StaleFork(k, t)
  {
    hide Enabled, Step, OnePlace, WaitersAgree, SemaphoresAgree, Switches, Coherent;
    if SwitchesTask(k, t) {
      ForkKeepsCpu(k, t);
      SetCr3Coherent(MemoryHalf(k, t), Current(Next(k, t).s).dir);
    } else {
      match t
      case TrapFork(_) =>
        if k.s.free != [] {
          FirstFreeInRange(k.s);
          ForkCoherentExactly(k.m, k.s.free[0]);
        }
      case TrapCreateThread => AllocCoherent(k.m);
      case TrapExit(_) => ExitSwitches(k, t);
      case TrapTerminate(_, page) => DeallocCoherent(k.m, page);
      case TrapAlloc => AllocCoherent(k.m);
      case TrapDealloc(page) => DeallocCoherent(k.m, page);
      case Simple(_) =>
    }
  }

  lemma ForkKeepsCpu(k: Kernel, t: Trap)
    requires KernelInv(k) && SwitchesTask(k, t)
    ensures !t.TrapFork?
  {
  }

  lemma ExitSwitches(k: Kernel, t: Trap)
    requires KernelInv(k) && t.TrapExit?
    ensures SwitchesTask(k, t)
  {
  }

  ghost predicate TlbRightAt(ks: seq<Kernel>, n: nat)
    requires n < |ks|
  {
    Shape(ks[n].m) && Coherent(ks[n].m)
  }

  predicate StaleForkAt(ts: seq<Trap>, ks: seq<Kernel>, n: nat)
    requires n < |ts| && |ks| == |ts| + 1
  {
    WellFormed(ks[n].s) && Shape(ks[n].m) && StaleFork(ks[n], ts[n])
  }

  lemma ShapeOf(k: Kernel)
    requires KernelInv(k)
    ensures WellFormed(k.s) && Shape(k.m)
  {
  }

  lemma {:induction false} NoStaleForkSoFar(r: Readings, guards: set<nat>, ts: seq<Trap>, ks: seq<Kernel>, n: nat)
    requires IsKernelRun(r, guards, ts, ks) && n < |ks|
    requires forall j :: 0 <= j < n ==> !StaleForkAt(ts, ks, j)
    ensures TlbRightAt(ks, n)
  {
    hide KernelInv, Next, Allowed, After, TrapAt, Coherent, StaleFork, BootKernel;
    KernelInvAlways(r, guards, ts, ks, n);
    ShapeOf(ks[n]);
    if n == 0 {
      BootIsCoherent(r, guards);
    } else {
      NoStaleForkSoFar(r, guards, ts, ks, n - 1);
      KernelInvAlways(r, guards, ts, ks, n - 1);
      assert TrapAt(ts, ks, n - 1);
      AfterIsNext(ts, ks, n - 1);
      assert !StaleForkAt(ts, ks, n - 1);
      CoherentExactly(ks[n - 1], ts[n - 1]);
    }
  }

  lemma StaleForkShows(r: Readings, guards: set<nat>, ts: seq<Trap>, ks: seq<Kernel>, n: nat)
    requires IsKernelRun(r, guards, ts, ks) && n < |ts| && TlbRightAt(ks, n) && StaleForkAt(ts, ks, n)
    ensures !TlbRightAt(ks, n + 1)
  {
    hide KernelInv, Next, Allowed, After, TrapAt, Coherent, StaleFork, BootKernel;
    KernelInvAlways(r, guards, ts, ks, n);
    assert TrapAt(ts, ks, n);
    AfterIsNext(ts, ks, n);
    CoherentExactly(ks[n], ts[n]);
  }

  /** In every run: whenever control is back in user mode, every translation that the TLB
      may hold is the one in the current page table, if and only if no trap of the run is a stale fork. */
  lemma TlbIsRightExactly(r: Readings, guards: set<nat>, ts: seq<Trap>, ks: seq<Kernel>)
    requires IsKernelRun(r, guards, ts, ks)
    ensures (forall n :: 0 <= n < |ks| ==> TlbRightAt(ks, n)) <==> (forall n :: 0 <= n < |ts| ==> !StaleForkAt(ts, ks, n))
  {
    hide TlbRightAt, StaleForkAt, IsKernelRun;
    RunLength(r, guards, ts, ks);
    if forall n :: 0 <= n < |ts| ==> !StaleForkAt(ts, ks, n) {
      forall n | 0 <= n < |ks| ensures TlbRightAt(ks, n) {
        NoStaleForkSoFar(r, guards, ts, ks, n);
      }
    } else {
      var n :| 0 <= n < |ts| && StaleForkAt(ts, ks, n);
      if TlbRightAt(ks, n) {
        StaleForkShows(r, guards, ts, ks, n);
        assert !TlbRightAt(ks, n + 1);
      }
    }
  }

  // ---------------------------------------------------------------- what user mode can reach

  /** The frame f is in use, and the only user page of any table that names it is page p of the current one. */
  ghost predicate IsOurs(m: Mem, p: nat, f: nat)
    requires Shape(m)
  {
    && f < TOTAL_PAGES && m.used[f]
    && forall d, q :: 0 <= d < NR_TABLES && INIT_CODE <= q < TOTAL_PAGES && m.pt[d][q].frame == f ==> d == m.cr3 && q == p
  }

  /** Whatever translations the TLB uses, data and heap accesses reach frames of the current table only. */
  ghost predicate Isolated(m: Mem)
    requires Shape(m)
  {
    forall p: nat, f: nat :: (p, f) in m.seen && Private(p) ==> IsOurs(m, p, f)
  }

  lemma CoherentIsIsolated(m: Mem)
    requires Own(m) && Coherent(m)
    ensures Isolated(m)
  {
    forall p: nat, f: nat | (p, f) in m.seen && Private(p) ensures IsOurs(m, p, f) {
      assert m.pt[m.cr3][p] == Entry(true, f) && EntryOwns(m.used, m.pt[m.cr3][p]);
      forall d, q | 0 <= d < NR_TABLES && INIT_CODE <= q < TOTAL_PAGES && m.pt[d][q].frame == f
        ensures d == m.cr3 && q == p
      {
        OnlyOwner(m, m.cr3, p, d, q);
      }
    }
  }

  /** A fork that fails into the current table leaves translations to frames that are free. */
  lemma StaleForkExposes(m: Mem)
    requires Own(m) && !CanFork(m) && FreeList(m.used) != []
    ensures !Isolated(Paging.Fork(m, m.cr3, m.cr3))
  {
    ForkFailsOwn(m, m.cr3);
    FreeListSound(m.used, NUM_PAG_KERNEL);
    var x, f := Paging.Fork(m, m.cr3, m.cr3), FreeList(m.used)[0];
    assert (INIT_DATA + 0, f) in x.seen && Private(INIT_DATA) && !x.used[f];
  }

  /** One trap, exactly. */
  lemma IsolatedExactly(k: Kernel, t: Trap)
    requires KernelInv(k) && Allowed(k, t) && Coherent(k.m)
    ensures Isolated(Next(k, t).m) <==> !StaleFork(k, t)
  {
    hide Enabled, Step, OnePlace, WaitersAgree, SemaphoresAgree, Switches, Coherent, Isolated, Next, Allowed,
      FreeFrom, Owned;
    NextInv(k, t);
    CoherentExactly(k, t);
    if StaleFork(k, t) {
      StaleForkIsFork(k, t);
      StaleForkExposes(k.m);
    } else {
      CoherentIsIsolated(Next(k, t).m);
    }
  }

  lemma StaleForkIsFork(k: Kernel, t: Trap)
    requires KernelInv(k) && Allowed(k, t) && StaleFork(k, t)
    ensures Next(k, t).m == Paging.Fork(k.m, k.m.cr3, k.m.cr3)
  {
    hide Enabled, Step, OnePlace, WaitersAgree, SemaphoresAgree, CpuAgrees, MemInv, Paging.Fork;
    assert !SwitchesTask(k, t);
  }

  ghost predicate IsolatedAt(ks: seq<Kernel>, n: nat)
    requires n < |ks|
  {
    Shape(ks[n].m) && Isolated(ks[n].m)
  }

  /** In every run: whatever translations the TLB uses, user mode reaches in its data and heap pages only frames in
      use that no other user page of any task names, in every state, if and only if no trap is a stale fork. */
  lemma UsersAreIsolatedExactly(r: Readings, guards: set<nat>, ts: seq<Trap>, ks: seq<Kernel>)
    requires IsKernelRun(r, guards, ts, ks)
    ensures (forall n :: 0 <= n < |ks| ==> IsolatedAt(ks, n)) <==> (forall n :: 0 <= n < |ts| ==> !StaleForkAt(ts, ks, n))
  {
    hide IsolatedAt, StaleForkAt, IsKernelRun;
    RunLength(r, guards, ts, ks);
    if forall n :: 0 <= n < |ts| ==> !StaleForkAt(ts, ks, n) {
      forall n | 0 <= n < |ks| ensures IsolatedAt(ks, n) {
        IsolatedSoFar(r, guards, ts, ks, n);
      }
    } else {
      var n :| 0 <= n < |ts| && StaleForkAt(ts, ks, n);
      ExposedAfter(r, guards, ts, ks, n);
      assert !IsolatedAt(ks, n + 1);
    }
  }

  lemma IsolatedSoFar(r: Readings, guards: set<nat>, ts: seq<Trap>, ks: seq<Kernel>, n: nat)
    requires IsKernelRun(r, guards, ts, ks) && n < |ks|
    requires forall j :: 0 <= j < n ==> !StaleForkAt(ts, ks, j)
    ensures IsolatedAt(ks, n)
  {
    hide Inv, Owned, SharedAreUsed, TlbCovers, Coherent, Isolated, StaleForkAt, IsKernelRun;
    NoStaleForkSoFar(r, guards, ts, ks, n);
    KernelInvAlways(r, guards, ts, ks, n);
    CoherentIsIsolated(ks[n].m);
  }

  lemma ExposedAfter(r: Readings, guards: set<nat>, ts: seq<Trap>, ks: seq<Kernel>, n: nat)
    requires IsKernelRun(r, guards, ts, ks) && n < |ts| && StaleForkAt(ts, ks, n)
    ensures !IsolatedAt(ks, n + 1)
  {
    hide Inv, Owned, SharedAreUsed, TlbCovers, Next, Allowed, After, TrapAt, Isolated, BootKernel, FreeFrom;
    KernelInvAlways(r, guards, ts, ks, n);
    assert TrapAt(ts, ks, n);
    AfterIsNext(ts, ks, n);
    StaleForkIsFork(ks[n], ts[n]);
    StaleForkExposes(ks[n].m);
  }

  // ---------------------------------------------------------------- the TLB in orderly runs

  ghost predicate OrderlyRun(ts: seq<Trap>, ks: seq<Kernel>)
    requires |ks| == |ts| + 1
  {
    forall n :: 0 <= n < |ts| ==> TrapAt(ts, ks, n) && Orderly(ks[n], ts[n])
  }

  lemma {:induction false} HomesAlways(r: Readings, guards: set<nat>, ts: seq<Trap>, ks: seq<Kernel>, n: nat)
    requires IsKernelRun(r, guards, ts, ks) && OrderlyRun(ts, ks) && n < |ks|
    ensures KernelInv(ks[n]) && Homes(ks[n].s)
  {
    hide KernelInv, Next, Allowed, After, TrapAt, Homes, Coherent, Orderly, BootKernel;
    KernelInvAlways(r, guards, ts, ks, n);
    if n == 0 {
      BootIsCoherent(r, guards);
    } else {
      HomesAlways(r, guards, ts, ks, n - 1);
      assert TrapAt(ts, ks, n - 1);
      AfterIsNext(ts, ks, n - 1);
      HomesNext(ks[n - 1], ts[n - 1]);
    }
  }

  lemma HomesAreNotStale(k: Kernel, t: Trap)
    requires KernelInv(k) && Homes(k.s)
    ensures !StaleFork(k, t)
  {
    hide OnePlace, WaitersAgree, SemaphoresAgree, CpuAgrees, MemInv;
    QueuesDisjoint(k.s);
  }

  /** In particular, the TLB is never wrong in a run in which no slot is freed while other tasks live in its
      address space. */
  lemma TlbIsNeverWrong(r: Readings, guards: set<nat>, ts: seq<Trap>, ks: seq<Kernel>, n: nat)
    requires IsKernelRun(r, guards, ts, ks) && OrderlyRun(ts, ks) && n < |ks|
    ensures TlbRightAt(ks, n)
  {
    hide TlbRightAt, KernelInv, Homes, StaleFork, IsKernelRun, OrderlyRun;
    RunLength(r, guards, ts, ks);
    forall j | 0 <= j < |ts| ensures !StaleForkAt(ts, ks, j) {
      HomesAlways(r, guards, ts, ks, j);
      HomesAreNotStale(ks[j], ts[j]);
    }
    TlbIsRightExactly(r, guards, ts, ks);
  }

  lemma RunLength(r: Readings, guards: set<nat>, ts: seq<Trap>, ks: seq<Kernel>)
    requires IsKernelRun(r, guards, ts, ks)
    ensures |ks| == |ts| + 1
  {
  }

  // ---------------------------------------------------------------- the data pages of the tasks

  /** Every task in use, other than the idle task, has its data pages. */
  ghost predicate Fed(k: Kernel)
    requires KernelInv(k)
  {
    forall i :: 0 <= i < NR_TASKS && i !in k.s.free && i != IDLE ==> DataMapped(k.m.pt[k.s.task[i].dir])
  }

  /** A task in use, not the idle task, that has its data pages in table c. */
  predicate LivesIn(s: Sched, i: nat, c: nat)
    requires WellFormed(s)
  {
    i < NR_TASKS && i !in s.free && i != IDLE && s.task[i].dir == c
  }

  /** The traps that unmap data pages of a task that goes on: an exit while others share the address space, and a
      fork that fails, after it has mapped some frames, into the table of a free slot in which some task lives. */
  ghost predicate Starves(k: Kernel, t: Trap)
    requires WellFormed(k.s) && Shape(k.m)
  {
    || (t.TrapExit? && exists i: nat :: LivesIn(k.s, i, k.m.cr3) && i != k.s.cur)
    || (t.TrapFork? && k.s.free != [] && !CanFork(k.m) && FreeList(k.m.used) != []
        && exists i: nat :: LivesIn(k.s, i, k.s.free[0]))
  }

  /** What a trap leaves of the data pages of table c. */
  lemma DataStays(k: Kernel, t: Trap, c: nat)
    requires KernelInv(k) && Allowed(k, t) && c < NR_TABLES && DataMapped(k.m.pt[c])
    requires t.TrapExit? ==> c != k.m.cr3
    requires t.TrapFork? && k.s.free != [] ==> c != k.s.free[0] || FreeList(k.m.used) == []
    ensures DataMapped(Next(k, t).m.pt[c])
  {
    hide Enabled, Step, OnePlace, WaitersAgree, SemaphoresAgree, CpuAgrees, Switches, Owned, SharedAreUsed, TlbCovers,
      MemoryHalf;
    DataStaysHalf(k, t, c);
  }

  lemma DataStaysHalf(k: Kernel, t: Trap, c: nat)
    requires KernelInv(k) && c < NR_TABLES && DataMapped(k.m.pt[c])
    requires t.TrapExit? ==> c != k.m.cr3
    requires t.TrapFork? && k.s.free != [] ==> c != k.s.free[0] || FreeList(k.m.used) == []
    ensures DataMapped(MemoryHalf(k, t).pt[c])
  {
    hide OnePlace, WaitersAgree, SemaphoresAgree, CpuAgrees, Owned, SharedAreUsed, TlbCovers, FreeFrom;
  }

  /** The table that a starving trap empties. */
  lemma DataGoes(k: Kernel, t: Trap, c: nat)
    requires KernelInv(k) && Allowed(k, t) && c < NR_TABLES
    requires || (t.TrapExit? && c == k.m.cr3)
             || (t.TrapFork? && k.s.free != [] && c == k.s.free[0] && !CanFork(k.m) && FreeList(k.m.used) != [])
    ensures !DataMapped(Next(k, t).m.pt[c])
  {
    hide Enabled, Step, OnePlace, WaitersAgree, SemaphoresAgree, CpuAgrees, Switches, Owned, SharedAreUsed, TlbCovers,
      FreeFrom;
    assert Next(k, t).m.pt == MemoryHalf(k, t).pt;
    assert MemoryHalf(k, t).pt[c][INIT_DATA] == NONE;
  }

  lemma ForkFeeds(k: Kernel, t: Trap)
    requires KernelInv(k) && Allowed(k, t) && t.TrapFork? && k.s.free != [] && CanFork(k.m)
    ensures k.s.free[0] < NR_TABLES && DataMapped(Next(k, t).m.pt[k.s.free[0]])
  {
    hide Enabled, Step, OnePlace, WaitersAgree, SemaphoresAgree, CpuAgrees, Owned, SharedAreUsed, TlbCovers, FreeFrom;
    FirstFreeInRange(k.s);
    FreeListSound(k.m.used, NUM_PAG_KERNEL);
    assert !SwitchesTask(k, t);
  }

  /** A task in use after a trap was in use before it, in the same address space, or is the new one. */
  lemma UsedAfter(k: Kernel, t: Trap, i: nat)
    requires KernelInv(k) && Allowed(k, t) && i < NR_TASKS && i !in Next(k, t).s.free
    ensures k.s.free != [] ==> k.s.free[0] < NR_TABLES && k.s.free[0] != IDLE
    ensures k.s.cur !in k.s.free
    ensures t.TrapFork? && k.s.free != [] && i == k.s.free[0] ==> CanFork(k.m) && Next(k, t).s.task[i].dir == i
    ensures t.TrapCreateThread? && k.s.free != [] && i == k.s.free[0] ==>
              k.s.cur != IDLE && Next(k, t).s.task[i].dir == Current(k.s).dir
    ensures !((t.TrapFork? || t.TrapCreateThread?) && k.s.free != [] && i == k.s.free[0]) ==>
              i !in k.s.free && Next(k, t).s.task[i].dir == k.s.task[i].dir && (t.TrapExit? ==> i != k.s.cur)
  {
    hide OnePlace, WaitersAgree, SemaphoresAgree, CpuAgrees, MemInv, Step, CanFork;
    QueuesDisjoint(k.s);
    if k.s.free != [] {
      FreeIsASet(k.s);
      assert k.s.free == [k.s.free[0]] + k.s.free[1..];
    }
    ShapeOf(k);
    if !t.TrapAlloc? && !t.TrapDealloc? {
      FreeAfter(k.s, EventOf(k, t));
      StepDirs(k.s, EventOf(k, t), i);
    }
  }

  /** And the other way round: a task in use before a trap, other than one that exits, is in use after it, in the
      same address space. */
  lemma UsedStays(k: Kernel, t: Trap, i: nat)
    requires KernelInv(k) && Allowed(k, t) && i < NR_TASKS && i !in k.s.free
    requires t.TrapFork? || (t.TrapExit? && i != k.s.cur)
    ensures i !in Next(k, t).s.free && Next(k, t).s.task[i].dir == k.s.task[i].dir
  {
    hide OnePlace, WaitersAgree, SemaphoresAgree, CpuAgrees, MemInv, Step, CanFork;
    if k.s.free != [] {
      assert k.s.free == [k.s.free[0]] + k.s.free[1..];
    }
    ShapeOf(k);
    FreeAfter(k.s, EventOf(k, t));
    StepDirs(k.s, EventOf(k, t), i);
  }

  lemma FedNext(k: Kernel, t: Trap)
    requires KernelInv(k) && Allowed(k, t) && WellFormed(k.s) && Shape(k.m) && !Starves(k, t) && Fed(k)
    ensures KernelInv(Next(k, t)) && Fed(Next(k, t))
  {
    hide Enabled, Step, OnePlace, WaitersAgree, SemaphoresAgree, CpuAgrees, Switches, MemInv, Next, CanFork, DataMapped;
    NextInv(k, t);
    var d := Next(k, t);
    forall i | 0 <= i < NR_TASKS && i !in d.s.free && i != IDLE ensures DataMapped(d.m.pt[d.s.task[i].dir]) {
      UsedAfter(k, t, i);
      var c := d.s.task[i].dir;
      if t.TrapFork? && k.s.free != [] && c == k.s.free[0] && CanFork(k.m) {
        ForkFeeds(k, t);
      } else {
        assert t.TrapExit? || t.TrapFork? ==> LivesIn(k.s, i, c);
        DataStays(k, t, c);
      }
    }
  }

  /** One trap, exactly: if every task has its data pages before it, every task has them after it if and only if
      the trap starves nobody. */
  lemma FedExactly(k: Kernel, t: Trap)
    requires KernelInv(k) && Allowed(k, t) && WellFormed(k.s) && Shape(k.m) && Fed(k)
    ensures KernelInv(Next(k, t)) && (Fed(Next(k, t)) <==> !Starves(k, t))
  {
    hide KernelInv, Allowed, Next, DataMapped, CanFork, FreeFrom;
    NextInv(k, t);
    if Starves(k, t) {
      var c := if t.TrapExit? then k.m.cr3 else k.s.free[0];
      var i: nat :| LivesIn(k.s, i, c) && (t.TrapExit? ==> i != k.s.cur);
      UsedStays(k, t, i);
      DirInRange(k, i);
      DataGoes(k, t, c);
    } else {
      FedNext(k, t);
    }
  }

  lemma DirInRange(k: Kernel, i: nat)
    requires KernelInv(k) && i < NR_TASKS
    ensures k.s.task[i].dir < NR_TABLES
  {
  }

  ghost predicate FedAt(ks: seq<Kernel>, n: nat)
    requires n < |ks|
  {
    KernelInv(ks[n]) && Fed(ks[n])
  }

  ghost predicate StarvesAt(ts: seq<Trap>, ks: seq<Kernel>, n: nat)
    requires n < |ts| && |ks| == |ts| + 1
  {
    WellFormed(ks[n].s) && Shape(ks[n].m) && Starves(ks[n], ts[n])
  }

  lemma {:induction false} NobodyStarvedSoFar(r: Readings, guards: set<nat>, ts: seq<Trap>, ks: seq<Kernel>, n: nat)
    requires IsKernelRun(r, guards, ts, ks) && n < |ks|
    requires forall j :: 0 <= j < n ==> !StarvesAt(ts, ks, j)
    ensures FedAt(ks, n)
  {
    hide KernelInv, Next, Allowed, After, TrapAt, Fed, Starves, BootKernel;
    KernelInvAlways(r, guards, ts, ks, n);
    if n == 0 {
      BootIsFed(r, guards);
    } else {
      NobodyStarvedSoFar(r, guards, ts, ks, n - 1);
      assert TrapAt(ts, ks, n - 1);
      AfterIsNext(ts, ks, n - 1);
      assert !StarvesAt(ts, ks, n - 1);
      FedExactly(ks[n - 1], ts[n - 1]);
    }
  }

  lemma StarvingShows(r: Readings, guards: set<nat>, ts: seq<Trap>, ks: seq<Kernel>, n: nat)
    requires IsKernelRun(r, guards, ts, ks) && n < |ts| && FedAt(ks, n) && StarvesAt(ts, ks, n)
    ensures !FedAt(ks, n + 1)
  {
    hide KernelInv, Next, Allowed, After, TrapAt, Fed, Starves, BootKernel;
    assert TrapAt(ts, ks, n);
    AfterIsNext(ts, ks, n);
    FedExactly(ks[n], ts[n]);
  }

  /** In every run: every task in use has its data pages in every state, if and only if no trap of the run starves
      a task. */
  lemma DataIsMappedExactly(r: Readings, guards: set<nat>, ts: seq<Trap>, ks: seq<Kernel>)
    requires IsKernelRun(r, guards, ts, ks)
    ensures (forall n :: 0 <= n < |ks| ==> FedAt(ks, n)) <==> (forall n :: 0 <= n < |ts| ==> !StarvesAt(ts, ks, n))
  {
    hide FedAt, StarvesAt, IsKernelRun;
    RunLength(r, guards, ts, ks);
    if forall n :: 0 <= n < |ts| ==> !StarvesAt(ts, ks, n) {
      forall n | 0 <= n < |ks| ensures FedAt(ks, n) {
        NobodyStarvedSoFar(r, guards, ts, ks, n);
      }
    } else {
      var n :| 0 <= n < |ts| && StarvesAt(ts, ks, n);
      if FedAt(ks, n) {
        StarvingShows(r, guards, ts, ks, n);
        assert !FedAt(ks, n + 1);
      }
    }
  }

  /** A task does not exit while others share its address space. */
  ghost predicate LeavesAlone(k: Kernel, t: Trap)
    requires WellFormed(k.s)
  {
    t.TrapExit? ==> forall j :: 0 <= j < NR_TASKS && j !in k.s.free && j != k.s.cur ==> k.s.task[j].dir != Current(k.s).dir
  }

  lemma LeavingAloneFeeds(k: Kernel, t: Trap)
    requires KernelInv(k) && WellFormed(k.s) && Shape(k.m) && Homes(k.s) && LeavesAlone(k, t)
    ensures !Starves(k, t)
  {
    hide OnePlace, WaitersAgree, SemaphoresAgree, CpuAgrees, MemInv, FreeFrom;
  }

  /** In particular: in a run in which no slot is freed while other tasks live in its address space, and no task
      exits while others share it, every task has its data pages, so that it can fork at any time. */
  lemma DataAlwaysMapped(r: Readings, guards: set<nat>, ts: seq<Trap>, ks: seq<Kernel>, n: nat)
    requires IsKernelRun(r, guards, ts, ks) && OrderlyRun(ts, ks) && n < |ks|
    requires forall j :: 0 <= j < |ts| ==> TrapAt(ts, ks, j) && LeavesAlone(ks[j], ts[j])
    ensures KernelInv(ks[n]) && Fed(ks[n])
    ensures forall r: Readings :: Allowed(ks[n], TrapFork(r)) <==> ks[n].s.cur != IDLE
  {
    hide KernelInv, Allowed, After, TrapAt, Homes, Fed, Starves, LeavesAlone, IsKernelRun, OrderlyRun;
    RunLength(r, guards, ts, ks);
    forall j | 0 <= j < |ts| ensures !StarvesAt(ts, ks, j) {
      HomesAlways(r, guards, ts, ks, j);
      ShapeOf(ks[j]);
      assert TrapAt(ts, ks, j) && LeavesAlone(ks[j], ts[j]);
      LeavingAloneFeeds(ks[j], ts[j]);
    }
    DataIsMappedExactly(r, guards, ts, ks);
    assert FedAt(ks, n);
    FedMayFork(ks[n]);
  }

  lemma FedMayFork(k: Kernel)
    requires KernelInv(k) && Fed(k)
    ensures forall r: Readings :: Allowed(k, TrapFork(r)) <==> k.s.cur != IDLE
  {
    hide OnePlace, WaitersAgree, SemaphoresAgree, CpuAgrees, MemInv, DataMapped, CanFork;
    QueuesDisjoint(k.s);
  }

  lemma BootIsFed(r: Readings, guards: set<nat>)
    ensures KernelInv(BootKernel(r, guards)) && Fed(BootKernel(r, guards))
  {
    BootKernelInv(r, guards);
    hide KernelInv, BootMem;
    var k := BootKernel(r, guards);
    forall p | INIT_DATA <= p < INIT_HEAP
      ensures k.m.pt[1][p].present && k.m.pt[1][p].frame < TOTAL_PAGES
    {
      BootEntry(guards, 1, p);
    }
    forall i | 2 <= i < NR_TASKS ensures i in k.s.free {
      assert k.s.free[i - 2] == i;
    }
  }

  lemma BootHomes(r: Readings)
    ensures var s := SchedulingRuns.BootSched(r); WellFormed(s) && Homes(s)
  {
    var s := SchedulingRuns.BootSched(r);
    forall i | 2 <= i < NR_TASKS ensures i in s.free {
      assert s.free[i - 2] == i;
    }
  }

  lemma BootIsCoherent(r: Readings, guards: set<nat>)
    ensures KernelInv(BootKernel(r, guards))
    ensures Homes(BootKernel(r, guards).s) && Coherent(BootKernel(r, guards).m)
  {
    hide KernelInv, Homes, Coherent, BootMem, Inv, MemInv;
    BootKernelInv(r, guards);
    BootHomes(r);
    BootCr3(guards);
    SetCr3Coherent(BootMem(guards), 1);
  }

  // ---------------------------------------------------------------- no frame is lost

  /** fork's window in the parent is not in use, and the child's slot maps none of the data pages that fork
      maps. */
  ghost predicate CleanFork(k: Kernel, t: Trap)
    requires WellFormed(k.s) && Shape(k.m)
  {
    t.TrapFork? && k.s.free != [] ==>
      var child := k.m.pt[k.s.free[0]];
      if CanFork(k.m) then
        Unmapped(k.m.pt[k.m.cr3], INIT_HEAP, TEMP_END) && Unmapped(child, INIT_DATA, INIT_HEAP)
      else Unmapped(child, INIT_DATA, INIT_DATA + |FreeList(k.m.used)|)
  }

  /** Exact accounting of one trap: no frame in use is lost if and only if the trap is no unclean fork. */
  lemma NoneLostExactly(k: Kernel, t: Trap)
    requires KernelInv(k) && Allowed(k, t) && NoneLost(k.m)
    ensures NoneLost(Next(k, t).m) <==> CleanFork(k, t)
  {
    hide Enabled, Step, OnePlace, WaitersAgree, SemaphoresAgree, Switches, Owned, SharedAreUsed, NoneLost, Unmapped;
    SchedDirs(k, t, SchedulerHalf(k, t).cur);
    SameFrames(MemoryHalf(k, t), Current(SchedulerHalf(k, t)).dir);
    match t
    case TrapFork(_) =>
      if k.s.free != [] {
        FirstFreeInRange(k.s);
        if CanFork(k.m) {
          ForkLosesNoneExactly(k.m, k.m.cr3, k.s.free[0]);
        } else {
          FailedForkLosesNoneExactly(k.m, k.m.cr3, k.s.free[0]);
        }
      }
    case TrapCreateThread => AllocLosesNone(k.m, k.m.cr3);
    case TrapExit(_) => ExitLosesNone(k.m, k.m.cr3);
    case TrapTerminate(_, page) => DeallocLosesNone(k.m, k.m.cr3, page);
    case TrapAlloc => AllocLosesNone(k.m, k.m.cr3);
    case TrapDealloc(page) => DeallocLosesNone(k.m, k.m.cr3, page);
    case Simple(_) =>
  }

  lemma SameFrames(m: Mem, d: nat)
    requires Shape(m) && d < NR_TABLES
    ensures NoneLost(SetCr3(m, d)) <==> NoneLost(m)
  {
    var x := SetCr3(m, d);
    assert forall f :: HasOwner(x, f) <==> HasOwner(m, f);
  }


  /** In every run of clean forks, a frame that is in use is in some table. */
  lemma {:induction false} NoFrameIsLost(r: Readings, guards: set<nat>, ts: seq<Trap>, ks: seq<Kernel>, n: nat)
    requires IsKernelRun(r, guards, ts, ks) && n < |ks|
    requires forall j :: 0 <= j < |ts| ==> TrapAt(ts, ks, j) && CleanFork(ks[j], ts[j])
    ensures KernelInv(ks[n]) && NoneLost(ks[n].m)
  {
    hide KernelInv, Next, Allowed, After, TrapAt, NoneLost, CleanFork, BootKernel;
    KernelInvAlways(r, guards, ts, ks, n);
    if n == 0 {
      BootKernelInv(r, guards);
    } else {
      NoFrameIsLost(r, guards, ts, ks, n - 1);
      assert TrapAt(ts, ks, n - 1);
      AfterIsNext(ts, ks, n - 1);
      NoneLostExactly(ks[n - 1], ts[n - 1]);
    }
  }

  // ---------------------------------------------------------------- what fork answers

  /** fork fails with -ENOMEM exactly if there is no free task struct, and with -EAGAIN exactly if there is one
      but fewer than 20 even frames are free; then every frame is as it was and the task struct is back in the
      freequeue, at its end. Otherwise the caller gets the PID of a new task at the end of the readyqueue. */
  lemma ForkAnswersExactly(k: Kernel, r: Readings)
    requires Ready(k, TrapFork(r)) && k.s.lastPid >= 0
    ensures WellFormed(k.s)
    ensures var d := Next(k, TrapFork(r));
            var room := |FreeEven(k.m.used)| >= NUM_PAG_DATA;
            && d.s.cur == k.s.cur && d.s.cur < |d.s.task|
            && (Current(d.s).ret == -ENOMEM <==> k.s.free == [])
            && (Current(d.s).ret == -EAGAIN <==> k.s.free != [] && !room)
            && (k.s.free != [] && !room ==>
                  d.m.used == k.m.used && d.s.ready == k.s.ready && d.s.free == k.s.free[1..] + [k.s.free[0]])
            && (k.s.free != [] && room ==>
                  && Current(d.s).ret == k.s.lastPid + 1 && d.s.free == k.s.free[1..]
                  && d.s.ready == k.s.ready + [k.s.free[0]] && d.s.task[k.s.free[0]].pid == k.s.lastPid + 1)
  {
    hide OnePlace, WaitersAgree, SemaphoresAgree, CpuAgrees, Owned, SharedAreUsed, TlbCovers;
    CanForkCounts(k.m);
    RunningIsNotFree(k.s);
    if k.s.free != [] && !CanFork(k.m) {
      FirstFreeInRange(k.s);
      ForkFailsOwn(k.m, k.s.free[0]);
    }
  }
}
