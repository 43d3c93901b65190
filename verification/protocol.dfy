/** The game's two threads on the kernel: main draws frames into pages and pushes them in a ring, thread_dump
    shows and frees them, semaphore 0 guards the ring. Any interrupt may come between any two steps. */
module Protocol {
  import opened Machine
  import opened Scheduling
  import opened SchedulingInvariant
  import SR = SchedulingRuns
  import Fairness
  import opened Paging
  import PL = PagingLoops
  import opened PagingInvariant
  import opened PagingLaws
  import opened KernelSpec
  import KR = KernelRuns
  import Rings

  const GUARD: nat := 0
  const DUMPER: nat := 2

  /** Where main is: before sem_init, before createthread, outside thread_push (or welcome, game_over and
      game_win, which have the same shape), or about to take the next step inside it. */
  datatype MainPc = Setup | Create | Outside | Allocating | Pushing | Leaving

  /** Where thread_dump is in its loop. */
  datatype DumpPc = Unborn | Waiting | Reading | Showing | Freeing | Signalling

  /** The memory that the two threads share, in pages: `mat`, `tmp`, the ring, the dumper's user stack, and the
      frames that push_frame found no room for. */
  datatype User = User(main: MainPc, dump: DumpPc, mat: nat, tmp: nat, ring: seq<nat>, stack: nat,
                       dropped: multiset<nat>)

  datatype World = World(k: Kernel, u: User)

  datatype Move =
    | Interrupt(e: Event)
    | MainInit | MainCreate | MainWait(r: Readings) | MainAlloc | MainPush | MainSignal
    | DumpWait(r: Readings) | DumpRead | DumpShow | DumpFree | DumpSignal

  predicate ByMain(v: Move) {
    v.MainInit? || v.MainCreate? || v.MainWait? || v.MainAlloc? || v.MainPush? || v.MainSignal?
  }

  /** The thread that moves runs, and is where it makes that move. An alloc of main that finds no page is not
      followed up: main would go on with an error code for a pointer. AllocSucceedsExactly says when it finds
      one. */
  predicate CanMove(w: World, v: Move)
    requires Shape(w.k.m)
  {
    && (v.Interrupt? || w.k.s.cur == if ByMain(v) then INIT else DUMPER)
    && match v
       case Interrupt(e) => IsInterrupt(e)
       case MainInit => w.u.main == Setup
       case MainCreate => w.u.main == Create
       case MainWait(_) => w.u.main == Outside
       case MainAlloc => w.u.main == Allocating && CanAlloc(w.k.m, w.k.m.cr3)
       case MainPush => w.u.main == Pushing
       case MainSignal => w.u.main == Leaving
       case DumpWait(_) => w.u.dump == Waiting
       case DumpRead => w.u.dump == Reading
       case DumpShow => w.u.dump == Showing
       case DumpFree => w.u.dump == Freeing
       case DumpSignal => w.u.dump == Signalling
  }

  /** The moves that enter the kernel. (What dump_screen does leaves no trace here.) */
  predicate Traps(v: Move) {
    !v.MainPush? && !v.DumpRead? && !v.DumpShow?
  }

  function TrapOf(w: World, v: Move): Trap
    requires Traps(v)
  {
    match v
    case Interrupt(e) => Simple(e)
    case MainInit => Simple(EvSemInit(GUARD, 1))
    case MainCreate => TrapCreateThread
    case MainWait(r) => Simple(EvSemWait(GUARD, r))
    case MainAlloc => TrapAlloc
    case MainSignal => Simple(EvSemSignal(GUARD))
    case DumpWait(r) => Simple(EvSemWait(GUARD, r))
    case DumpFree => TrapDealloc(w.u.tmp)
    case _ => Simple(EvSemSignal(GUARD))
  }

  /** The page that alloc answers with. */
  function NewPage(m: Mem): nat
    requires Shape(m)
  {
    if CanAlloc(m, m.cr3) then AllocResult(m, m.cr3) / PAGE_SIZE else 0
  }

  function Moved(w: World, v: Move): User
    requires Shape(w.k.m) && CanMove(w, v)
  {
    var u := w.u;
    match v
    case Interrupt(_) => u
    case MainInit => u.(main := Create)
    case MainCreate => u.(main := Outside, dump := Waiting, stack := NewPage(w.k.m))
    case MainWait(_) => u.(main := Allocating)
    case MainAlloc => u.(main := Pushing, mat := NewPage(w.k.m))
    case MainPush =>
      u.(main := Leaving, ring := Rings.Pushed(u.ring, Rings.FRAME_RING, u.mat),
         dropped := if |u.ring| < Rings.FRAME_RING then u.dropped else u.dropped + multiset{u.mat})
    case MainSignal => u.(main := Outside)
    case DumpWait(_) => u.(dump := Reading)
    case DumpRead =>
      if u.ring == [] then u.(dump := Signalling)
      else u.(dump := Showing, tmp := u.ring[0], ring := u.ring[1..])
    case DumpShow => u.(dump := Freeing)
    case DumpFree => u.(dump := Signalling)
    case DumpSignal => u.(dump := Waiting)
  }

  // ---------------------------------------------------------------- the invariant

  predicate MainInside(u: User) {
    u.main.Allocating? || u.main.Pushing? || u.main.Leaving?
  }

  predicate DumpInside(u: User) {
    u.dump.Reading? || u.dump.Showing? || u.dump.Freeing? || u.dump.Signalling?
  }

  function Count(b: bool): int {
    if b then 1 else 0
  }

  /** Who is where: the task structs of main and the dumper, which share the address space of main. */
  ghost predicate TwoThreads(w: World)
    requires WellFormed(w.k.s)
  {
    && w.k.s.task[INIT].dir == INIT
    && (w.u.dump.Unborn? <==> w.u.main.Setup? || w.u.main.Create?)
    && (w.u.dump.Unborn? ==> w.k.s.free == SR.Slots(2, 8) && w.u.ring == [] && w.u.dropped == multiset{})
    && (!w.u.dump.Unborn? ==> w.k.s.free == SR.Slots(3, 7) && w.k.s.task[DUMPER].dir == INIT)
  }

  /** One permit: it is in the semaphore, or with a thread inside; a second thread inside waits for it, and has
      not yet come out of its sem_wait. */
  ghost predicate OnePermit(w: World)
    requires WellFormed(w.k.s)
  {
    && (w.k.s.sem[GUARD].isInit <==> !w.u.main.Setup?)
    && (!w.u.main.Setup? ==> w.k.s.sem[GUARD].counter == 1 - Count(MainInside(w.u)) - Count(DumpInside(w.u)))
    && (forall i :: i in w.k.s.blocked[GUARD] ==>
          (i == INIT && w.u.main.Allocating?) || (i == DUMPER && w.u.dump.Reading?))
    && (forall n :: 0 < n < MAX_SEM ==> !w.k.s.sem[n].isInit && w.k.s.blocked[n] == [])
  }

  /** Every page that the threads know, once for every place in which they know it. */
  function Pages(u: User): multiset<nat> {
    (if u.dump.Unborn? then multiset{} else multiset{u.stack})
    + (if u.main.Pushing? then multiset{u.mat} else multiset{})
    + (if u.dump.Showing? || u.dump.Freeing? then multiset{u.tmp} else multiset{})
    + multiset(u.ring) + u.dropped
  }

  predicate IsHeap(p: nat) {
    INIT_HEAP <= p < TOTAL_PAGES
  }

  predicate Mapped(m: Mem, p: nat) {
    IsHeap(p) && INIT < |m.pt| && p < |m.pt[INIT]| && m.pt[INIT][p].frame != 0
  }

  /** The heap pages that are mapped are exactly the pages that the threads know, each in one place. */
  ghost predicate PagesAgree(w: World) {
    forall p: nat :: Pages(w.u)[p] == if Mapped(w.k.m, p) then 1 else 0
  }

  /** Every page takes one of the 356 frames that are free after boot; the others are free. */
  const FRAMES: nat := 356

  ghost predicate FramesCounted(w: World) {
    |FreeEven(w.k.m.used)| + |Pages(w.u)| == FRAMES
  }

  ghost predicate ProtocolInv(w: World) {
    && KernelInv(w.k) && TwoThreads(w) && OnePermit(w) && PagesAgree(w) && FramesCounted(w)
    && |w.u.ring| <= Rings.FRAME_RING
  }

  // ---------------------------------------------------------------- how many pages there are

  function Range(lo: nat, n: nat): (s: set<nat>)
    ensures |s| == n && forall p: nat :: p in s <==> lo <= p < lo + n
  {
    if n == 0 then {} else Range(lo, n - 1) + {lo + n - 1}
  }

  /** A full heap means more pages than there are frames. */
  lemma FullHeap(w: World)
    requires Shape(w.k.m) && PagesAgree(w)
    ensures FirstHole(w.k.m.pt[INIT], INIT_HEAP) < TOTAL_PAGES || |Pages(w.u)| >= TOTAL_PAGES - INIT_HEAP
  {
    hide Pages;
    if FirstHole(w.k.m.pt[INIT], INIT_HEAP) >= TOTAL_PAGES {
      AllMapped(w.k.m);
      var s: set<nat> := Range(INIT_HEAP, TOTAL_PAGES - INIT_HEAP);
      var heap: multiset<nat> := multiset(s);
      forall p: nat ensures heap[p] <= Pages(w.u)[p] {
        assert p in s ==> Mapped(w.k.m, p);
      }
      assert Pages(w.u) == heap + (Pages(w.u) - heap);
    }
  }

  lemma AllMapped(m: Mem)
    requires Shape(m) && FirstHole(m.pt[INIT], INIT_HEAP) >= TOTAL_PAGES
    ensures forall p: nat :: IsHeap(p) ==> Mapped(m, p)
  {
  }

  /** alloc finds a page if and only if fewer than FRAMES pages are known. */
  lemma RoomExactly(w: World)
    requires Shape(w.k.m) && PagesAgree(w) && FramesCounted(w)
    ensures CanAlloc(w.k.m, INIT) <==> |Pages(w.u)| < FRAMES
  {
    FullHeap(w);
    FreeListSize(w.k.m.used);
    hide FreeEven, FreeFrom, Pages;
  }

  // ---------------------------------------------------------------- what the traps do to all this

  ghost predicate SameTasks(s: Sched, d: Sched)
    requires WellFormed(s)
  {
    WellFormed(d) && d.free == s.free && forall i :: 0 <= i < NR_TASKS ==> d.task[i].dir == s.task[i].dir
  }

  ghost predicate SameSemaphores(s: Sched, d: Sched) {
    d.sem == s.sem && d.blocked == s.blocked
  }

  lemma SimpleEffect(k: Kernel, e: Event)
    requires Ready(k, Simple(e))
    ensures Safe(k.s, e) && Inv(k.s)
    ensures Next(k, Simple(e)).s == Step(k.s, e) && Next(k, Simple(e)).m.pt == k.m.pt
    ensures Next(k, Simple(e)).m.used == k.m.used
    ensures SameTasks(k.s, Step(k.s, e))
  {
    hide OnePlace, WaitersAgree, SemaphoresAgree, CpuAgrees, Owned, SharedAreUsed, TlbCovers, Step, Switches;
    EnabledIsSafe(k.s, e);
    KR.FreeAfter(k.s, e);
    forall i | 0 <= i < NR_TASKS ensures Step(k.s, e).task[i].dir == k.s.task[i].dir {
      StepDirs(k.s, e, i);
    }
  }

  lemma InterruptEffect(s: Sched, e: Event)
    requires Inv(s) && Enabled(s, e) && IsInterrupt(e)
    ensures Safe(s, e) && SameSemaphores(s, Step(s, e))
  {
    hide OnePlace, WaitersAgree, SemaphoresAgree, CpuAgrees, Step;
    EnabledIsSafe(s, e);
    forall n | 0 <= n < MAX_SEM
      ensures Step(s, e).sem[n] == s.sem[n] && Step(s, e).blocked[n] == s.blocked[n]
    {
      SR.OtherSemaphores(s, e, n);
    }
  }

  lemma WaitEffect(s: Sched, r: Readings)
    requires Inv(s) && s.cur != IDLE && ValidSem(s, GUARD)
    ensures var e := EvSemWait(GUARD, r); var d := Step(s, e);
            && d.sem == s.sem[GUARD := Semaphore(true, s.sem[GUARD].counter - 1)]
            && d.blocked == s.blocked[GUARD := if s.sem[GUARD].counter <= 0 then s.blocked[GUARD] + [s.cur]
                                               else s.blocked[GUARD]]
  {
    hide OnePlace, WaitersAgree, SemaphoresAgree, CpuAgrees, Step;
    var e := EvSemWait(GUARD, r);
    SR.WaitStep(s, GUARD, r);
    forall n | 0 <= n < MAX_SEM && n != GUARD
      ensures Step(s, e).sem[n] == s.sem[n] && Step(s, e).blocked[n] == s.blocked[n]
    {
      SR.OtherSemaphores(s, e, n);
    }
  }

  lemma SignalEffect(s: Sched)
    requires Inv(s) && s.cur != IDLE && ValidSem(s, GUARD) && s.sem[GUARD].counter < INT_MAX
    ensures var e := EvSemSignal(GUARD);
            && Safe(s, e)
            && var d := Step(s, e);
               && d.sem == s.sem[GUARD := Semaphore(true, s.sem[GUARD].counter + 1)]
               && d.blocked == s.blocked[GUARD := if s.sem[GUARD].counter < 0 then s.blocked[GUARD][1..]
                                                  else s.blocked[GUARD]]
  {
    hide OnePlace, WaitersAgree, CpuAgrees;
  }

  lemma InitEffect(s: Sched)
    requires Inv(s) && !s.sem[GUARD].isInit
    ensures var d := Step(s, EvSemInit(GUARD, 1));
            d.sem == s.sem[GUARD := Semaphore(true, 1)] && d.blocked == s.blocked
  {
    hide OnePlace, WaitersAgree, CpuAgrees;
    assert s.blocked[GUARD := []] == s.blocked;
  }

  lemma CreateEffect(k: Kernel)
    requires Ready(k, TrapCreateThread) && k.s.free != [] && k.s.cur == INIT
    ensures var d := Next(k, TrapCreateThread);
            && d.m == Alloc(k.m, k.m.cr3) && d.s.free == k.s.free[1..] && SameSemaphores(k.s, d.s)
            && (forall i :: 0 <= i < NR_TASKS ==>
                  d.s.task[i].dir == if i == k.s.free[0] then k.s.task[INIT].dir else k.s.task[i].dir)
  {
    hide OnePlace, WaitersAgree, SemaphoresAgree, CpuAgrees, Owned, SharedAreUsed, TlbCovers, Alloc, Step;
    var e := EvCreateThread;
    KR.FreeAfter(k.s, e);
    forall i | 0 <= i < NR_TASKS
      ensures Step(k.s, e).task[i].dir == if i == k.s.free[0] then k.s.task[INIT].dir else k.s.task[i].dir
    {
      StepDirs(k.s, e, i);
    }
    forall n | 0 <= n < MAX_SEM
      ensures Step(k.s, e).sem[n] == k.s.sem[n] && Step(k.s, e).blocked[n] == k.s.blocked[n]
    {
      SR.OtherSemaphores(k.s, e, n);
    }
  }

  lemma HeapEffect(k: Kernel, t: Trap)
    requires Ready(k, t) && (t.TrapAlloc? || t.TrapDealloc?)
    ensures SameTasks(k.s, Next(k, t).s) && SameSemaphores(k.s, Next(k, t).s)
    ensures Next(k, t).m == MemoryHalf(k, t)
  {
    hide OnePlace, WaitersAgree, SemaphoresAgree, CpuAgrees, Owned, SharedAreUsed, TlbCovers, MemoryHalf;
  }

  /** alloc maps one page of the process that was not mapped, and answers with it. */
  lemma AllocPages(m: Mem)
    requires MemInv(m) && m.cr3 == INIT && CanAlloc(m, INIT)
    ensures IsHeap(NewPage(m)) && !Mapped(m, NewPage(m))
    ensures forall p: nat :: Mapped(Alloc(m, INIT), p) <==> Mapped(m, p) || p == NewPage(m)
  {
    hide Owned, SharedAreUsed, TlbCovers, FreeFrom;
    FreeListSound(m.used, NUM_PAG_KERNEL);
  }

  /** dealloc of a mapped page succeeds and unmaps that page only. */
  lemma DeallocPages(m: Mem, page: nat)
    requires Shape(m) && Mapped(m, page)
    ensures DeallocResult(m, INIT, page) == 0
    ensures forall p: nat :: Mapped(Dealloc(m, INIT, page), p) <==> Mapped(m, p) && p != page
  {
  }

  // ---------------------------------------------------------------- every move keeps the invariant

  /** In a state of the protocol, whatever a thread may do next is something the kernel allows. */
  lemma MovesAreReady(w: World, v: Move)
    requires ProtocolInv(w) && CanMove(w, v) && Traps(v)
    ensures Ready(w.k, TrapOf(w, v))
  {
    hide OnePlace, WaitersAgree, SemaphoresAgree, CpuAgrees, Owned, SharedAreUsed, TlbCovers, PagesAgree, FramesCounted;
    if v.MainCreate? {
      RoomForStack(w);
    }
  }

  /** Before createthread no page is known, so that it finds one for the stack. */
  lemma RoomForStack(w: World)
    requires ProtocolInv(w) && w.u.dump.Unborn?
    ensures CanAlloc(w.k.m, INIT)
  {
    RoomExactly(w);
    assert Pages(w.u) == multiset{};
  }

  /** One move; the kernel's part is what the trap does. */
  ghost predicate Happens(w: World, v: Move, d: World) {
    && Shape(w.k.m) && CanMove(w, v) && d.u == Moved(w, v)
    && d.k == if Traps(v) then After(w.k, TrapOf(w, v)) else w.k
  }

  /** What a trap starts from and leads to. */
  lemma TrapHappens(w: World, v: Move, d: World)
    requires ProtocolInv(w) && Happens(w, v, d) && Traps(v)
    ensures Ready(w.k, TrapOf(w, v)) && d.k == Next(w.k, TrapOf(w, v)) && KernelInv(d.k)
    ensures Shape(w.k.m) && CanMove(w, v) && d.u == Moved(w, v)
    ensures WellFormed(w.k.s) && TwoThreads(w) && OnePermit(w) && PagesAgree(w) && FramesCounted(w)
    ensures |w.u.ring| <= Rings.FRAME_RING
    ensures Inv(w.k.s) && w.k.s.cur !in w.k.s.blocked[GUARD]
    ensures !v.Interrupt? ==> w.k.m.cr3 == INIT && MemInv(w.k.m)
  {
    hide OnePlace, SemaphoresAgree, WaitersAgree, CpuAgrees, Own, TlbCovers, Next, Ready, PagesAgree, FramesCounted;
    MovesAreReady(w, v);
    ReadyMeans(w.k, TrapOf(w, v));
    NextInv(w.k, TrapOf(w, v));
    QueuesDisjoint(w.k.s);
  }

  lemma ReadyMeans(k: Kernel, t: Trap)
    requires Ready(k, t)
    ensures KernelInv(k) && Allowed(k, t)
  {
  }

  lemma SamePages(w: World, d: World)
    requires PagesAgree(w) && FramesCounted(w) && Pages(d.u) == Pages(w.u)
    requires d.k.m.pt == w.k.m.pt && d.k.m.used == w.k.m.used
    ensures PagesAgree(d) && FramesCounted(d)
  {
    assert forall p: nat :: Mapped(d.k.m, p) <==> Mapped(w.k.m, p);
  }

  lemma SameHeld(u: User, x: User)
    requires x == u.(main := x.main, dump := x.dump) && (x.dump.Unborn? <==> u.dump.Unborn?)
    requires x.main == u.main || (!u.main.Pushing? && !x.main.Pushing?)
    requires x.dump == u.dump || !(u.dump.Showing? || u.dump.Freeing? || x.dump.Showing? || x.dump.Freeing?)
    ensures Pages(x) == Pages(u)
  {
  }

  lemma SameThreads(w: World, d: World)
    requires WellFormed(w.k.s) && TwoThreads(w) && SameTasks(w.k.s, d.k.s)
    requires d.u.dump.Unborn? <==> w.u.dump.Unborn?
    requires d.u.main.Setup? || d.u.main.Create? <==> w.u.main.Setup? || w.u.main.Create?
    requires w.u.dump.Unborn? ==> d.u.ring == w.u.ring && d.u.dropped == w.u.dropped
    ensures TwoThreads(d)
  {
  }

  lemma SamePermit(w: World, d: World)
    requires WellFormed(w.k.s) && WellFormed(d.k.s) && OnePermit(w) && SameSemaphores(w.k.s, d.k.s)
    requires (d.u.main.Setup? <==> w.u.main.Setup?) && (MainInside(d.u) <==> MainInside(w.u))
    requires DumpInside(d.u) <==> DumpInside(w.u)
    requires INIT in w.k.s.blocked[GUARD] ==> d.u.main == w.u.main
    requires DUMPER in w.k.s.blocked[GUARD] ==> d.u.dump == w.u.dump
    ensures OnePermit(d)
  {
  }

  lemma Together(d: World)
    requires KernelInv(d.k) && TwoThreads(d) && OnePermit(d) && PagesAgree(d) && FramesCounted(d)
    requires |d.u.ring| <= Rings.FRAME_RING
    ensures ProtocolInv(d)
  {
  }

  lemma InterruptKeeps(w: World, v: Move, d: World)
    requires ProtocolInv(w) && Happens(w, v, d) && v.Interrupt?
    ensures ProtocolInv(d)
  {
    hide ProtocolInv, KernelInv, Ready, Next, Happens, PagesAgree, FramesCounted, TwoThreads, OnePermit, Step, Enabled, Inv;
    TrapHappens(w, v, d);
    SimpleEnabled(w.k, v.e);
    SimpleEffect(w.k, v.e);
    InterruptEffect(w.k.s, v.e);
    SameThreads(w, d);
    SamePermit(w, d);
    SamePages(w, d);
    Together(d);
  }

  lemma SimpleEnabled(k: Kernel, e: Event)
    requires Ready(k, Simple(e))
    ensures Inv(k.s) && Enabled(k.s, e) && Shape(k.m)
  {
  }

  /** The kernel's half of sem_init. */
  lemma InitHalf(w: World, d: World)
    requires Ready(w.k, Simple(EvSemInit(GUARD, 1))) && d.k == Next(w.k, Simple(EvSemInit(GUARD, 1)))
    requires WellFormed(w.k.s) && Inv(w.k.s) && OnePermit(w) && w.u.main.Setup? && w.u.dump.Unborn?
    requires d.u == w.u.(main := Create)
    ensures OnePermit(d) && SameTasks(w.k.s, d.k.s) && d.k.m.pt == w.k.m.pt && d.k.m.used == w.k.m.used
  {
    hide Ready, Next, Step, Inv;
    SimpleEffect(w.k, EvSemInit(GUARD, 1));
    InitEffect(w.k.s);
    UninitIsEmpty(w.k.s);
    PermitAfterInit(w, d);
  }

  lemma InitKeeps(w: World, v: Move, d: World)
    requires ProtocolInv(w) && Happens(w, v, d) && v.MainInit?
    ensures ProtocolInv(d)
  {
    hide ProtocolInv, KernelInv, Ready, Next, Happens, PagesAgree, FramesCounted, TwoThreads, OnePermit, Step, Inv,
      Pages;
    TrapHappens(w, v, d);
    BornMeansCreated(w);
    InitHalf(w, d);
    SameHeld(w.u, d.u);
    SameThreads(w, d);
    SamePages(w, d);
    Together(d);
  }

  lemma PermitAfterInit(w: World, d: World)
    requires WellFormed(w.k.s) && WellFormed(d.k.s) && OnePermit(w) && w.k.s.blocked[GUARD] == []
    requires d.u == w.u.(main := Create) && !DumpInside(w.u) && d.k.s.blocked == w.k.s.blocked
    requires d.k.s.sem == w.k.s.sem[GUARD := Semaphore(true, 1)]
    ensures OnePermit(d)
  {
  }

  lemma UninitIsEmpty(s: Sched)
    requires Inv(s) && !s.sem[GUARD].isInit
    ensures s.blocked[GUARD] == []
  {
  }

  lemma PermitAfterWait(w: World, v: Move, d: World)
    requires Shape(w.k.m) && CanMove(w, v) && (v.MainWait? || v.DumpWait?) && d.u == Moved(w, v)
    requires WellFormed(w.k.s) && WellFormed(d.k.s) && OnePermit(w) && !w.u.main.Setup?
    requires d.k.s.sem == w.k.s.sem[GUARD := Semaphore(true, w.k.s.sem[GUARD].counter - 1)]
    requires d.k.s.blocked
          == w.k.s.blocked[GUARD := if w.k.s.sem[GUARD].counter <= 0 then w.k.s.blocked[GUARD] + [w.k.s.cur]
                                    else w.k.s.blocked[GUARD]]
    ensures OnePermit(d)
  {
  }

  /** The kernel's half of sem_wait. */
  lemma WaitHalf(w: World, v: Move, d: World)
    requires Shape(w.k.m) && CanMove(w, v) && (v.MainWait? || v.DumpWait?) && d.u == Moved(w, v)
    requires Ready(w.k, Simple(EvSemWait(GUARD, v.r))) && d.k == Next(w.k, Simple(EvSemWait(GUARD, v.r)))
    requires WellFormed(w.k.s) && Inv(w.k.s) && OnePermit(w) && !w.u.main.Setup?
    ensures OnePermit(d) && SameTasks(w.k.s, d.k.s) && d.k.m.pt == w.k.m.pt && d.k.m.used == w.k.m.used
  {
    hide Ready, Next, Step, Inv;
    SimpleEffect(w.k, EvSemWait(GUARD, v.r));
    WaitEffect(w.k.s, v.r);
    PermitAfterWait(w, v, d);
  }

  lemma WaitKeeps(w: World, v: Move, d: World)
    requires ProtocolInv(w) && Happens(w, v, d) && (v.MainWait? || v.DumpWait?)
    ensures ProtocolInv(d)
  {
    hide ProtocolInv, KernelInv, Ready, Next, Happens, PagesAgree, FramesCounted, TwoThreads, OnePermit, Step, Inv,
      Pages;
    TrapHappens(w, v, d);
    BornMeansCreated(w);
    WaitHalf(w, v, d);
    SameHeld(w.u, d.u);
    SameThreads(w, d);
    SamePages(w, d);
    Together(d);
  }

  lemma BornMeansCreated(w: World)
    requires WellFormed(w.k.s) && TwoThreads(w)
    ensures w.u.dump.Unborn? <==> w.u.main.Setup? || w.u.main.Create?
  {
  }

  lemma PermitAfterSignal(w: World, v: Move, d: World)
    requires Shape(w.k.m) && CanMove(w, v) && (v.MainSignal? || v.DumpSignal?) && d.u == Moved(w, v)
    requires WellFormed(w.k.s) && WellFormed(d.k.s) && OnePermit(w) && !w.u.main.Setup?
    requires |w.k.s.blocked[GUARD]| == Deficit(w.k.s.sem[GUARD].counter) && w.k.s.cur !in w.k.s.blocked[GUARD]
    requires d.k.s.sem == w.k.s.sem[GUARD := Semaphore(true, w.k.s.sem[GUARD].counter + 1)]
    requires d.k.s.blocked
          == w.k.s.blocked[GUARD := if w.k.s.sem[GUARD].counter < 0 then w.k.s.blocked[GUARD][1..]
                                    else w.k.s.blocked[GUARD]]
    ensures OnePermit(d)
  {
  }

  /** The kernel's half of sem_signal. */
  lemma SignalHalf(w: World, v: Move, d: World)
    requires Shape(w.k.m) && CanMove(w, v) && (v.MainSignal? || v.DumpSignal?) && d.u == Moved(w, v)
    requires Ready(w.k, Simple(EvSemSignal(GUARD))) && d.k == Next(w.k, Simple(EvSemSignal(GUARD)))
    requires WellFormed(w.k.s) && Inv(w.k.s) && OnePermit(w) && !w.u.main.Setup? && w.k.s.cur !in w.k.s.blocked[GUARD]
    ensures OnePermit(d) && SameTasks(w.k.s, d.k.s) && d.k.m.pt == w.k.m.pt && d.k.m.used == w.k.m.used
  {
    hide Ready, Next, Step, Inv;
    SimpleEffect(w.k, EvSemSignal(GUARD));
    SignalEffect(w.k.s);
    DeficitIsQueue(w.k.s);
    PermitAfterSignal(w, v, d);
  }

  lemma SignalKeeps(w: World, v: Move, d: World)
    requires ProtocolInv(w) && Happens(w, v, d) && (v.MainSignal? || v.DumpSignal?)
    ensures ProtocolInv(d)
  {
    hide ProtocolInv, KernelInv, Ready, Next, Happens, PagesAgree, FramesCounted, TwoThreads, OnePermit, Step, Inv,
      Pages;
    TrapHappens(w, v, d);
    BornMeansCreated(w);
    SignalHalf(w, v, d);
    SameHeld(w.u, d.u);
    SameThreads(w, d);
    SamePages(w, d);
    Together(d);
  }

  lemma DeficitIsQueue(s: Sched)
    requires Inv(s) && s.sem[GUARD].isInit
    ensures |s.blocked[GUARD]| == Deficit(s.sem[GUARD].counter)
  {
  }

  lemma CreateKeeps(w: World, v: Move, d: World)
    requires ProtocolInv(w) && Happens(w, v, d) && v.MainCreate?
    ensures ProtocolInv(d)
  {
    hide ProtocolInv, KernelInv, Ready, Next, Happens, PagesAgree, FramesCounted, OnePermit, Alloc, Enabled, Inv, MemInv,
      NewPage, CanAlloc;
    TrapHappens(w, v, d);
    UnbornIsNotBlocked(w);
    CreateFindsPage(w.k);
    CreateEffect(w.k);
    NextShape(w.k, TrapCreateThread);
    SamePermit(w, d);
    OneMorePage(w, d, d.u.stack);
    Together(d);
  }

  lemma NextShape(k: Kernel, t: Trap)
    requires Ready(k, t)
    ensures WellFormed(Next(k, t).s) && Shape(Next(k, t).m)
  {
  }

  lemma UnbornIsNotBlocked(w: World)
    requires WellFormed(w.k.s) && TwoThreads(w) && OnePermit(w) && w.u.main.Create?
    ensures w.u.dump.Unborn? && DUMPER !in w.k.s.blocked[GUARD]
  {
  }

  lemma CreateFindsPage(k: Kernel)
    requires Ready(k, TrapCreateThread) && k.s.free != []
    ensures Shape(k.m) && CanAlloc(k.m, k.m.cr3)
  {
  }

  lemma OneMorePage(w: World, d: World, p: nat)
    requires PagesAgree(w) && FramesCounted(w) && MemInv(w.k.m) && w.k.m.cr3 == INIT && CanAlloc(w.k.m, INIT)
    requires p == NewPage(w.k.m) && d.k.m == Alloc(w.k.m, INIT) && Pages(d.u) == Pages(w.u) + multiset{p}
    ensures PagesAgree(d) && FramesCounted(d)
  {
    MemShape(w.k.m);
    hide Mapped, NewPage, Alloc, MemInv, Pages, FreeEven, CanAlloc;
    AllocTakesOne(w.k.m, INIT);
    AllocPages(w.k.m);
  }

  lemma AllocKeeps(w: World, v: Move, d: World)
    requires ProtocolInv(w) && Happens(w, v, d) && v.MainAlloc?
    ensures ProtocolInv(d)
  {
    hide ProtocolInv, KernelInv, Ready, Next, Happens, PagesAgree, FramesCounted, TwoThreads, OnePermit, Alloc, Enabled, Inv,
      MemInv, NewPage;
    TrapHappens(w, v, d);
    HeapEffect(w.k, TrapAlloc);
    SameThreads(w, d);
    SamePermit(w, d);
    OneMorePage(w, d, d.u.mat);
    Together(d);
  }

  lemma FreeKeeps(w: World, v: Move, d: World)
    requires ProtocolInv(w) && Happens(w, v, d) && v.DumpFree?
    ensures ProtocolInv(d)
  {
    hide ProtocolInv, KernelInv, Ready, Next, Happens, PagesAgree, FramesCounted, TwoThreads, OnePermit, Dealloc, Enabled,
      Inv, MemInv, Pages;
    TrapHappens(w, v, d);
    HeapEffect(w.k, TrapDealloc(w.u.tmp));
    SameThreads(w, d);
    SamePermit(w, d);
    FreedPages(w.u);
    OnePageLess(w, d, w.u.tmp);
    Together(d);
  }

  lemma DeallocGivesOne(m: Mem, p: nat)
    requires MemInv(m) && Mapped(m, p)
    ensures |FreeEven(Dealloc(m, INIT, p).used)| == |FreeEven(m.used)| + 1
  {
    hide TlbCovers, SharedAreUsed;
    var f := m.pt[INIT][p].frame;
    assert Private(p) && EntryOwns(m.used, m.pt[INIT][p]);
    OneFrameMore(m.used, f);
  }

  lemma FreedPages(u: User)
    requires u.dump.Freeing?
    ensures Pages(u) == Pages(u.(dump := Signalling)) + multiset{u.tmp}
  {
  }

  lemma MemShape(m: Mem)
    requires MemInv(m)
    ensures Shape(m)
  {
  }

  lemma OnePageLess(w: World, d: World, p: nat)
    requires PagesAgree(w) && FramesCounted(w) && MemInv(w.k.m) && Pages(w.u) == Pages(d.u) + multiset{p}
    requires d.k.m == Dealloc(w.k.m, INIT, p)
    ensures PagesAgree(d) && FramesCounted(d) && Mapped(w.k.m, p)
  {
    MemShape(w.k.m);
    hide Mapped, Dealloc, Pages, MemInv, FreeEven;
    assert Pages(w.u)[p] >= 1;
    DeallocPages(w.k.m, p);
    DeallocGivesOne(w.k.m, p);
    forall q: nat ensures Pages(d.u)[q] == if Mapped(d.k.m, q) then 1 else 0 {
      assert Pages(w.u)[q] == if Mapped(w.k.m, q) then 1 else 0;
    }
  }

  lemma PushPages(u: User)
    requires u.main.Pushing?
    ensures Pages(u.(main := Leaving, ring := Rings.Pushed(u.ring, Rings.FRAME_RING, u.mat),
                     dropped := if |u.ring| < Rings.FRAME_RING then u.dropped else u.dropped + multiset{u.mat})) == Pages(u)
  {
  }

  lemma ReadPages(u: User)
    requires u.dump.Reading? && u.ring != []
    ensures Pages(u.(dump := Showing, tmp := u.ring[0], ring := u.ring[1..])) == Pages(u)
  {
    Uncons(u.ring);
  }

  lemma LocalKeeps(w: World, v: Move, d: World)
    requires ProtocolInv(w) && Happens(w, v, d) && !Traps(v)
    ensures ProtocolInv(d)
  {
    hide KernelInv, Ready, Next, PagesAgree, FramesCounted, TwoThreads, OnePermit, Pages;
    match v {
      case MainPush => PushPages(w.u);
      case DumpRead =>
        if w.u.ring != [] {
          ReadPages(w.u);
        } else {
          SilentPages(w.u);
        }
      case DumpShow => SilentPages(w.u);
    }
    ShapeOf(w.k);
    RunnerIsNotBlocked(w.k);
    BornMeansCreated(w);
    SameThreads(w, d);
    SamePermit(w, d);
    SamePages(w, d);
    Together(d);
  }

  lemma RunnerIsNotBlocked(k: Kernel)
    requires KernelInv(k)
    ensures WellFormed(k.s) && k.s.cur !in k.s.blocked[GUARD]
  {
    QueuesDisjoint(k.s);
  }

  lemma ShapeOf(k: Kernel)
    requires KernelInv(k)
    ensures WellFormed(k.s) && SameTasks(k.s, k.s)
  {
  }

  lemma SilentPages(u: User)
    ensures u.dump.Reading? ==> Pages(u.(dump := Signalling)) == Pages(u)
    ensures u.dump.Showing? ==> Pages(u.(dump := Freeing)) == Pages(u)
  {
  }

  lemma MoveKeeps(w: World, v: Move, d: World)
    requires ProtocolInv(w) && Happens(w, v, d)
    ensures ProtocolInv(d)
  {
    hide ProtocolInv, Happens;
    match v
    case Interrupt(_) => InterruptKeeps(w, v, d);
    case MainInit => InitKeeps(w, v, d);
    case MainCreate => CreateKeeps(w, v, d);
    case MainAlloc => AllocKeeps(w, v, d);
    case DumpFree => FreeKeeps(w, v, d);
    case MainPush => LocalKeeps(w, v, d);
    case DumpRead => LocalKeeps(w, v, d);
    case DumpShow => LocalKeeps(w, v, d);
    case MainWait(_) => WaitKeeps(w, v, d);
    case DumpWait(_) => WaitKeeps(w, v, d);
    case _ => SignalKeeps(w, v, d);
  }

  // ---------------------------------------------------------------- runs

  function Start(r: Readings, guards: set<nat>): World {
    World(KR.BootKernel(r, guards), User(Setup, Unborn, 0, 0, [], 0, multiset{}))
  }

  lemma StartInv(r: Readings, guards: set<nat>)
    ensures ProtocolInv(Start(r, guards))
  {
    var w := Start(r, guards);
    KR.BootKernelInv(r, guards);
    hide KernelInv, PL.BootMem;
    forall p: nat ensures !Mapped(w.k.m, p) {
      if IsHeap(p) {
        PL.BootEntry(guards, INIT, p);
      }
    }
    PL.BootFree(guards);
  }

  ghost predicate MoveAt(vs: seq<Move>, ws: seq<World>, n: nat)
    requires n < |vs| && |ws| == |vs| + 1
  {
    Happens(ws[n], vs[n], ws[n + 1])
  }

  /** A run of the game: any interleaving of the two threads with any interrupts, from boot. */
  ghost predicate IsRun(r: Readings, guards: set<nat>, vs: seq<Move>, ws: seq<World>) {
    && |ws| == |vs| + 1
    && ws[0] == Start(r, guards)
    && forall n :: 0 <= n < |vs| ==> MoveAt(vs, ws, n)
  }

  lemma {:induction false} ProtocolAlways(r: Readings, guards: set<nat>, vs: seq<Move>, ws: seq<World>, n: nat)
    requires IsRun(r, guards, vs, ws) && n < |ws|
    ensures ProtocolInv(ws[n])
  {
    hide ProtocolInv, Happens, Start;
    if n == 0 {
      StartInv(r, guards);
    } else {
      ProtocolAlways(r, guards, vs, ws, n - 1);
      assert MoveAt(vs, ws, n - 1);
      MoveKeeps(ws[n - 1], vs[n - 1], ws[n]);
    }
  }

  // ---------------------------------------------------------------- what the guard guards

  /** The thread has come out of its sem_wait and has not yet called sem_signal. */
  ghost predicate Holds(w: World, i: nat) {
    GUARD < |w.k.s.blocked| && i !in w.k.s.blocked[GUARD]
    && ((i == INIT && MainInside(w.u)) || (i == DUMPER && DumpInside(w.u)))
  }

  /** In every state of every run: the two threads are never both inside, and the one that runs inside is the
      only one; the semaphore is free exactly when nobody is inside. */
  lemma OneInside(r: Readings, guards: set<nat>, vs: seq<Move>, ws: seq<World>, n: nat)
    requires IsRun(r, guards, vs, ws) && n < |ws|
    ensures !(Holds(ws[n], INIT) && Holds(ws[n], DUMPER))
    ensures ws[n].k.s.cur == INIT && MainInside(ws[n].u) ==> Holds(ws[n], INIT)
    ensures ws[n].k.s.cur == DUMPER && DumpInside(ws[n].u) ==> Holds(ws[n], DUMPER)
    ensures WellFormed(ws[n].k.s)
    ensures !ws[n].u.main.Setup? ==>
              (ws[n].k.s.sem[GUARD].counter == 1 <==> !MainInside(ws[n].u) && !DumpInside(ws[n].u))
  {
    ProtocolAlways(r, guards, vs, ws, n);
    InsideAlone(ws[n]);
  }

  lemma InsideAlone(w: World)
    requires ProtocolInv(w)
    ensures WellFormed(w.k.s) && !(Holds(w, INIT) && Holds(w, DUMPER))
    ensures w.k.s.cur !in w.k.s.blocked[GUARD]
    ensures !w.u.main.Setup? ==> (w.k.s.sem[GUARD].counter == 1 <==> !MainInside(w.u) && !DumpInside(w.u))
  {
    hide OnePlace, WaitersAgree, CpuAgrees, MemInv, PagesAgree;
    QueuesDisjoint(w.k.s);
    if MainInside(w.u) && DumpInside(w.u) {
      assert |w.k.s.blocked[GUARD]| == 1;
      assert w.k.s.blocked[GUARD][0] in w.k.s.blocked[GUARD];
    }
  }

  /** Two different positions of the ring name two different pages, which are mapped, and which are not the
      dumper's stack, a dropped frame, or the frame that main draws or the dumper shows. */
  ghost predicate RingSound(w: World, i: nat, j: nat) {
    var u := w.u;
    i < j < |u.ring| ==>
      && Mapped(w.k.m, u.ring[i]) && Mapped(w.k.m, u.ring[j]) && u.ring[i] != u.ring[j]
  }

  ghost predicate RingApart(w: World, i: nat) {
    var u := w.u;
    i < |u.ring| ==>
      && Mapped(w.k.m, u.ring[i]) && u.ring[i] !in u.dropped
      && (!u.dump.Unborn? ==> u.ring[i] != u.stack)
      && (u.main.Pushing? ==> u.ring[i] != u.mat)
      && (u.dump.Showing? || u.dump.Freeing? ==> u.ring[i] != u.tmp)
  }

  /** In every state of every run: every pointer in the ring is a mapped heap page, no two are the same, and
      none is the page of the dumper's stack, or the frame that main is drawing or the dumper is showing. */
  lemma RingIsSound(r: Readings, guards: set<nat>, vs: seq<Move>, ws: seq<World>, n: nat, i: nat, j: nat)
    requires IsRun(r, guards, vs, ws) && n < |ws|
    ensures RingApart(ws[n], i) && RingSound(ws[n], i, j)
  {
    hide ProtocolInv, RingSound, RingApart, Happens;
    ProtocolAlways(r, guards, vs, ws, n);
    RingPages(ws[n], i);
    RingTwice(ws[n], i, j);
  }

  lemma RingPages(w: World, i: nat)
    requires ProtocolInv(w)
    ensures RingApart(w, i)
  {
    hide KernelInv, TwoThreads, OnePermit, Mapped;
    if i < |w.u.ring| {
      var p := w.u.ring[i];
      assert p in multiset(w.u.ring);
      assert Pages(w.u)[p] <= 1;
    }
  }

  lemma RingTwice(w: World, i: nat, j: nat)
    requires ProtocolInv(w)
    ensures RingSound(w, i, j)
  {
    hide KernelInv, TwoThreads, OnePermit, Mapped;
    var q := w.u.ring;
    if i < j < |q| {
      var a, b := q[..i + 1], q[i + 1..];
      assert q == a + b && a[i] == q[i] && b[j - i - 1] == q[j];
      assert q[i] in multiset(a) && q[j] in multiset(b);
      assert multiset(q) == multiset(a) + multiset(b);
      assert q[i] in multiset(q) && q[j] in multiset(q);
      assert Pages(w.u)[q[i]] <= 1 && Pages(w.u)[q[j]] <= 1;
    }
  }

  /** Whenever the dumper frees the frame that it has shown: dealloc answers 0, so the page was mapped, and
      afterwards it is not, and no thread knows it any more: it cannot be freed again. Nobody waits in vain
      for it either: dump_screen, just before, found the page mapped too. */
  lemma FreeSucceedsOnce(r: Readings, guards: set<nat>, vs: seq<Move>, ws: seq<World>, n: nat)
    requires IsRun(r, guards, vs, ws) && n < |vs| && vs[n].DumpFree?
    ensures var w, d := ws[n], ws[n + 1];
            && Shape(w.k.m) && DeallocResult(w.k.m, w.k.m.cr3, w.u.tmp) == 0
            && d.k.s.cur < |d.k.s.task| && Current(d.k.s).ret == 0
            && Mapped(w.k.m, w.u.tmp) && !Mapped(d.k.m, w.u.tmp) && w.u.tmp !in Pages(d.u)
  {
    hide ProtocolInv;
    ProtocolAlways(r, guards, vs, ws, n);
    ProtocolAlways(r, guards, vs, ws, n + 1);
    assert MoveAt(vs, ws, n);
    FreeAnswers(ws[n], vs[n], ws[n + 1]);
  }

  lemma FreeAnswers(w: World, v: Move, d: World)
    requires ProtocolInv(w) && ProtocolInv(d) && Happens(w, v, d) && v.DumpFree?
    ensures Shape(w.k.m) && DeallocResult(w.k.m, w.k.m.cr3, w.u.tmp) == 0
    ensures d.k.s.cur < |d.k.s.task| && Current(d.k.s).ret == 0
    ensures Mapped(w.k.m, w.u.tmp) && !Mapped(d.k.m, w.u.tmp) && w.u.tmp !in Pages(d.u)
  {
    hide ProtocolInv, KernelInv, Ready, Next, Happens, TwoThreads, OnePermit, Dealloc, DeallocResult, Inv, MemInv, Pages,
      Mapped;
    TrapHappens(w, v, d);
    HeapEffect(w.k, TrapDealloc(w.u.tmp));
    FreedPages(w.u);
    OnePageLess(w, d, w.u.tmp);
    DeallocPages(w.k.m, w.u.tmp);
    HeapAnswer(w.k, w.u.tmp);
    PagesOf(d);
  }

  lemma HeapAnswer(k: Kernel, page: nat)
    requires Ready(k, TrapDealloc(page))
    ensures Shape(k.m)
    ensures var d := Next(k, TrapDealloc(page));
            d.s.cur < |d.s.task| && Current(d.s).ret == DeallocResult(k.m, k.m.cr3, page)
  {
    hide OnePlace, WaitersAgree, SemaphoresAgree, CpuAgrees, Owned, SharedAreUsed, TlbCovers, Dealloc, DeallocResult;
  }

  lemma PagesOf(w: World)
    requires ProtocolInv(w)
    ensures forall p: nat :: p in Pages(w.u) <==> Mapped(w.k.m, p)
  {
    hide KernelInv, TwoThreads, OnePermit, Pages, Mapped;
    forall p: nat ensures p in Pages(w.u) <==> Mapped(w.k.m, p) {
      assert Pages(w.u)[p] == if Mapped(w.k.m, p) then 1 else 0;
    }
  }

  lemma KnownPages(u: User, p: nat)
    ensures p in u.dropped || ((u.dump.Showing? || u.dump.Freeing?) && p == u.tmp) ==> p in Pages(u)
  {
  }

  lemma ShowsWhenShowing(w: World, v: Move, d: World)
    requires Happens(w, v, d) && v.DumpShow?
    ensures w.u.dump.Showing?
  {
  }

  /** The page that dump_screen reads is mapped. */
  lemma ShownIsMapped(r: Readings, guards: set<nat>, vs: seq<Move>, ws: seq<World>, n: nat)
    requires IsRun(r, guards, vs, ws) && n < |vs| && vs[n].DumpShow?
    ensures Mapped(ws[n].k.m, ws[n].u.tmp)
  {
    hide ProtocolInv, Mapped, Pages, Happens, Start;
    ProtocolAlways(r, guards, vs, ws, n);
    assert MoveAt(vs, ws, n);
    ShowsWhenShowing(ws[n], vs[n], ws[n + 1]);
    PagesOf(ws[n]);
    KnownPages(ws[n].u, ws[n].u.tmp);
  }

  // ---------------------------------------------------------------- the CPU is never idle

  /** In every state of every run it is one of the two threads that runs: at most one of them can be waiting. */
  lemma NeverIdle(r: Readings, guards: set<nat>, vs: seq<Move>, ws: seq<World>, n: nat)
    requires IsRun(r, guards, vs, ws) && n < |ws|
    ensures ws[n].k.s.cur == INIT || (ws[n].k.s.cur == DUMPER && !ws[n].u.dump.Unborn?)
  {
    hide ProtocolInv;
    ProtocolAlways(r, guards, vs, ws, n);
    SomeoneRuns(ws[n]);
  }

  lemma SomeoneRuns(w: World)
    requires ProtocolInv(w)
    ensures w.k.s.cur == INIT || (w.k.s.cur == DUMPER && !w.u.dump.Unborn?)
  {
    hide OnePlace, WaitersAgree, MemInv, PagesAgree;
    QueuesDisjoint(w.k.s);
    var s := w.k.s;
    OthersAreFree(w);
    if s.cur == IDLE {
      Fairness.IdleMeansStuck(s, INIT);
      InOwnQueue(w, INIT);
      if !w.u.dump.Unborn? {
        Fairness.IdleMeansStuck(s, DUMPER);
        InOwnQueue(w, DUMPER);
        TwoInQueue(s.blocked[GUARD]);
        InsideAlone(w);
      }
    }
  }

  lemma OthersAreFree(w: World)
    requires WellFormed(w.k.s) && TwoThreads(w)
    ensures forall i :: 3 <= i < NR_TASKS ==> i in w.k.s.free
    ensures w.u.dump.Unborn? ==> DUMPER in w.k.s.free
  {
    var q := w.k.s.free;
    var first := if w.u.dump.Unborn? then 2 else 3;
    forall i | first <= i < NR_TASKS ensures i in q {
      assert q[i - first] == i;
    }
  }

  lemma InOwnQueue(w: World, i: nat)
    requires WellFormed(w.k.s) && OnePermit(w) && SR.InBlocked(w.k.s, i)
    ensures i in w.k.s.blocked[GUARD]
  {
  }

  lemma TwoInQueue(q: seq<nat>)
    requires INIT in q && DUMPER in q
    ensures |q| >= 2
  {
  }

  // ---------------------------------------------------------------- frames that found the ring full

  lemma DroppedStays(w: World, v: Move, d: World, p: nat)
    requires Happens(w, v, d) && p in w.u.dropped
    ensures p in d.u.dropped
  {
    hide Next, Ready;
  }

  /** A frame that push_frame finds no room for is never freed: its page stays mapped in every later state. */
  lemma {:induction false} DroppedIsLost(r: Readings, guards: set<nat>, vs: seq<Move>, ws: seq<World>, a: nat, b: nat,
                                         p: nat)
    requires IsRun(r, guards, vs, ws) && a <= b < |ws| && p in ws[a].u.dropped
    ensures p in ws[b].u.dropped && Mapped(ws[b].k.m, p)
  {
    hide ProtocolInv, Mapped, Happens, Pages, Start;
    ProtocolAlways(r, guards, vs, ws, b);
    PagesOf(ws[b]);
    KnownPages(ws[b].u, p);
    if a < b {
      DroppedIsLost(r, guards, vs, ws, a, b - 1, p);
      assert MoveAt(vs, ws, b - 1);
      DroppedStays(ws[b - 1], vs[b - 1], ws[b], p);
    }
  }

  // ---------------------------------------------------------------- when main's alloc succeeds

  /** In every state of every run in which main is about to call alloc: it finds a page if and only if the ring
      and the dropped frames together are at most 354. With at most 64 frames in the ring, that takes at least
      291 dropped ones to fail. */
  lemma AllocSucceedsExactly(r: Readings, guards: set<nat>, vs: seq<Move>, ws: seq<World>, n: nat)
    requires IsRun(r, guards, vs, ws) && n < |ws|
    requires ws[n].k.s.cur == INIT && ws[n].u.main.Allocating?
    ensures Shape(ws[n].k.m) && ws[n].k.m.cr3 == INIT
    ensures CanMove(ws[n], MainAlloc) <==> |ws[n].u.ring| + |ws[n].u.dropped| <= FRAMES - 2
  {
    hide ProtocolInv, Happens, Start, CanAlloc;
    ProtocolAlways(r, guards, vs, ws, n);
    RoomForFrame(ws[n]);
  }

  lemma RoomForFrame(w: World)
    requires ProtocolInv(w) && w.k.s.cur == INIT && w.u.main.Allocating?
    ensures Shape(w.k.m) && w.k.m.cr3 == INIT
    ensures CanAlloc(w.k.m, INIT) <==> |w.u.ring| + |w.u.dropped| <= FRAMES - 2
  {
    hide OnePlace, WaitersAgree, SemaphoresAgree, CpuAgrees, Owned, SharedAreUsed, TlbCovers, PagesAgree, FramesCounted,
      Pages;
    InsideAlone(w);
    RoomExactly(w);
    KnownOutside(w.u);
  }

  lemma KnownOutside(u: User)
    requires !u.dump.Unborn? && !u.main.Pushing? && !u.dump.Showing? && !u.dump.Freeing?
    ensures |Pages(u)| == 1 + |u.ring| + |u.dropped|
  {
    assert Pages(u) == multiset{u.stack} + multiset(u.ring) + u.dropped;
  }

  // ---------------------------------------------------------------- a run that drops a frame

  /** Some run from boot ends in w. */
  ghost predicate Reached(r: Readings, guards: set<nat>, w: World) {
    exists vs, ws :: IsRun(r, guards, vs, ws) && ws[|vs|] == w
  }

  lemma StartIsReached(r: Readings, guards: set<nat>)
    ensures Reached(r, guards, Start(r, guards)) && ProtocolInv(Start(r, guards))
  {
    StartInv(r, guards);
    hide Start, ProtocolInv;
    assert IsRun(r, guards, [], [Start(r, guards)]);
  }

  lemma MoveIsReached(r: Readings, guards: set<nat>, w: World, v: Move) returns (d: World)
    requires Reached(r, guards, w) && ProtocolInv(w) && Shape(w.k.m) && CanMove(w, v)
    ensures Happens(w, v, d) && Reached(r, guards, d) && ProtocolInv(d)
  {
    hide ProtocolInv, Happens, Start, CanMove;
    d := OneMove(w, v);
    MoveKeeps(w, v, d);
    var vs, ws :| IsRun(r, guards, vs, ws) && ws[|vs|] == w;
    var us, ms := vs + [v], ws + [d];
    forall n | 0 <= n < |us| ensures MoveAt(us, ms, n) {
      if n < |vs| {
        assert MoveAt(vs, ws, n);
      }
    }
    assert IsRun(r, guards, us, ms);
  }

  lemma OneMove(w: World, v: Move) returns (d: World)
    requires Shape(w.k.m) && CanMove(w, v)
    ensures Happens(w, v, d)
  {
    hide After, Moved;
    d := World(if Traps(v) then After(w.k, TrapOf(w, v)) else w.k, Moved(w, v));
  }

  lemma TrapStays(k: Kernel, t: Trap)
    requires Ready(k, t) && !SwitchesTask(k, t)
    ensures Next(k, t).s.cur == k.s.cur
  {
    hide OnePlace, WaitersAgree, SemaphoresAgree, CpuAgrees, Owned, SharedAreUsed, TlbCovers, Step, Switches;
    if !t.TrapAlloc? && !t.TrapDealloc? {
      KeepsCpu(k.s, EventOf(k, t));
    }
  }

  /** Without interrupts, and with the dumper outside, main keeps the CPU. */
  lemma MainStays(w: World, v: Move, d: World)
    requires ProtocolInv(w) && Happens(w, v, d) && ByMain(v) && !DumpInside(w.u)
    ensures d.u == Moved(w, v) && d.k.s.cur == INIT && CanMove(w, v)
  {
    if Traps(v) {
      hide ProtocolInv, KernelInv, Ready, Next, Happens, PagesAgree, FramesCounted, TwoThreads, Inv, SwitchesTask;
      TrapHappens(w, v, d);
      BornMeansCreated(w);
      MainSwitchesNot(w, v);
      TrapStays(w.k, TrapOf(w, v));
    }
  }

  lemma MainSwitchesNot(w: World, v: Move)
    requires Shape(w.k.m) && CanMove(w, v) && ByMain(v) && Traps(v) && !DumpInside(w.u)
    requires WellFormed(w.k.s) && OnePermit(w) && Ready(w.k, TrapOf(w, v))
    ensures !SwitchesTask(w.k, TrapOf(w, v))
  {
    hide OnePlace, WaitersAgree, SemaphoresAgree, CpuAgrees, MemInv;
  }

  /** Main is outside and runs, the dumper has not run yet, and n frames have been pushed. */
  ghost predicate Pushed(r: Readings, guards: set<nat>, w: World, n: nat) {
    && Reached(r, guards, w) && ProtocolInv(w)
    && w.k.s.cur == INIT && w.u.main.Outside? && w.u.dump.Waiting?
    && |w.u.ring| == Min(n, Rings.FRAME_RING) && |w.u.dropped| == n - Min(n, Rings.FRAME_RING)
  }

  lemma SetUp(r: Readings, guards: set<nat>) returns (w: World)
    ensures Pushed(r, guards, w, 0)
  {
    var a := Start(r, guards);
    StartIsReached(r, guards);
    StartSetup(r, guards);
    hide Start, ProtocolInv, Happens, Reached, Next, After;
    InvShape(a);
    var b := MoveIsReached(r, guards, a, MainInit);
    MainStays(a, MainInit, b);
    InvShape(b);
    w := MoveIsReached(r, guards, b, MainCreate);
    MainStays(b, MainCreate, w);
  }

  lemma StartSetup(r: Readings, guards: set<nat>)
    ensures var w := Start(r, guards);
            w.k.s.cur == INIT && w.u == User(Setup, Unborn, 0, 0, [], 0, multiset{})
  {
    hide PL.BootMem;
  }

  lemma InvShape(w: World)
    requires ProtocolInv(w)
    ensures Shape(w.k.m) && WellFormed(w.k.s) && (w.k.s.cur == INIT ==> w.k.m.cr3 == INIT)
  {
    hide OnePlace, WaitersAgree, SemaphoresAgree, CpuAgrees, Owned, SharedAreUsed, TlbCovers, PagesAgree, FramesCounted;
  }

  /** One call of thread_push that is not interrupted. */
  lemma PushOne(r: Readings, guards: set<nat>, w: World, n: nat) returns (d: World)
    requires Pushed(r, guards, w, n) && n <= FRAMES - 2
    ensures Pushed(r, guards, d, n + 1)
  {
    hide Start, ProtocolInv, Happens, Reached, Next, After, CanAlloc, NewPage;
    InvShape(w);
    var a := MoveIsReached(r, guards, w, MainWait(r));
    MainStays(w, MainWait(r), a);
    InvShape(a);
    RoomForFrame(a);
    var b := MoveIsReached(r, guards, a, MainAlloc);
    MainStays(a, MainAlloc, b);
    InvShape(b);
    var c := MoveIsReached(r, guards, b, MainPush);
    MainStays(b, MainPush, c);
    InvShape(c);
    d := MoveIsReached(r, guards, c, MainSignal);
    MainStays(c, MainSignal, d);
  }

  lemma {:induction false} PushMany(r: Readings, guards: set<nat>, n: nat) returns (w: World)
    requires n <= FRAMES - 1
    ensures Pushed(r, guards, w, n)
  {
    hide Pushed;
    if n == 0 {
      w := SetUp(r, guards);
    } else {
      var before := PushMany(r, guards, n - 1);
      w := PushOne(r, guards, before, n - 1);
    }
  }

  /** If main pushes 65 frames before the dumper gets the CPU, the last one is dropped, for good. */
  lemma FrameIsDropped(r: Readings, guards: set<nat>) returns (w: World)
    ensures Reached(r, guards, w) && |w.u.ring| == Rings.FRAME_RING && |w.u.dropped| == 1
  {
    w := PushMany(r, guards, Rings.FRAME_RING + 1);
  }

  /** Then main enters thread_push once more. */
  lemma PushAgain(r: Readings, guards: set<nat>, w: World, n: nat) returns (d: World)
    requires Pushed(r, guards, w, n)
    ensures Reached(r, guards, d) && ProtocolInv(d) && d.k.s.cur == INIT && d.u.main.Allocating?
    ensures |d.u.ring| + |d.u.dropped| == n
  {
    hide Start, ProtocolInv, Happens, Reached, Next, After;
    InvShape(w);
    d := MoveIsReached(r, guards, w, MainWait(r));
    MainStays(w, MainWait(r), d);
  }

  /** If it has pushed 355, its next alloc fails. */
  lemma AllocFails(r: Readings, guards: set<nat>) returns (w: World)
    ensures Reached(r, guards, w) && Shape(w.k.m)
    ensures w.k.s.cur == INIT && w.u.main.Allocating? && !CanMove(w, MainAlloc)
  {
    hide Pushed, ProtocolInv, Reached, CanAlloc;
    var a := PushMany(r, guards, FRAMES - 1);
    w := PushAgain(r, guards, a, FRAMES - 1);
    RoomForFrame(w);
  }
}
