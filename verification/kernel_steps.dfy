/** What the traps of KernelSpec amount to when they are done one step after the other, in the order of the
    code. */
module KernelSteps {
  import opened Machine
  import opened Accounting
  import opened Scheduling
  import opened SchedulingInvariant
  import opened Paging
  import opened PagingInvariant
  import opened PagingLaws
  import opened PageCopies
  import opened KernelSpec
  import SR = SchedulingRuns

  function ChargeAt(s: Sched, i: nat, a: Account, now: u32): Sched
    requires i < |s.task|
  {
    s.(task := s.task[i := s.task[i].(stats := Charge(s.task[i].stats, a, now))])
  }

  /** The steps of sched_next_rr, from the state s0 to the switch of stacks. */
  lemma SchedNextInSteps(s0: Sched, s1: Sched, s2: Sched, s3: Sched, s4: Sched, s5: Sched, r: Readings)
    requires WellFormed(s0)
    requires s1 == if s0.ready != [] then s0.(ready := s0.ready[1..]) else s0
    requires var t := Pick(s0);
             s2 == s1.(task := s1.task[t := s1.task[t].(state := ST_RUN)], rq := s1.task[t].quantum)
    requires s3 == ChargeAt(s2, s0.cur, SystemTicks, r.outgoing)
    requires s4 == ChargeAt(s3, Pick(s0), ReadyTicks, r.incoming)
    requires var t := Pick(s0); var st := s4.task[t].stats;
             s5 == s4.(task := s4.task[t := s4.task[t].(stats := st.(trans := Add32(st.trans, 1)))])
    ensures s5.(cur := Pick(s0)) == SchedNext(s0, r) && s5.task[Pick(s0)].dir == s0.task[Pick(s0)].dir
  {
    var t := Pick(s0);
    assert s5.task == SchedNext(s0, r).task;
  }

  lemma RequeueInSteps(s0: Sched, s1: Sched, s2: Sched, now: u32)
    requires s0.cur < |s0.task| && s1 == s0.(ready := s0.ready + [s0.cur])
    requires s2 == ChargeAt(s1, s0.cur, SystemTicks, now)
    ensures s2.(task := s2.task[s0.cur := s2.task[s0.cur].(state := ST_READY)]) == Requeue(s0, now)
  {
    var s3 := s2.(task := s2.task[s0.cur := s2.task[s0.cur].(state := ST_READY)]);
    assert s3.task == Requeue(s0, now).task;
  }

  predicate DirsOk(k: Kernel) {
    && WellFormed(k.s) && Paging.Shape(k.m)
    && forall i :: 0 <= i < NR_TASKS ==> k.s.task[i].dir < NR_TABLES
  }

  /** Dispatching, in both halves of the kernel. */
  function Switched(k: Kernel, r: Readings): Kernel
    requires DirsOk(k)
  {
    Kernel(Dispatch(k.s, r), SetCr3(k.m, k.s.task[Pick(k.s)].dir))
  }

  /** The state in which a task that gives up the CPU calls sched_next_rr, to go on at pc later. */
  function GivenUp(k: Kernel, now: u32, pc: Pc): (d: Kernel)
    requires DirsOk(k)
    ensures DirsOk(d)
  {
    k.(s := Suspend(Requeue(k.s, now), pc))
  }

  /** A trap does its memory half, and its scheduler half up to sched_next_rr; the rest is dispatching. */
  lemma NextOf(k: Kernel, t: Trap)
    requires Ready(k, t) && !t.TrapAlloc? && !t.TrapDealloc?
    ensures var e, m := EventOf(k, t), MemoryHalf(k, t);
            && Safe(k.s, e)
            && (!Switches(k.s, e) ==> Next(k, t) == Kernel(Step(k.s, e), m))
            && (Switches(k.s, e) ==>
                  && DirsOk(Kernel(AtSwitch(k.s, e), m))
                  && Next(k, t) == Switched(Kernel(AtSwitch(k.s, e), m), e.r))
  {
    hide OnePlace, WaitersAgree, SemaphoresAgree, CpuAgrees, Owned, SharedAreUsed, TlbCovers, HandedOver, Dispatch, Step,
      MemoryHalf;
    var e := EventOf(k, t);
    EnabledIsSafe(k.s, e);
    if Switches(k.s, e) {
      SwitchStep(k.s, e);
      AtSwitchDirs(k.s, e);
    }
  }

  lemma NextOfSimple(k: Kernel, e: Event)
    requires Ready(k, Simple(e))
    ensures Safe(k.s, e)
    ensures !Switches(k.s, e) ==> Next(k, Simple(e)) == k.(s := Step(k.s, e))
    ensures Switches(k.s, e) ==>
              && DirsOk(k.(s := AtSwitch(k.s, e)))
              && Next(k, Simple(e)) == Switched(k.(s := AtSwitch(k.s, e)), e.r)
  {
    hide KernelInv, Allowed, Next, Switched, Step, AtSwitch, DirsOk, Switches;
    NextOf(k, Simple(e));
  }

  lemma AtSwitchDirs(s: Sched, e: Event)
    requires Inv(s) && Switches(s, e)
    ensures |AtSwitch(s, e).task| == NR_TASKS
    ensures forall i :: 0 <= i < NR_TASKS ==> AtSwitch(s, e).task[i].dir == s.task[i].dir
  {
    hide OnePlace, WaitersAgree, SemaphoresAgree, CpuAgrees;
  }

  /** The clock interrupt after user_to_system and the decrement, in state v: what remains to be done. */
  lemma TickInSteps(k: Kernel, v: Kernel, r: Readings)
    requires Ready(k, Simple(EvClock(r))) && v == k.(s := ChargeAt(k.s, k.s.cur, UserTicks, r.entry).(rq := k.s.rq - 1))
    ensures DirsOk(v) && Current(v.s).state == ST_RUN && v.s.cur == k.s.cur && |v.s.task| == NR_TASKS
    ensures v.s.rq == k.s.rq - 1 && v.s.ready == k.s.ready && v.s.task[v.s.cur].quantum == Current(k.s).quantum
    ensures Next(k, Simple(EvClock(r)))
            == if Preempts(k.s) then Switched(GivenUp(v, r.requeue, InClock), r)
               else v.(s := ChargeAt(v.s.(rq := if k.s.rq == 1 then Current(k.s).quantum else v.s.rq),
                                     k.s.cur, SystemTicks, r.leave))
  {
    hide OnePlace, WaitersAgree, SemaphoresAgree, Owned, SharedAreUsed, TlbCovers, Next;
    NextOfSimple(k, EvClock(r));
  }

  lemma KeyboardInSteps(k: Kernel, r: Readings)
    requires Ready(k, Simple(EvKeyboard(r)))
    ensures k.s.cur < |k.s.task|
    ensures Next(k, Simple(EvKeyboard(r)))
            == k.(s := ChargeAt(ChargeAt(k.s, k.s.cur, UserTicks, r.entry), k.s.cur, SystemTicks, r.leave))
  {
    hide OnePlace, WaitersAgree, SemaphoresAgree, CpuAgrees, Owned, SharedAreUsed, TlbCovers, Next, Switched;
    NextOfSimple(k, EvKeyboard(r));
  }

  lemma YieldInSteps(k: Kernel, r: Readings)
    requires Ready(k, Simple(EvYield(r)))
    ensures DirsOk(k) && Next(k, Simple(EvYield(r))) == Switched(GivenUp(k, r.requeue, InCall), r)
  {
    hide OnePlace, WaitersAgree, SemaphoresAgree, CpuAgrees, Owned, SharedAreUsed, TlbCovers, Next, Switched;
    NextOfSimple(k, EvYield(r));
  }

  lemma InitIsNext(k: Kernel, n: int, value: u32)
    requires Ready(k, Simple(EvSemInit(n, value)))
    ensures WellFormed(k.s) && Next(k, Simple(EvSemInit(n, value))) == k.(s := SemInit(k.s, n, value))
  {
    hide OnePlace, WaitersAgree, SemaphoresAgree, CpuAgrees, Owned, SharedAreUsed, TlbCovers, Next, Switched, SemInit;
    NextOfSimple(k, EvSemInit(n, value));
  }

  lemma WaitInSteps(k: Kernel, n: int, r: Readings)
    requires Ready(k, Simple(EvSemWait(n, r)))
    ensures WellFormed(k.s) && k.s.cur < NR_TASKS && (ValidSem(k.s, n) ==> n < MAX_SEM)
    ensures !ValidSem(k.s, n) ==> Next(k, Simple(EvSemWait(n, r))) == k.(s := Return(k.s, -1))
    ensures ValidSem(k.s, n) && k.s.sem[n].counter - 1 < 0 ==>
              && DirsOk(k.(s := Block(k.s, n)))
              && Next(k, Simple(EvSemWait(n, r))) == Switched(k.(s := Block(k.s, n)), r)
    ensures ValidSem(k.s, n) && k.s.sem[n].counter - 1 >= 0 ==>
              Next(k, Simple(EvSemWait(n, r)))
              == k.(s := EndOfWait(k.s.(sem := k.s.sem[n := Semaphore(true, k.s.sem[n].counter - 1)])))
  {
    hide OnePlace, WaitersAgree, SemaphoresAgree, CpuAgrees, Owned, SharedAreUsed, TlbCovers, Next, Switched;
    NextOfSimple(k, EvSemWait(n, r));
  }

  lemma SignalIsNext(k: Kernel, n: int)
    requires Ready(k, Simple(EvSemSignal(n)))
    ensures WellFormed(k.s) && Safe(k.s, EvSemSignal(n))
    ensures Next(k, Simple(EvSemSignal(n))) == k.(s := SemSignal(k.s, n))
  {
    hide OnePlace, WaitersAgree, SemaphoresAgree, CpuAgrees, Owned, SharedAreUsed, TlbCovers, Next, Switched, SemSignal,
      WakesSomeone;
    NextOfSimple(k, EvSemSignal(n));
  }

  predicate WellSized(s: Sched) {
    |s.sem| == MAX_SEM && |s.blocked| == MAX_SEM
  }

  lemma InitSemInSteps(s0: Sched, s1: Sched, s2: Sched, s3: Sched, n: nat, c: int)
    requires WellSized(s0) && n < MAX_SEM
    requires s1 == s0.(sem := s0.sem[n := s0.sem[n].(counter := c)])
    requires s2 == s1.(blocked := s1.blocked[n := []])
    requires s3 == s2.(sem := s2.sem[n := s2.sem[n].(isInit := true)])
    ensures s3 == s0.(sem := s0.sem[n := Semaphore(true, c)], blocked := s0.blocked[n := []])
  {
  }

  lemma BlockInSteps(s0: Sched, s1: Sched, s2: Sched, n: nat)
    requires WellFormed(s0) && n < MAX_SEM
    requires s1 == s0.(sem := s0.sem[n := Semaphore(true, s0.sem[n].counter - 1)])
    requires s2 == Suspend(s1, InSemWait).(blocked := s1.blocked[n := s1.blocked[n] + [s1.cur]])
    ensures s2 == Block(s0, n)
  {
  }

  lemma WakeInSteps(s0: Sched, s1: Sched, s2: Sched, s3: Sched, n: nat)
    requires WellFormed(s0) && n < MAX_SEM && s0.blocked[n] != []
    requires s1 == s0.(sem := s0.sem[n := Semaphore(true, Increment(s0.sem[n].counter))])
    requires s2 == s1.(blocked := s1.blocked[n := s1.blocked[n][1..]])
    requires s3 == s2.(ready := s2.ready + [s0.blocked[n][0]])
    ensures s3 == Wake(s0, n)
  {
  }

  lemma DestroyInSteps(k: Kernel, n: int)
    requires Ready(k, Simple(EvSemDestroy(n)))
    ensures WellFormed(k.s) && k.s.cur < NR_TASKS && (ValidSem(k.s, n) ==> n < MAX_SEM)
    ensures !ValidSem(k.s, n) ==> Next(k, Simple(EvSemDestroy(n))) == k.(s := Return(k.s, -1))
    ensures ValidSem(k.s, n) ==>
              var d := Draining(k.s, n, |k.s.blocked[n]|);
              && |d.sem| == MAX_SEM && d.cur == k.s.cur
              && Next(k, Simple(EvSemDestroy(n)))
                 == k.(s := Return(d.(sem := d.sem[n := Semaphore(false, d.sem[n].counter)]), 0))
  {
    hide OnePlace, WaitersAgree, SemaphoresAgree, CpuAgrees, Owned, SharedAreUsed, TlbCovers, Next, Switched;
    NextOfSimple(k, EvSemDestroy(n));
    if ValidSem(k.s, n) {
      DrainingEnds(k.s, n);
    }
  }

  /** sem_destroy after j waiters have been released. */
  function Draining(s: Sched, n: nat, j: nat): (d: Sched)
    requires WellFormed(s) && n < MAX_SEM && j <= |s.blocked[n]|
    ensures |d.blocked| == MAX_SEM && d.blocked[n] == s.blocked[n][j..] && |d.task| == NR_TASKS
  {
    var q := s.blocked[n];
    s.(task := MarkDestroyed(s.task, q[..j]), ready := s.ready + q[..j], blocked := s.blocked[n := q[j..]])
  }

  lemma DrainOneMore(s: Sched, n: nat, j: nat, s1: Sched, s2: Sched, s3: Sched)
    requires WellFormed(s) && n < MAX_SEM && j < |s.blocked[n]|
    requires var d := Draining(s, n, j); s1 == d.(blocked := d.blocked[n := d.blocked[n][1..]])
    requires var i := Draining(s, n, j).blocked[n][0];
             i < |s1.task| && s2 == s1.(task := s1.task[i := s1.task[i].(destroyed := 1)])
    requires s3 == s2.(ready := s2.ready + [Draining(s, n, j).blocked[n][0]])
    ensures s3 == Draining(s, n, j + 1)
  {
    var q := s.blocked[n];
    assert q[..j + 1] == q[..j] + [q[j]];
    assert s3.task == MarkDestroyed(s.task, q[..j + 1]);
  }

  lemma DrainingEnds(s: Sched, n: nat)
    requires WellFormed(s) && n < MAX_SEM
    ensures Draining(s, n, 0) == s
    ensures var d := Draining(s, n, |s.blocked[n]|);
            d.(sem := d.sem[n := d.sem[n].(isInit := false)]) == WakeAll(s, n)
  {
    var q := s.blocked[n];
    assert q[..|q|] == q;
    assert MarkDestroyed(s.task, q[..0]) == s.task;
    assert s.blocked[n := q[0..]] == s.blocked;
  }

  /** fork makes the data pages of its child copies of the parent's and changes no other frame, if the TLB is
      right and the window of fork is not in use. */
  ghost predicate ForkCopies(m: Mem, x: Mem, child: nat, before: seq<byte>, after: seq<byte>) {
    && Paging.Shape(m) && Paging.Shape(x) && |before| == RAM_SIZE && |after| == RAM_SIZE
    && child < NR_TABLES && child != m.cr3
    && CanFork(m) && WindowIsClear(m) ==>
      && DataMapped(m.pt[m.cr3]) && DataMapped(x.pt[child])
      && PagesCopied(before, after, m.pt[m.cr3], x.pt[child], INIT_DATA, INIT_HEAP)
  }

  ghost predicate BytesCopied(k: Kernel, x: Kernel, before: seq<byte>, after: seq<byte>) {
    k.s.free != [] ==> ForkCopies(k.m, x.m, k.s.free[0], before, after)
  }

  lemma AllocNext(k: Kernel)
    requires Ready(k, TrapAlloc)
    ensures k.s.cur < |k.s.task| && Current(k.s).dir == k.m.cr3 < NR_TABLES && Paging.Shape(k.m)
    ensures Next(k, TrapAlloc) == Kernel(Return(k.s, AllocResult(k.m, k.m.cr3)), Alloc(k.m, k.m.cr3))
  {
    hide OnePlace, WaitersAgree, SemaphoresAgree, CpuAgrees, Owned, SharedAreUsed, TlbCovers, Alloc, AllocResult;
  }

  lemma DeallocNext(k: Kernel, page: nat)
    requires Ready(k, TrapDealloc(page))
    ensures k.s.cur < |k.s.task| && Current(k.s).dir == k.m.cr3 < NR_TABLES && Paging.Shape(k.m)
    ensures Next(k, TrapDealloc(page))
            == Kernel(Return(k.s, DeallocResult(k.m, k.m.cr3, page)), Dealloc(k.m, k.m.cr3, page))
  {
    hide OnePlace, WaitersAgree, SemaphoresAgree, CpuAgrees, Owned, SharedAreUsed, TlbCovers, Dealloc, DeallocResult;
  }

  lemma ExitNext(k: Kernel, r: Readings)
    requires Ready(k, TrapExit(r))
    ensures k.s.cur < |k.s.task| && Current(k.s).dir == k.m.cr3 < NR_TABLES && Paging.Shape(k.m)
    ensures var x := Kernel(Release(k.s, -1), Paging.Exit(k.m, k.m.cr3));
            DirsOk(x) && Next(k, TrapExit(r)) == Switched(x, r)
  {
    hide OnePlace, WaitersAgree, SemaphoresAgree, CpuAgrees, Owned, SharedAreUsed, TlbCovers, Paging.Exit, Next, Switched;
    NextOf(k, TrapExit(r));
  }

  lemma TerminateNext(k: Kernel, r: Readings, page: nat)
    requires Ready(k, TrapTerminate(r, page))
    ensures k.s.cur < |k.s.task| && Current(k.s).dir == k.m.cr3 < NR_TABLES && Paging.Shape(k.m)
    ensures var err, m := DeallocResult(k.m, k.m.cr3, page), Dealloc(k.m, k.m.cr3, page);
            && (err < 0 ==> Next(k, TrapTerminate(r, page)) == Kernel(Return(k.s, err), m))
            && (err >= 0 ==>
                  && DirsOk(Kernel(Release(k.s, Current(k.s).pid), m))
                  && Next(k, TrapTerminate(r, page)) == Switched(Kernel(Release(k.s, Current(k.s).pid), m), r))
  {
    hide OnePlace, WaitersAgree, SemaphoresAgree, CpuAgrees, Owned, SharedAreUsed, TlbCovers, Dealloc, Next, Switched;
    NextOf(k, TrapTerminate(r, page));
  }

  /** The memory can be forked into the table `child`. */
  ghost predicate Forkable(m: Mem, child: nat) {
    MemInv(m) && CanCopy(m, child)
  }

  lemma ForkNext(k: Kernel, r: Readings)
    requires Ready(k, TrapFork(r))
    ensures k.s.cur < |k.s.task| == NR_TASKS && Current(k.s).dir == k.m.cr3 && Paging.Shape(k.m) && WellFormed(k.s)
    ensures k.s.free == [] ==> Next(k, TrapFork(r)) == k.(s := Return(k.s, -ENOMEM))
    ensures k.s.free != [] ==>
              && k.s.free[0] < NR_TASKS && Startable(k.s) && Forkable(k.m, k.s.free[0])
              && Next(k, TrapFork(r))
                 == Kernel(Scheduling.Fork(k.s, r, CanFork(k.m)), Paging.Fork(k.m, k.m.cr3, k.s.free[0]))
  {
    hide OnePlace, WaitersAgree, SemaphoresAgree, CpuAgrees, Owned, SharedAreUsed, TlbCovers, Paging.Fork, Next, Switched;
    NextOf(k, TrapFork(r));
    RunningIsNotFree(k.s);
  }

  lemma CreateNext(k: Kernel)
    requires Ready(k, TrapCreateThread)
    ensures WellFormed(k.s) && k.s.cur < NR_TASKS
    ensures k.s.free == [] ==> Next(k, TrapCreateThread) == k.(s := Return(k.s, -ENOMEM))
    ensures k.s.free != [] ==>
              && Startable(k.s) && DirsOk(k) && Next(k, TrapCreateThread) == CreatedThread(k)
  {
    hide OnePlace, WaitersAgree, SemaphoresAgree, CpuAgrees, Owned, SharedAreUsed, TlbCovers, Alloc, Next, Switched;
    NextOf(k, TrapCreateThread);
    RunningIsNotFree(k.s);
    if k.s.free != [] {
      CreateInSteps(k.s);
    }
  }

  /** There is a free task struct. */
  predicate Startable(s: Sched) {
    WellFormed(s) && s.free != [] && s.free[0] != s.cur
  }

  /** The first free task struct becomes a copy of the running one; fork also gives it its own directory. */
  function CopiedToFree(s: Sched, forked: bool): Sched
    requires Startable(s)
  {
    var c := s.free[0];
    s.(free := s.free[1..],
       task := s.task[c := Current(s).(pc := InCall, dir := if forked then c else Current(s).dir)])
  }

  function ChildNamed(s: Sched, c: nat, r: Readings): Sched
    requires c < |s.task|
  {
    s.(lastPid := s.lastPid + 1,
       task := s.task[c := s.task[c].(pid := s.lastPid + 1, state := ST_READY, stats := InitStats(r.entry, r.leave))])
  }

  function ThreadNamed(s: Sched, c: nat): Sched
    requires c < |s.task|
  {
    s.(lastTid := s.lastTid + 1, task := s.task[c := s.task[c].(tid := s.lastTid + 1, state := ST_READY)])
  }

  function MadeReady(s: Sched, c: nat): Sched {
    s.(ready := s.ready + [c])
  }

  function PutBack(s: Sched, c: nat): Sched {
    s.(free := s.free + [c])
  }

  /** The end of fork, with or without frames for the child. */
  function ForkFinished(s: Sched, c: nat, r: Readings, ok: bool): Sched
    requires c < |s.task| && s.cur < |s.task|
  {
    if ok then
      Return(MadeReady(ChildNamed(s, c, r), c), MadeReady(ChildNamed(s, c, r), c).task[c].pid)
    else Return(PutBack(s, c), -EAGAIN)
  }

  lemma ForkFinishes(s: Sched, c: nat, r: Readings)
    requires c < |s.task| && s.cur < |s.task|
    ensures PutBack(s, c).cur == MadeReady(ChildNamed(s, c, r), c).cur == s.cur
    ensures |PutBack(s, c).task| == |MadeReady(ChildNamed(s, c, r), c).task| == |s.task|
    ensures ForkFinished(s, c, r, false) == Return(PutBack(s, c), -EAGAIN)
    ensures var x := MadeReady(ChildNamed(s, c, r), c); ForkFinished(s, c, r, true) == Return(x, x.task[c].pid)
  {
  }

  /** The memory half of fork of the running process. */
  ghost function ForkedMemory(m: Mem, c: nat): (x: Mem)
    requires Forkable(m, c) && c < NR_TABLES
    ensures Paging.Shape(x)
  {
    Paging.Fork(m, m.cr3, c)
  }

  /** fork, in the order of sys_fork. */
  lemma ForkInSteps(k: Kernel, r: Readings)
    requires Ready(k, TrapFork(r)) && k.s.free != []
    ensures Startable(k.s) && Forkable(k.m, k.s.free[0])
    ensures var s1, c := CopiedToFree(k.s, true), k.s.free[0];
            && c < NR_TASKS && s1.cur < |s1.task| == NR_TASKS
            && Next(k, TrapFork(r)) == Kernel(ForkFinished(s1, c, r, CanFork(k.m)), ForkedMemory(k.m, c))
  {
    hide OnePlace, WaitersAgree, SemaphoresAgree, CpuAgrees, Owned, SharedAreUsed, TlbCovers, Paging.Fork, Next,
      CanFork;
    ForkNext(k, r);
    var s1, c := CopiedToFree(k.s, true), k.s.free[0];
    var x := ForkFinished(s1, c, r, CanFork(k.m));
    assert x.task == Scheduling.Fork(k.s, r, CanFork(k.m)).task;
  }

  /** createthread, when there is a free task struct. */
  ghost function CreatedThread(k: Kernel): Kernel
    requires Startable(k.s) && DirsOk(k)
  {
    var s1, c := CopiedToFree(k.s, false), k.s.free[0];
    Kernel(Return(MadeReady(ThreadNamed(s1, c), c), 0), Alloc(k.m, Current(k.s).dir))
  }

  lemma CreateInSteps(s: Sched)
    requires Startable(s)
    ensures var s1, c := CopiedToFree(s, false), s.free[0];
            Return(MadeReady(ThreadNamed(s1, c), c), 0) == Scheduling.CreateThread(s)
  {
    var s1, c := CopiedToFree(s, false), s.free[0];
    assert Return(MadeReady(ThreadNamed(s1, c), c), 0).task == Scheduling.CreateThread(s).task;
  }

  lemma ThreadKeeps(k: Kernel)
    requires Startable(k.s) && DirsOk(k)
    ensures var s1, c, m := CopiedToFree(k.s, false), k.s.free[0], Alloc(k.m, Current(k.s).dir);
            && c < NR_TASKS && s1.cur < |s1.task| == NR_TASKS && DirsOk(Kernel(s1, k.m))
            && Current(s1).dir == Current(k.s).dir
            && (var s3 := MadeReady(ThreadNamed(s1, c), c);
                s3.cur < |s3.task| == NR_TASKS && CreatedThread(k) == Kernel(Return(s3, 0), m))
  {
    hide Alloc;
  }

  // ---------------------------------------------------------------- boot

  /** The task array when init_freequeue has set i of the PIDs. */
  function Numbered(i: nat): (task: seq<Task>)
    ensures |task| == NR_TASKS
    ensures forall j :: 0 <= j < NR_TASKS ==> task[j] == if j < i then SR.UNUSED else SR.UNUSED.(pid := 0)
  {
    seq(NR_TASKS, j => if j < i then SR.UNUSED else SR.UNUSED.(pid := 0))
  }

  /** After init_sched: every task struct is free. */
  function Unstarted(): Sched {
    Sched(Numbered(NR_TASKS), SR.Slots(0, NR_TASKS), [], seq(MAX_SEM, i => Semaphore(false, 0)),
          seq(MAX_SEM, i => []), IDLE, 0, 1000, 0)
  }

  /** After init_idle. */
  function IdleMade(r: Readings): Sched {
    Unstarted().(task := Unstarted().task[IDLE := SR.BootTask(IDLE, r)], free := SR.Slots(1, 9))
  }

  /** init_task1, in the order of its statements. */
  lemma Task1Made(r: Readings)
    ensures var s := IdleMade(r);
            && s.free != [] && s.free[0] == INIT && |s.task| == NR_TASKS
            && SR.BootSched(r).(cur := IDLE)
               == s.(free := s.free[1..],
                     task := s.task[INIT := s.task[INIT].(pid := 1, quantum := DEFAULT_QUANTUM, state := ST_RUN,
                                                          stats := InitStats(r.outgoing, r.incoming), dir := INIT)],
                     rq := DEFAULT_QUANTUM)
  {
    assert SR.Slots(2, 8) == SR.Slots(1, 9)[1..];
    var t := SR.BootSched(r).task;
    forall i | 0 <= i < NR_TASKS && i != INIT ensures t[i] == IdleMade(r).task[i] {
    }
  }
}
