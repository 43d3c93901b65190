/** What every step of the scheduler and the semaphores keeps. */
module SchedulingInvariant {
  import opened Machine
  import opened Accounting
  import opened Scheduling

  // ---------------------------------------------------------------- the places of the task structs

  function AllBlocked(b: seq<seq<nat>>): multiset<nat> {
    if b == [] then multiset{} else multiset(b[0]) + AllBlocked(b[1..])
  }

  /** The slots that are in some queue. */
  function Queued(s: Sched): multiset<nat> {
    multiset(s.free) + multiset(s.ready) + AllBlocked(s.blocked)
  }

  /** The idle task is parked when it does not run: it is in no queue. */
  function Parked(cur: nat): multiset<nat> {
    if cur == IDLE then multiset{} else multiset{IDLE}
  }

  /** One occurrence of a slot for every place it is in. */
  function Places(s: Sched): multiset<nat> {
    Queued(s) + multiset{s.cur} + Parked(s.cur)
  }

  ghost predicate EachOnce(m: multiset<nat>) {
    forall i: nat :: m[i] == if i < NR_TASKS then 1 else 0
  }

  /** Every task struct is in exactly one place: the freequeue, the readyqueue, the queue of one semaphore,
      the CPU, or (the idle task only) parked. */
  ghost predicate OnePlace(s: Sched) {
    EachOnce(Places(s))
  }

  // ---------------------------------------------------------------- the other invariants

  function Deficit(counter: int): nat {
    if counter < 0 then -counter else 0
  }

  ghost predicate SemaphoresAgree(s: Sched)
    requires WellFormed(s)
  {
    forall n :: 0 <= n < MAX_SEM ==>
      && (s.sem[n].isInit ==> |s.blocked[n]| == Deficit(s.sem[n].counter) && s.sem[n].counter <= INT_MAX)
      && (!s.sem[n].isInit ==> s.blocked[n] == [])
  }

  predicate MarkedReady(s: Sched, i: nat)
    requires i < |s.task|
  {
    s.task[i].destroyed == 1 && s.task[i].pc == InSemWait && i in s.ready
  }

  predicate AllWaiting(task: seq<Task>, q: seq<nat>) {
    forall k :: 0 <= k < |q| ==> q[k] < |task| && task[q[k]].pc == InSemWait
  }

  /** Tasks in a semaphore's queue or marked as destroyed are inside sem_wait; the mark is only ever seen on
      tasks that wait in the readyqueue to get out of it. */
  ghost predicate WaitersAgree(s: Sched)
    requires WellFormed(s)
  {
    && (forall i :: 0 <= i < NR_TASKS ==> (s.task[i].destroyed == 0 || MarkedReady(s, i)))
    && (forall n :: 0 <= n < MAX_SEM ==> AllWaiting(s.task, s.blocked[n]))
    && (forall k :: 0 <= k < |s.ready| ==> s.task[s.ready[k]].pc != OnCpu)
  }

  ghost predicate CpuAgrees(s: Sched)
    requires WellFormed(s)
  {
    && Current(s).state == ST_RUN && Current(s).pc == OnCpu
    && 1 <= s.rq <= Current(s).quantum
    && (forall i :: 0 <= i < NR_TASKS && i !in s.free ==> s.task[i].quantum == DEFAULT_QUANTUM)
    && (s.cur == IDLE ==> s.ready == [])
    && (s.cur != IDLE ==> s.task[IDLE].pc == InCall)
  }

  ghost predicate Inv(s: Sched) {
    WellFormed(s) && OnePlace(s) && SemaphoresAgree(s) && WaitersAgree(s) && CpuAgrees(s)
  }

  // ---------------------------------------------------------------- multisets of queues

  lemma Uncons(q: seq<nat>)
    requires q != []
    ensures multiset(q) == multiset{q[0]} + multiset(q[1..])
  {
    assert q == [q[0]] + q[1..];
  }

  lemma {:induction false} AllBlockedUpdate(b: seq<seq<nat>>, n: nat, q: seq<nat>)
    requires n < |b|
    ensures AllBlocked(b[n := q]) + multiset(b[n]) == AllBlocked(b) + multiset(q)
  {
    if n == 0 {
      assert b[0 := q][1..] == b[1..];
    } else {
      var c := b[n := q];
      AllBlockedUpdate(b[1..], n - 1, q);
      assert c[1..] == b[1..][n - 1 := q];
      calc {
        AllBlocked(c) + multiset(b[n]);
        multiset(b[0]) + AllBlocked(b[1..][n - 1 := q]) + multiset(b[1..][n - 1]);
        multiset(b[0]) + (AllBlocked(b[1..][n - 1 := q]) + multiset(b[1..][n - 1]));
        multiset(b[0]) + (AllBlocked(b[1..]) + multiset(q));
        AllBlocked(b) + multiset(q);
      }
    }
  }

  lemma AllBlockedAppend(b: seq<seq<nat>>, n: nat, i: nat)
    requires n < |b|
    ensures AllBlocked(b[n := b[n] + [i]]) == AllBlocked(b) + multiset{i}
  {
    AllBlockedUpdate(b, n, b[n] + [i]);
    Cancel(AllBlocked(b[n := b[n] + [i]]), AllBlocked(b) + multiset{i}, multiset(b[n]));
  }

  lemma Cancel(x: multiset<nat>, y: multiset<nat>, z: multiset<nat>)
    requires x + z == y + z
    ensures x == y
  {
    forall i ensures x[i] == y[i] {
      assert (x + z)[i] == (y + z)[i];
    }
  }

  lemma {:induction false} AllBlockedHas(b: seq<seq<nat>>, n: nat)
    requires n < |b|
    ensures multiset(b[n]) <= AllBlocked(b)
  {
    if n > 0 {
      AllBlockedHas(b[1..], n - 1);
    }
  }

  /** The running task and the idle task are in no queue, and no task is in two. */
  lemma QueuesDisjoint(s: Sched)
    requires WellFormed(s) && OnePlace(s)
    ensures s.cur !in s.free && s.cur !in s.ready && IDLE !in s.free && IDLE !in s.ready
    ensures forall i :: i in s.free ==> i !in s.ready
    ensures forall n :: 0 <= n < MAX_SEM ==>
              s.cur !in s.blocked[n] && IDLE !in s.blocked[n]
              && (forall i :: i in s.blocked[n] ==> i !in s.free && i !in s.ready)
  {
    forall i: nat ensures Places(s)[i] == if i < NR_TASKS then 1 else 0 {}
    assert Places(s)[s.cur] == 1 && Places(s)[IDLE] == 1;
    forall i | i in s.free ensures i !in s.ready {
      assert Places(s)[i] <= 1;
    }
    forall n | 0 <= n < MAX_SEM
      ensures s.cur !in s.blocked[n] && IDLE !in s.blocked[n]
              && (forall i :: i in s.blocked[n] ==> i !in s.free && i !in s.ready)
    {
      AllBlockedHas(s.blocked, n);
      forall i | i in s.blocked[n] ensures i !in s.free && i !in s.ready {
        assert i in multiset(s.blocked[n]);
        assert Places(s)[i] <= 1;
      }
    }
  }

  // ---------------------------------------------------------------- dispatching

  ghost predicate QuantaDefault(s: Sched)
    requires WellFormed(s)
  {
    forall i :: 0 <= i < NR_TASKS && i !in s.free ==> s.task[i].quantum == DEFAULT_QUANTUM
  }

  /** The state in which sched_next_rr is called: the running task has already been put in some queue. */
  ghost predicate HandedOver(s: Sched) {
    && WellFormed(s) && EachOnce(Queued(s) + multiset{IDLE})
    && SemaphoresAgree(s) && WaitersAgree(s) && QuantaDefault(s)
    && s.cur != IDLE && s.task[IDLE].pc == InCall
  }

  lemma PickIsNotFree(s: Sched)
    requires HandedOver(s)
    ensures Pick(s) !in s.free && Pick(s) !in s.ready[if s.ready == [] then 0 else 1..]
    ensures s.ready != [] ==> Pick(s) != IDLE
    ensures forall n :: 0 <= n < MAX_SEM ==> Pick(s) !in s.blocked[n]
  {
    var t := Pick(s);
    var all := Queued(s) + multiset{IDLE};
    assert all[t] == 1 && all[IDLE] == 1;
    if s.ready != [] {
      Uncons(s.ready);
    }
    forall n | 0 <= n < MAX_SEM ensures t !in s.blocked[n] {
      AllBlockedHas(s.blocked, n);
      assert t in s.blocked[n] ==> AllBlocked(s.blocked)[t] >= 1;
    }
  }

  /** What dispatching from s to d changes; everything else is kept. */
  ghost predicate Dispatched(s: Sched, d: Sched)
    requires WellFormed(s)
  {
    var t := Pick(s);
    && d.free == s.free && d.sem == s.sem && d.blocked == s.blocked
    && d.ready == (if s.ready == [] then [] else s.ready[1..])
    && d.cur == t && d.rq == s.task[t].quantum
    && d.lastPid == s.lastPid && d.lastTid == s.lastTid && |d.task| == |s.task|
    && d.task[t] == s.task[t].(state := ST_RUN, pc := OnCpu, stats := d.task[t].stats, ret := d.task[t].ret,
                               destroyed := if s.task[t].pc == InSemWait && s.task[t].destroyed == 1 then 0
                                            else s.task[t].destroyed)
    && (s.cur != t ==> d.task[s.cur] == s.task[s.cur].(stats := d.task[s.cur].stats))
    && (forall i :: 0 <= i < NR_TASKS && i != s.cur && i != t ==> d.task[i] == s.task[i])
  }

  lemma DispatchEffect(s: Sched, r: Readings)
    requires WellFormed(s)
    ensures Dispatched(s, Dispatch(s, r))
  {
    var x := SchedNext(s, r);
    assert x.task[x.cur].pc == s.task[x.cur].pc;
  }

  lemma DispatchedPlaces(s: Sched, d: Sched)
    requires HandedOver(s) && Dispatched(s, d)
    ensures OnePlace(d)
  {
    PickIsNotFree(s);
    if s.ready != [] {
      Uncons(s.ready);
    }
    assert Places(d) == Queued(s) + multiset{IDLE};
  }

  lemma DispatchedWaiters(s: Sched, d: Sched)
    requires HandedOver(s) && Dispatched(s, d)
    ensures WellFormed(d) && WaitersAgree(d)
  {
    hide OnePlace;
    PickIsNotFree(s);
    assert forall k :: 0 <= k < |d.ready| ==> d.ready[k] == s.ready[k + 1];
    forall i | 0 <= i < NR_TASKS
      ensures d.task[i].destroyed == 0 || MarkedReady(d, i)
    {
      if i != Pick(s) && s.task[i].destroyed != 0 {
        assert MarkedReady(s, i);
        var k :| 0 <= k < |s.ready| && s.ready[k] == i;
        assert d.ready[k - 1] == i;
      }
    }
  }

  /** Whatever sched_next_rr is called on, the invariant holds again when it has switched tasks. */
  lemma DispatchInv(s: Sched, r: Readings)
    requires HandedOver(s)
    ensures Inv(Dispatch(s, r))
  {
    DispatchEffect(s, r);
    var d := Dispatch(s, r);
    PickIsNotFree(s);
    DispatchedPlaces(s, d);
    DispatchedWaiters(s, d);
  }

  // ---------------------------------------------------------------- one lemma per kind of step

  /** s differs from an invariant state only in the running task's statistics, continuation, and state. */
  lemma RequeueWaiters(s: Sched, now: u32, pc: Pc)
    requires Inv(s) && s.cur != IDLE && pc != OnCpu
    ensures var d := Suspend(Requeue(s, now), pc); WellFormed(d) && WaitersAgree(d)
  {
    hide SemaphoresAgree;
    var d := Suspend(Requeue(s, now), pc);
    QueuesDisjoint(s);
    hide OnePlace;
    forall i | 0 <= i < NR_TASKS
      ensures d.task[i].destroyed == 0 || MarkedReady(d, i)
    {
      if i != s.cur && s.task[i].destroyed != 0 {
        assert MarkedReady(s, i);
      }
    }
  }

  lemma RequeueHandsOver(s: Sched, now: u32, pc: Pc)
    requires Inv(s) && s.cur != IDLE && pc != OnCpu
    ensures HandedOver(Suspend(Requeue(s, now), pc))
  {
    RequeueWaiters(s, now, pc);
    RequeuePlaces(s, now, pc);
    hide WaitersAgree, OnePlace, EachOnce;
  }

  lemma RequeuePlaces(s: Sched, now: u32, pc: Pc)
    requires WellFormed(s) && OnePlace(s) && s.cur != IDLE
    ensures EachOnce(Queued(Suspend(Requeue(s, now), pc)) + multiset{IDLE})
  {
    assert Queued(Suspend(Requeue(s, now), pc)) + multiset{IDLE} == Places(s);
  }

  lemma ReleaseWaiters(s: Sched, pid: int)
    requires Inv(s) && s.cur != IDLE
    ensures var d := Release(s, pid); WellFormed(d) && WaitersAgree(d)
  {
    hide SemaphoresAgree;
    var d := Release(s, pid);
    QueuesDisjoint(s);
    hide OnePlace;
    forall i | 0 <= i < NR_TASKS
      ensures d.task[i].destroyed == 0 || MarkedReady(d, i)
    {
      if i != s.cur && s.task[i].destroyed != 0 {
        assert MarkedReady(s, i);
      }
    }
  }

  lemma ReleaseHandsOver(s: Sched, pid: int)
    requires Inv(s) && s.cur != IDLE
    ensures HandedOver(Release(s, pid))
  {
    ReleaseWaiters(s, pid);
    ReleasePlaces(s, pid);
    hide WaitersAgree, OnePlace, EachOnce;
  }

  lemma ReleasePlaces(s: Sched, pid: int)
    requires WellFormed(s) && OnePlace(s) && s.cur != IDLE
    ensures EachOnce(Queued(Release(s, pid)) + multiset{IDLE})
  {
    assert Queued(Release(s, pid)) + multiset{IDLE} == Places(s);
  }

  lemma BlockPlaces(s: Sched, n: nat)
    requires WellFormed(s) && OnePlace(s) && s.cur != IDLE && n < MAX_SEM
    ensures EachOnce(Queued(Block(s, n)) + multiset{IDLE})
  {
    AllBlockedAppend(s.blocked, n, s.cur);
    assert Queued(Block(s, n)) == Queued(s) + multiset{s.cur};
    assert Queued(Block(s, n)) + multiset{IDLE} == Places(s);
  }

  lemma BlockWaiters(s: Sched, n: nat)
    requires Inv(s) && s.cur != IDLE && ValidSem(s, n)
    ensures WellFormed(Block(s, n)) && WaitersAgree(Block(s, n))
  {
    hide SemaphoresAgree;
    var d := Block(s, n);
    QueuesDisjoint(s);
    hide OnePlace;
    forall m | 0 <= m < MAX_SEM
      ensures InRange(d.blocked[m]) && AllWaiting(d.task, d.blocked[m])
    {
      assert d.blocked[m] == if m == n then s.blocked[m] + [s.cur] else s.blocked[m];
    }
    assert !MarkedReady(s, s.cur);
    forall i | 0 <= i < NR_TASKS
      ensures d.task[i].destroyed == 0 || MarkedReady(d, i)
    {
      assert i != s.cur && s.task[i].destroyed != 0 ==> MarkedReady(s, i);
    }
  }

  lemma BlockHandsOver(s: Sched, n: nat)
    requires Inv(s) && s.cur != IDLE && ValidSem(s, n) && s.sem[n].counter <= 0
    ensures HandedOver(Block(s, n))
  {
    BlockWaiters(s, n);
    BlockPlaces(s, n);
    hide WaitersAgree, OnePlace, EachOnce;
  }

  /** Nothing but statistics, remaining quantum and the running task's answer changes. */
  lemma SameQueuesInv(s: Sched, d: Sched)
    requires Inv(s)
    requires d.free == s.free && d.ready == s.ready && d.blocked == s.blocked && d.sem == s.sem && d.cur == s.cur
    requires |d.task| == NR_TASKS && 1 <= d.rq <= Current(s).quantum
    requires Current(d) == Current(s).(stats := Current(d).stats, ret := Current(d).ret)
    requires forall i :: 0 <= i < NR_TASKS && i != s.cur ==> d.task[i] == s.task[i]
    ensures Inv(d)
  {
    assert Places(d) == Places(s);
    QueuesDisjoint(s);
    forall i | 0 <= i < NR_TASKS
      ensures d.task[i].destroyed == 0 || MarkedReady(d, i)
    {
      if i != s.cur && s.task[i].destroyed != 0 {
        assert MarkedReady(s, i);
      }
    }
  }

  lemma RunningIsUnmarked(s: Sched)
    requires Inv(s)
    ensures Current(s).destroyed == 0
  {
    QueuesDisjoint(s);
    assert !MarkedReady(s, s.cur);
  }

  lemma SpawnPlaces(s: Sched, child: Task, ret: int)
    requires WellFormed(s) && OnePlace(s) && s.free != []
    ensures OnePlace(Spawn(s, child, ret))
  {
    Uncons(s.free);
    assert Places(Spawn(s, child, ret)) == Places(s);
  }

  lemma SpawnInv(s: Sched, child: Task, ret: int)
    requires Inv(s) && s.cur != IDLE && s.free != []
    requires child.pc == InCall && child.destroyed == 0 && child.quantum == DEFAULT_QUANTUM
    ensures Inv(Spawn(s, child, ret))
  {
    hide OnePlace;
    var c := s.free[0];
    var d := Spawn(s, child, ret);
    QueuesDisjoint(s);
    SpawnPlaces(s, child, ret);
    assert c in s.free;
    assert forall k :: 0 <= k < |d.free| ==> d.free[k] == s.free[k + 1];
    forall n | 0 <= n < MAX_SEM
      ensures AllWaiting(d.task, d.blocked[n])
    {
      assert AllWaiting(s.task, s.blocked[n]) && c !in s.blocked[n];
    }
    forall i | 0 <= i < NR_TASKS
      ensures d.task[i].destroyed == 0 || MarkedReady(d, i)
    {
      assert i != c && s.task[i].destroyed != 0 ==> MarkedReady(s, i);
    }
    forall i | 0 <= i < NR_TASKS && i !in d.free
      ensures d.task[i].quantum == DEFAULT_QUANTUM
    {
      if i in s.free {
        assert i == c;
      }
    }
  }

  lemma ReturnInv(s: Sched, value: int)
    requires Inv(s)
    ensures Inv(Return(s, value))
  {
    SameQueuesInv(s, Return(s, value));
  }

  /** fork without room: the slot goes from the head of the freequeue to its tail. */
  lemma ForkFailsPlaces(s: Sched, copy: Task)
    requires WellFormed(s) && OnePlace(s) && s.free != []
    ensures OnePlace(s.(task := s.task[s.free[0] := copy], free := s.free[1..] + [s.free[0]]))
  {
    var d := s.(task := s.task[s.free[0] := copy], free := s.free[1..] + [s.free[0]]);
    Uncons(s.free);
    assert multiset(d.free) == multiset(s.free);
    assert Places(d) == Places(s);
  }

  lemma ForkFailsInv(s: Sched, copy: Task)
    requires Inv(s) && s.free != [] && copy.destroyed == 0
    ensures Inv(s.(task := s.task[s.free[0] := copy], free := s.free[1..] + [s.free[0]]))
  {
    hide OnePlace;
    var c := s.free[0];
    var d := s.(task := s.task[c := copy], free := s.free[1..] + [c]);
    QueuesDisjoint(s);
    ForkFailsPlaces(s, copy);
    assert c in s.free && s.free == [c] + s.free[1..];
    forall n | 0 <= n < MAX_SEM
      ensures AllWaiting(d.task, d.blocked[n])
    {
      assert AllWaiting(s.task, s.blocked[n]) && c !in s.blocked[n];
    }
    forall i | 0 <= i < NR_TASKS
      ensures d.task[i].destroyed == 0 || MarkedReady(d, i)
    {
      assert i != c && s.task[i].destroyed != 0 ==> MarkedReady(s, i);
    }
    assert forall i: nat :: i in s.free ==> i in d.free;
    assert forall k :: 0 <= k < |s.ready| ==> s.ready[k] in s.ready;
    assert d.cur != c && IDLE != c;
    assert WaitersAgree(d);
    assert CpuAgrees(d);
  }

  lemma ForkInv(s: Sched, r: Readings, room: bool)
    requires Inv(s) && s.cur != IDLE
    ensures Inv(Fork(s, r, room))
  {
    RunningIsUnmarked(s);
    if s.free == [] {
      ReturnInv(s, -ENOMEM);
    } else {
      var c := s.free[0];
      QueuesDisjoint(s);
      assert c in s.free;
      var copy := Current(s).(dir := c, pc := InCall);
      if room {
        var child := copy.(pid := s.lastPid + 1, state := ST_READY, stats := InitStats(r.entry, r.leave));
        SpawnInv(s, child, s.lastPid + 1);
        SameQueuesInv(Spawn(s, child, s.lastPid + 1), Fork(s, r, room));
      } else {
        ForkFailsInv(s, copy);
        ReturnInv(s.(task := s.task[c := copy], free := s.free[1..] + [c]), -EAGAIN);
      }
    }
  }

  lemma CreateThreadInv(s: Sched)
    requires Inv(s) && s.cur != IDLE
    ensures Inv(CreateThread(s))
  {
    RunningIsUnmarked(s);
    QueuesDisjoint(s);
    if s.free == [] {
      ReturnInv(s, -ENOMEM);
    } else {
      var child := Current(s).(tid := s.lastTid + 1, state := ST_READY, pc := InCall);
      SpawnInv(s, child, 0);
      SameQueuesInv(Spawn(s, child, 0), CreateThread(s));
    }
  }

  lemma EndOfWaitInv(s: Sched)
    requires Inv(s)
    ensures Inv(EndOfWait(s)) && EndOfWait(s) == Return(s, 0)
  {
    RunningIsUnmarked(s);
    ReturnInv(s, 0);
  }

  /** Changing one semaphore that has no waiters, before and after. */
  lemma CounterInv(s: Sched, n: nat, x: Semaphore)
    requires Inv(s) && n < MAX_SEM
    requires x.isInit ==> |s.blocked[n]| == Deficit(x.counter) && x.counter <= INT_MAX
    requires !x.isInit ==> s.blocked[n] == []
    ensures Inv(s.(sem := s.sem[n := x]))
  {
    var d := s.(sem := s.sem[n := x]);
    assert Places(d) == Places(s);
    forall i | 0 <= i < NR_TASKS
      ensures d.task[i].destroyed == 0 || MarkedReady(d, i)
    {
      assert s.task[i].destroyed != 0 ==> MarkedReady(s, i);
    }
  }

  lemma SemInitInv(s: Sched, n: int, value: u32)
    requires Inv(s) && value <= INT_MAX
    ensures Inv(SemInit(s, n, value))
  {
    if NewSem(s, n) {
      assert s.blocked[n] == [];
      assert s.blocked[n := []] == s.blocked;
      CounterInv(s, n, Semaphore(true, value));
      ReturnInv(s.(sem := s.sem[n := Semaphore(true, value)]), 0);
    } else {
      ReturnInv(s, -1);
    }
  }

  lemma SemWaitInv(s: Sched, n: int, r: Readings)
    requires Inv(s) && !(ValidSem(s, n) && s.sem[n].counter <= 0)
    ensures Inv(SemWait(s, n, r))
  {
    if !ValidSem(s, n) {
      ReturnInv(s, -1);
    } else {
      CounterInv(s, n, Semaphore(true, s.sem[n].counter - 1));
      EndOfWaitInv(s.(sem := s.sem[n := Semaphore(true, s.sem[n].counter - 1)]));
    }
  }

  // ---------------------------------------------------------------- waking waiters

  lemma AllBlockedRemove(b: seq<seq<nat>>, n: nat)
    requires n < |b| && b[n] != []
    ensures AllBlocked(b[n := b[n][1..]]) + multiset{b[n][0]} == AllBlocked(b)
  {
    var c := b[n := b[n][1..]];
    AllBlockedUpdate(b, n, b[n][1..]);
    Uncons(b[n]);
    assert (AllBlocked(c) + multiset{b[n][0]}) + multiset(b[n][1..]) == AllBlocked(b) + multiset(b[n][1..]);
    Cancel(AllBlocked(c) + multiset{b[n][0]}, AllBlocked(b), multiset(b[n][1..]));
  }

  lemma WakePlaces(s: Sched, n: nat)
    requires WellFormed(s) && OnePlace(s) && n < MAX_SEM && s.blocked[n] != []
    ensures OnePlace(Wake(s, n))
  {
    AllBlockedRemove(s.blocked, n);
    assert Queued(Wake(s, n)) == Queued(s);
    assert Places(Wake(s, n)) == Places(s);
  }

  lemma WakeInv(s: Sched, n: nat)
    requires Inv(s) && s.cur != IDLE && ValidSem(s, n) && s.sem[n].counter < 0
    ensures s.blocked[n] != [] && Inv(Wake(s, n))
  {
    var d := Wake(s, n);
    WakePlaces(s, n);
    forall m | 0 <= m < MAX_SEM
      ensures InRange(d.blocked[m]) && AllWaiting(d.task, d.blocked[m])
    {
      assert d.blocked[m] == if m == n then s.blocked[m][1..] else s.blocked[m];
    }
    forall i | 0 <= i < NR_TASKS
      ensures d.task[i].destroyed == 0 || MarkedReady(d, i)
    {
      assert s.task[i].destroyed != 0 ==> MarkedReady(s, i);
    }
  }

  lemma SemSignalInv(s: Sched, n: int)
    requires Inv(s) && s.cur != IDLE
    requires ValidSem(s, n) ==> s.sem[n].counter < INT_MAX
    ensures Inv(SemSignal(s, n))
  {
    if !ValidSem(s, n) {
      ReturnInv(s, -1);
    } else if s.sem[n].counter < 0 {
      WakeInv(s, n);
      ReturnInv(Wake(s, n), 0);
    } else {
      var d := s.(sem := s.sem[n := Semaphore(true, s.sem[n].counter + 1)]);
      CounterInv(s, n, Semaphore(true, s.sem[n].counter + 1));
      ReturnInv(d, 0);
    }
  }

  lemma WakeAllPlaces(s: Sched, n: nat)
    requires WellFormed(s) && OnePlace(s) && n < MAX_SEM
    ensures OnePlace(WakeAll(s, n))
  {
    AllBlockedUpdate(s.blocked, n, []);
    var q := multiset(s.blocked[n]);
    assert AllBlocked(s.blocked[n := []]) + q == AllBlocked(s.blocked);
    assert multiset(s.ready + s.blocked[n]) == multiset(s.ready) + q;
    assert Queued(WakeAll(s, n)) == multiset(s.free) + (multiset(s.ready) + q) + AllBlocked(s.blocked[n := []]);
    assert Queued(WakeAll(s, n)) == Queued(s);
    assert Places(WakeAll(s, n)) == Places(s);
  }

  lemma SemDestroyInv(s: Sched, n: int)
    requires Inv(s) && s.cur != IDLE
    ensures Inv(SemDestroy(s, n))
  {
    hide OnePlace;
    if !ValidSem(s, n) {
      ReturnInv(s, -1);
    } else {
      var d := WakeAll(s, n);
      QueuesDisjoint(s);
      WakeAllPlaces(s, n);
      forall m | 0 <= m < MAX_SEM
        ensures InRange(d.blocked[m]) && AllWaiting(d.task, d.blocked[m])
      {
        assert d.blocked[m] == if m == n then [] else s.blocked[m];
      }
      forall i | 0 <= i < NR_TASKS
        ensures d.task[i].destroyed == 0 || MarkedReady(d, i)
      {
        assert s.task[i].destroyed != 0 ==> MarkedReady(s, i);
        if i in s.blocked[n] {
          assert AllWaiting(s.task, s.blocked[n]);
        }
      }
      ReturnInv(d, 0);
    }
  }

  // ---------------------------------------------------------------- events that switch tasks

  /** The events that reach sched_next_rr. */
  predicate Switches(s: Sched, e: Event) {
    match e
    case EvClock(_) => Preempts(s)
    case EvYield(_) => true
    case EvExit(_) => true
    case EvTerminate(_, err) => err >= 0
    case EvSemWait(n, _) => ValidSem(s, n) && s.sem[n].counter <= 0
    case _ => false
  }

  /** The state in which they reach it. */
  function AtSwitch(s: Sched, e: Event): Sched
    requires Inv(s) && Switches(s, e)
  {
    match e
    case EvClock(r) => Suspend(Requeue(ChargeCurrent(s, UserTicks, r.entry).(rq := 0), r.requeue), InClock)
    case EvYield(r) => Suspend(Requeue(s, r.requeue), InCall)
    case EvExit(_) => Release(s, -1)
    case EvTerminate(_, _) => Release(s, Current(s).pid)
    case EvSemWait(n, _) => Block(s, n)
    case _ => s
  }

  lemma SwitchStep(s: Sched, e: Event)
    requires Inv(s) && Enabled(s, e) && Switches(s, e)
    ensures Safe(s, e) && HandedOver(AtSwitch(s, e))
    ensures Step(s, e) == Dispatch(AtSwitch(s, e), e.r)
    ensures Dispatched(AtSwitch(s, e), Step(s, e))
  {
    match e {
      case EvClock(r) =>
        var u := ChargeCurrent(s, UserTicks, r.entry);
        SameQueuesInv(s, u);
        RequeueHandsOver(u, r.requeue, InClock);
        assert AtSwitch(s, e) == Suspend(Requeue(u, r.requeue), InClock).(rq := 0);
        SameQueuesHandOver(Suspend(Requeue(u, r.requeue), InClock), 0);
      case EvYield(r) => RequeueHandsOver(s, r.requeue, InCall);
      case EvExit(_) => ReleaseHandsOver(s, -1);
      case EvTerminate(_, _) => ReleaseHandsOver(s, Current(s).pid);
      case EvSemWait(n, _) => BlockHandsOver(s, n);
    }
    DispatchEffect(AtSwitch(s, e), e.r);
  }

  lemma SameQueuesHandOver(h: Sched, rq: int)
    requires HandedOver(h)
    ensures HandedOver(h.(rq := rq))
  {
    var d := h.(rq := rq);
    assert Queued(d) == Queued(h);
    forall i | 0 <= i < NR_TASKS
      ensures d.task[i].destroyed == 0 || MarkedReady(d, i)
    {
      assert h.task[i].destroyed != 0 ==> MarkedReady(h, i);
    }
  }

  lemma EnabledIsSafe(s: Sched, e: Event)
    requires Inv(s) && Enabled(s, e)
    ensures Safe(s, e)
  {
    hide OnePlace, WaitersAgree, CpuAgrees;
  }

  lemma QuietInterruptInv(s: Sched, r: Readings)
    requires Inv(s)
    ensures Inv(Keyboard(s, r))
    ensures !Preempts(s) ==> Inv(Clock(s, r))
  {
    SameQueuesInv(s, Keyboard(s, r));
    if !Preempts(s) {
      SameQueuesInv(s, Clock(s, r));
    }
  }

  /** Every system call and every interrupt keeps the invariant. */
  lemma StepInv(s: Sched, e: Event)
    requires Inv(s) && Enabled(s, e)
    ensures Safe(s, e) && Inv(Step(s, e))
  {
    EnabledIsSafe(s, e);
    hide Inv, HandedOver, Dispatched, Dispatch, AtSwitch, Clock, Keyboard, Fork, CreateThread, SemInit, SemWait,
      SemSignal, SemDestroy;
    if Switches(s, e) {
      SwitchStep(s, e);
      DispatchInv(AtSwitch(s, e), e.r);
    } else {
      match e
      case EvClock(r) => QuietInterruptInv(s, r);
      case EvKeyboard(r) => QuietInterruptInv(s, r);
      case EvFork(r, room) => ForkInv(s, r, room);
      case EvCreateThread => CreateThreadInv(s);
      case EvTerminate(r, err) => ReturnInv(s, err);
      case EvSemInit(n, value) => SemInitInv(s, n, value);
      case EvSemWait(n, r) => SemWaitInv(s, n, r);
      case EvSemSignal(n) => SemSignalInv(s, n);
      case EvSemDestroy(n) => SemDestroyInv(s, n);
    }
  }
}
