/** The readyqueue, the quantum, the states and the identifiers of the tasks, in every run. */
module RoundRobin {
  import opened Scheduling
  import opened SchedulingInvariant
  import opened SchedulingRuns
  import opened SemaphoreAnswers
  import opened TickLaw
  import opened CallAnswers
  import opened TickAccounts

  // ---------------------------------------------------------------- first come, first served

  /** Who joins the readyqueue in an event, in order. */
  function Arrivals(s: Sched, e: Event, d: Sched): seq<nat>
    requires WellFormed(s)
  {
    match e
    case EvClock(_) => if d.cur != s.cur then [s.cur] else []
    case EvYield(_) => [s.cur]
    case EvFork(_, room) => if s.free != [] && room then [s.free[0]] else []
    case EvCreateThread => if s.free != [] then [s.free[0]] else []
    case EvSemSignal(n) =>
      if 0 <= n < 8 && s.sem[n].isInit && s.sem[n].counter < 0 && s.blocked[n] != [] then [s.blocked[n][0]] else []
    case EvSemDestroy(n) => if 0 <= n < 8 && s.sem[n].isInit then s.blocked[n] else []
    case _ => []
  }

  lemma SwitchTakesFirst(s: Sched, e: Event)
    requires Inv(s) && Enabled(s, e) && Switches(s, e)
    ensures Safe(s, e)
    ensures var d, q := Step(s, e), s.ready + Arrivals(s, e, Step(s, e));
            if q == [] then d.cur == IDLE && d.ready == [] else d.cur == q[0] && d.ready == q[1..]
  {
    hide OnePlace, SemaphoresAgree, WaitersAgree, CpuAgrees, HandedOver, Step;
    SwitchStep(s, e);
    GivesUpIfSwitches(s, e);
    assert AtSwitch(s, e).ready == s.ready + Arrivals(s, e, Step(s, e));
  }

  lemma QuietAppends(s: Sched, e: Event)
    requires Inv(s) && Enabled(s, e) && !Switches(s, e)
    ensures Safe(s, e) && Step(s, e).cur == s.cur && Step(s, e).ready == s.ready + Arrivals(s, e, Step(s, e))
  {
    hide OnePlace, WaitersAgree, CpuAgrees;
    EnabledIsSafe(s, e);
  }

  /** The tasks that joined the readyqueue in the first k events, and those that the scheduler took from it. */
  ghost function Joined(es: seq<Event>, ws: seq<World>, k: nat): seq<nat>
    requires |ws| == |es| + 1 && k <= |es|
  {
    if k == 0 || !WellFormed(ws[k - 1].s) then []
    else Joined(es, ws, k - 1) + Arrivals(ws[k - 1].s, es[k - 1], ws[k].s)
  }

  ghost function Taken(es: seq<Event>, ws: seq<World>, k: nat): seq<nat>
    requires |ws| == |es| + 1 && k <= |es|
  {
    if k == 0 then []
    else Taken(es, ws, k - 1)
         + if GivesUp(ws[k - 1].s, es[k - 1], ws[k].s) && ws[k].s.cur != IDLE then [ws[k].s.cur] else []
  }

  lemma FifoStep(s: Sched, e: Event, joined: seq<nat>, taken: seq<nat>)
    requires Inv(s) && Enabled(s, e) && joined == taken + s.ready
    ensures WellFormed(s) && Safe(s, e)
    ensures var d := Step(s, e);
            joined + Arrivals(s, e, d) == taken + (if GivesUp(s, e, d) && d.cur != IDLE then [d.cur] else []) + d.ready
  {
    hide Inv, Enabled, Step, Arrivals, Switches, GivesUp;
    GivesUpIfSwitches(s, e);
    var d := Step(s, e);
    var q := s.ready + Arrivals(s, e, d);
    if Switches(s, e) {
      SwitchTakesFirst(s, e);
      if q == [] {
        assert joined + Arrivals(s, e, d) == taken;
      } else {
        NextIsNotIdle(s, e);
        assert joined + Arrivals(s, e, d) == taken + q && q == [d.cur] + d.ready;
      }
    } else {
      QuietAppends(s, e);
    }
  }

  /** The idle task is in no queue. */
  lemma NextIsNotIdle(s: Sched, e: Event)
    requires Inv(s) && Enabled(s, e) && Switches(s, e)
    ensures Safe(s, e)
    ensures s.ready + Arrivals(s, e, Step(s, e)) != [] ==> Step(s, e).cur != IDLE
  {
    hide SemaphoresAgree, WaitersAgree, HandedOver, Step;
    SwitchStep(s, e);
    GivesUpIfSwitches(s, e);
    QueuesDisjoint(s);
    assert s.ready != [] ==> s.ready[0] in s.ready;
  }

  /** In every state of every run: who ever joined the readyqueue has been taken in the order of joining, or is still in
      the queue, in that order. */
  lemma {:induction false} ReadyIsFifo(r: Readings, es: seq<Event>, ws: seq<World>, k: nat)
    requires IsRun(r, es, ws) && k < |ws|
    ensures Shaped(ws[k]) && Joined(es, ws, k) == Taken(es, ws, k) + ws[k].s.ready
  {
    hide Inv, Enabled, Step, Arrivals, GivesUp;
    InvAlways(r, es, ws, k);
    if k == 0 {
      assert BootSched(r).ready == [];
    } else {
      hide BootSched, BootTask;
      InvAlways(r, es, ws, k - 1);
      ReadyIsFifo(r, es, ws, k - 1);
      assert HappensAt(es, ws, k - 1);
      FifoStep(ws[k - 1].s, es[k - 1], Joined(es, ws, k - 1), Taken(es, ws, k - 1));
    }
  }

  // ---------------------------------------------------------------- the quantum

  /** The clock ticks that the running task has seen since it got the CPU. */
  ghost function Slice(es: seq<Event>, ws: seq<World>, k: nat): nat
    requires |ws| == |es| + 1 && k <= |es|
  {
    if k == 0 || GivesUp(ws[k - 1].s, es[k - 1], ws[k].s) then 0
    else Slice(es, ws, k - 1) + if es[k - 1].EvClock? then 1 else 0
  }

  lemma QuantumStep(s: Sched, e: Event, n: nat)
    requires Inv(s) && Enabled(s, e) && s.rq == 10 - n % 10
    ensures Safe(s, e)
    ensures Switches(s, e) ==> Step(s, e).rq == 10
    ensures !Switches(s, e) ==> Step(s, e).rq == 10 - (if e.EvClock? then n + 1 else n) % 10
    ensures e.EvClock? ==> (Switches(s, e) <==> n % 10 == 9 && s.ready != [])
  {
    hide OnePlace, SemaphoresAgree, WaitersAgree, HandedOver;
    EnabledIsSafe(s, e);
    if Switches(s, e) {
      hide Step;
      StepInv(s, e);
      FullQuantum(s, e);
    } else {
      RunningIsUsed(s);
    }
  }

  lemma RunningIsUsed(s: Sched)
    requires Inv(s)
    ensures WellFormed(s) && s.cur !in s.free && Current(s).quantum == 10
  {
    QueuesDisjoint(s);
  }

  lemma FullQuantum(s: Sched, e: Event)
    requires Inv(s) && Enabled(s, e) && Switches(s, e)
    ensures Safe(s, e) && Step(s, e).rq == 10
  {
    hide OnePlace, SemaphoresAgree, WaitersAgree, Step;
    SwitchStep(s, e);
    PickIsNotFree(AtSwitch(s, e));
  }

  /** In every state of every run, remaining_quantum is 10 less the ticks that the running task has seen, modulo 10. */
  lemma {:induction false} QuantumAlways(r: Readings, es: seq<Event>, ws: seq<World>, k: nat)
    requires IsRun(r, es, ws) && k < |ws|
    ensures ws[k].s.rq == 10 - Slice(es, ws, k) % 10
  {
    hide Inv, Enabled, Step, Switches, GivesUp;
    if k > 0 {
      InvAlways(r, es, ws, k - 1);
      QuantumAlways(r, es, ws, k - 1);
      assert HappensAt(es, ws, k - 1);
      QuantumStep(ws[k - 1].s, es[k - 1], Slice(es, ws, k - 1));
      GivesUpIfSwitches(ws[k - 1].s, es[k - 1]);
    }
  }

  /** And the clock takes the CPU from a task exactly at its tenth, twentieth, ... tick at which another one is ready. */
  lemma PreemptsExactly(r: Readings, es: seq<Event>, ws: seq<World>, k: nat)
    requires IsRun(r, es, ws) && k < |es| && es[k].EvClock?
    ensures ws[k + 1].s.cur != ws[k].s.cur <==> (Slice(es, ws, k) + 1) % 10 == 0 && ws[k].s.ready != []
  {
    hide Inv, Enabled, Step, Switches;
    InvAlways(r, es, ws, k);
    QuantumAlways(r, es, ws, k);
    assert HappensAt(es, ws, k);
    QuantumStep(ws[k].s, es[k], Slice(es, ws, k));
    GivesUpIfSwitches(ws[k].s, es[k]);
  }

  // ---------------------------------------------------------------- states and identifiers

  /** How the kernel labels a task that is off the CPU: one that waits for a semaphore, or was released from one, still
      has ST_RUN, because sem_wait does not change it. */
  ghost predicate Labelled(s: Sched, i: nat)
    requires WellFormed(s) && i < NR_TASKS
  {
    i !in s.free && i != s.cur && i != IDLE ==>
      s.task[i].state == if s.task[i].pc == InSemWait then ST_RUN else ST_READY
  }

  /** What an event does to the identifiers of a task, and to its label. */
  lemma TaskAfter(s: Sched, e: Event, i: nat)
    requires Inv(s) && Enabled(s, e) && i < NR_TASKS && i !in s.free
    ensures Safe(s, e)
    ensures var a, b := s.task[i], Step(s, e).task[i];
            && b.tid == a.tid && b.dir == a.dir
            && b.pid == (if e.EvExit? && i == s.cur then -1 else a.pid)
            && (i != s.cur && i != Step(s, e).cur ==> b.state == a.state && b.pc == a.pc)
            && (i == s.cur != Step(s, e).cur && i !in Step(s, e).free ==>
                  b.state == if b.pc == InSemWait then ST_RUN else ST_READY)
  {
    hide Inv, Enabled, Step, Switches;
    EnabledIsSafe(s, e);
    GivesUpIfSwitches(s, e);
    UsedIsNotFirst(s, i);
    if Switches(s, e) {
      SwitchedTask(s, e, i);
    } else {
      AnswersAtOnce(s, e);
      if i == s.cur {
        QuietCurrent(s, e);
      } else {
        OthersKeepAnswers(s, e, i);
      }
    }
  }

  lemma QuietCurrent(s: Sched, e: Event)
    requires Inv(s) && Enabled(s, e) && !Switches(s, e)
    ensures Safe(s, e)
    ensures var a, b := s.task[s.cur], Step(s, e).task[s.cur]; b.tid == a.tid && b.dir == a.dir && b.pid == a.pid
    ensures !e.EvExit?
  {
    hide OnePlace, SemaphoresAgree, WaitersAgree, CpuAgrees;
    EnabledIsSafe(s, e);
    RunningIsNotFirst(s);
  }

  lemma SwitchedTask(s: Sched, e: Event, i: nat)
    requires Inv(s) && Enabled(s, e) && Switches(s, e) && i < NR_TASKS
    ensures Safe(s, e)
    ensures var a, b := s.task[i], Step(s, e).task[i];
            && b.tid == a.tid && b.dir == a.dir
            && b.pid == (if e.EvExit? && i == s.cur then -1 else a.pid)
            && (i != s.cur && i != Step(s, e).cur ==> b.state == a.state && b.pc == a.pc)
            && (i == s.cur != Step(s, e).cur && i !in Step(s, e).free ==>
                  b.state == if b.pc == InSemWait then ST_RUN else ST_READY)
  {
    hide OnePlace, SemaphoresAgree, WaitersAgree, EachOnce, QuantaDefault, Step, Dispatch;
    SwitchStep(s, e);
    assert e.EvExit? || e.EvTerminate? ==> AtSwitch(s, e).free == s.free + [s.cur];
  }

  lemma CreatedTask(s: Sched, e: Event)
    requires Inv(s) && Enabled(s, e) && s.free != []
    ensures Safe(s, e) && s.free[0] < NR_TASKS && s.free[0] != s.cur
    ensures e.EvFork? && e.room ==>
              var b := Step(s, e).task[s.free[0]];
              && b.pid == s.lastPid + 1 && b.tid == s.task[s.cur].tid && b.dir == s.free[0]
              && b.state == ST_READY && b.pc == InCall
    ensures e.EvCreateThread? ==>
              var b := Step(s, e).task[s.free[0]];
              && b.pid == s.task[s.cur].pid && b.tid == s.lastTid + 1 && b.dir == s.task[s.cur].dir
              && b.state == ST_READY && b.pc == InCall
  {
    hide OnePlace, SemaphoresAgree, WaitersAgree, CpuAgrees;
    EnabledIsSafe(s, e);
    RunningIsNotFirst(s);
  }

  predicate Forks(s: Sched, e: Event) {
    e.EvFork? && e.room && s.free != []
  }

  predicate Creates(s: Sched, e: Event) {
    e.EvCreateThread? && s.free != []
  }

  lemma CountersAfter(s: Sched, e: Event)
    requires Inv(s) && Enabled(s, e)
    ensures Safe(s, e)
    ensures Step(s, e).lastPid == s.lastPid + if Forks(s, e) then 1 else 0
    ensures Step(s, e).lastTid == s.lastTid + if Creates(s, e) then 1 else 0
  {
    hide OnePlace, SemaphoresAgree, WaitersAgree, CpuAgrees, HandedOver, Dispatch;
    EnabledIsSafe(s, e);
    if Switches(s, e) {
      hide Step;
      SwitchStep(s, e);
    }
  }

  /** Identifiers of tasks in use are not above the counters, and tasks with the same PID have the same directory: they
      are the threads of one process. */
  ghost predicate Identified(s: Sched)
    requires WellFormed(s)
  {
    && 1000 <= s.lastPid && 0 <= s.lastTid
    && (forall i :: 0 <= i < NR_TASKS && i !in s.free ==> 0 <= s.task[i].pid <= s.lastPid && 0 <= s.task[i].tid <= s.lastTid)
    && (forall i, j ::
          0 <= i < NR_TASKS && i !in s.free && 0 <= j < NR_TASKS && j !in s.free && s.task[i].pid == s.task[j].pid ==>
            s.task[i].dir == s.task[j].dir)
  }

  /** The task whose identifiers i has after an event: i itself, or the creator of a thread; none for a new process. */
  function Origin(s: Sched, e: Event, i: nat): nat {
    if Creates(s, e) && i == s.free[0] then s.cur else i
  }

  lemma OriginAfter(s: Sched, e: Event, i: nat)
    requires Inv(s) && Enabled(s, e) && i < NR_TASKS
    ensures Safe(s, e)
    ensures i !in Step(s, e).free ==>
              var b := Step(s, e).task[i];
              if Forks(s, e) && i == s.free[0] then b.pid == s.lastPid + 1 && b.dir == i && b.tid == s.task[s.cur].tid
              else
                var o := Origin(s, e, i);
                && o < NR_TASKS && o !in s.free && b.pid == s.task[o].pid && b.dir == s.task[o].dir
                && b.tid == if Creates(s, e) && i == s.free[0] then s.lastTid + 1 else s.task[o].tid
    ensures i !in Step(s, e).free && Labelled(s, i) ==> Labelled(Step(s, e), i)
    ensures s.cur < NR_TASKS && s.cur !in s.free
  {
    hide Inv, Enabled, Step;
    EnabledIsSafe(s, e);
    NotFreed(s, e, i);
    if i !in s.free {
      TaskAfter(s, e, i);
      UsedIsNotFirst(s, i);
      ExitedIsFree(s, e);
    }
    if s.free != [] {
      CreatedTask(s, e);
    }
    RunningIsUsed(s);
  }

  lemma ExitedIsFree(s: Sched, e: Event)
    requires Inv(s) && Enabled(s, e)
    ensures Safe(s, e) && (e.EvExit? ==> s.cur in Step(s, e).free)
  {
    hide OnePlace, SemaphoresAgree, WaitersAgree, CpuAgrees, Step, HandedOver;
    EnabledIsSafe(s, e);
    if Switches(s, e) {
      SwitchStep(s, e);
    }
  }

  lemma IdsStep(s: Sched, e: Event)
    requires Inv(s) && Enabled(s, e) && Identified(s)
    ensures Safe(s, e) && Identified(Step(s, e))
  {
    hide Inv, Enabled, Step, Labelled;
    RunningIsUsed(s);
    CountersAfter(s, e);
    var d := Step(s, e);
    forall i | 0 <= i < NR_TASKS && i !in d.free
      ensures 0 <= d.task[i].pid <= d.lastPid && 0 <= d.task[i].tid <= d.lastTid
    {
      OriginAfter(s, e, i);
    }
    forall i, j | 0 <= i < NR_TASKS && i !in d.free && 0 <= j < NR_TASKS && j !in d.free && d.task[i].pid == d.task[j].pid
      ensures d.task[i].dir == d.task[j].dir
    {
      OriginAfter(s, e, i);
      OriginAfter(s, e, j);
    }
  }

  lemma BootIds(r: Readings)
    ensures WellFormed(BootSched(r)) && Identified(BootSched(r))
    ensures forall i :: 0 <= i < NR_TASKS ==> Labelled(BootSched(r), i)
  {
    forall i | 2 <= i < NR_TASKS ensures i in BootSched(r).free {
      assert BootSched(r).free[i - 2] == i;
    }
  }

  /** In every state of every run. */
  lemma {:induction false} IdsAlways(r: Readings, es: seq<Event>, ws: seq<World>, k: nat)
    requires IsRun(r, es, ws) && k < |ws|
    ensures Shaped(ws[k]) && Identified(ws[k].s)
    ensures forall i :: 0 <= i < NR_TASKS ==> Labelled(ws[k].s, i)
  {
    hide Inv, Enabled, Step, Identified, Labelled;
    InvAlways(r, es, ws, k);
    if k == 0 {
      BootIds(r);
    } else {
      InvAlways(r, es, ws, k - 1);
      IdsAlways(r, es, ws, k - 1);
      assert HappensAt(es, ws, k - 1);
      IdsStep(ws[k - 1].s, es[k - 1]);
      forall i | 0 <= i < NR_TASKS ensures Labelled(ws[k].s, i) {
        OriginAfter(ws[k - 1].s, es[k - 1], i);
        if i in ws[k].s.free {
          FreeIsLabelled(ws[k].s, i);
        }
      }
    }
  }

  lemma FreeIsLabelled(s: Sched, i: nat)
    requires WellFormed(s) && i < NR_TASKS && i in s.free
    ensures Labelled(s, i)
  {
  }

  /** A process that fork makes has a PID that no task in use has. */
  lemma ForkedPidIsNew(r: Readings, es: seq<Event>, ws: seq<World>, k: nat, i: nat)
    requires IsRun(r, es, ws) && k < |es| && Forks(ws[k].s, es[k])
    requires i < NR_TASKS && Shaped(ws[k]) && i !in ws[k].s.free
    ensures Shaped(ws[k + 1]) && ws[k].s.free[0] < NR_TASKS
    ensures ws[k + 1].s.task[ws[k].s.free[0]].pid != ws[k].s.task[i].pid
  {
    hide Inv, Enabled, Step, Labelled;
    InvAlways(r, es, ws, k);
    InvAlways(r, es, ws, k + 1);
    IdsAlways(r, es, ws, k);
    assert HappensAt(es, ws, k);
    CreatedTask(ws[k].s, es[k]);
  }
}
