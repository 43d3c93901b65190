/** What sem_wait answers: -1 exactly to the callers that sem_destroy released. */
module SemaphoreAnswers {
  import opened Scheduling
  import opened SchedulingInvariant
  import opened SchedulingRuns

  ghost predicate ReadyWaiter(s: Sched, i: nat)
    requires i < |s.task|
  {
    i in s.ready && s.task[i].pc == InSemWait
  }

  /** The kernel's `destroyed` mark tells the truth about how the observer saw the task leave the queue. */
  ghost predicate MarkIsTrue(w: World, i: nat)
    requires Shaped(w) && i < NR_TASKS
  {
    && (InBlocked(w.s, i) <==> w.h.left[i] == Waiting)
    && (ReadyWaiter(w.s, i) <==> w.h.left[i] == BySignal || w.h.left[i] == ByDestroy)
    && (w.s.task[i].destroyed == 1 <==> w.h.left[i] == ByDestroy)
  }

  lemma RunningHasLeft(w: World)
    requires Shaped(w) && Inv(w.s) && MarkIsTrue(w, w.s.cur)
    ensures w.h.left[w.s.cur] == NotWaiting && !InBlocked(w.s, w.s.cur) && w.s.cur !in w.s.ready
  {
    QueuesDisjoint(w.s);
  }

  /** For events that do not move i. */
  lemma Unmoved(w: World, e: Event, i: nat)
    requires Shaped(w) && Inv(w.s) && Safe(w.s, e) && i < NR_TASKS && MarkIsTrue(w, i)
    requires var d := Step(w.s, e);
             && (InBlocked(d, i) <==> InBlocked(w.s, i)) && (ReadyWaiter(d, i) <==> ReadyWaiter(w.s, i))
             && d.task[i].destroyed == w.s.task[i].destroyed && (i == d.cur ==> i == w.s.cur)
    ensures MarkIsTrue(Next(w, e), i)
  {
    hide OnePlace, WaitersAgree, CpuAgrees, SemaphoresAgree, Step;
    if i == w.s.cur {
      RunningHasLeft(w);
    }
  }

  lemma PickedFrom(s: Sched, e: Event)
    requires Inv(s) && Enabled(s, e) && Switches(s, e)
    ensures WellFormed(AtSwitch(s, e))
    ensures var t := Pick(AtSwitch(s, e)); (t == s.cur || t == IDLE || t in s.ready) && !InBlocked(s, t)
  {
    hide OnePlace, WaitersAgree, CpuAgrees, SemaphoresAgree, HandedOver, Dispatched;
    SwitchStep(s, e);
    QueuesDisjoint(s);
  }

  lemma InTail(q: seq<nat>, i: nat)
    requires q != []
    ensures i in q <==> i == q[0] || i in q[1..]
  {
    assert q == [q[0]] + q[1..];
  }

  lemma OthersKeepTheirPlace(s: Sched, e: Event, i: nat)
    requires Inv(s) && Enabled(s, e) && Switches(s, e) && i < NR_TASKS
    requires i != s.cur && i != Pick(AtSwitch(s, e))
    ensures Safe(s, e)
    ensures var d := Step(s, e); (i in d.ready <==> i in s.ready) && d.task[i] == s.task[i]
    ensures var d := Step(s, e); InBlocked(d, i) <==> InBlocked(s, i)
  {
    hide OnePlace, WaitersAgree, CpuAgrees, SemaphoresAgree, EachOnce, QuantaDefault, Step, Dispatch;
    SwitchStep(s, e);
    var h, d := AtSwitch(s, e), Step(s, e);
    assert i in h.ready <==> i in s.ready;
    if h.ready != [] {
      InTail(h.ready, i);
    }
    assert forall n :: 0 <= n < MAX_SEM ==> (i in d.blocked[n] <==> i in s.blocked[n]);
  }

  /** Where the task that gives up the CPU goes. */
  lemma PreviousPlace(s: Sched, e: Event)
    requires Inv(s) && Enabled(s, e) && Switches(s, e) && s.cur != Pick(AtSwitch(s, e))
    ensures Safe(s, e)
    ensures var d, i := Step(s, e), s.cur;
            && d.task[i].destroyed == 0
            && if e.EvSemWait? then i in d.blocked[e.n] && i !in d.ready
               else !InBlocked(d, i) && d.task[i].pc != InSemWait
  {
    hide OnePlace, WaitersAgree, SemaphoresAgree, Step, HandedOver;
    var h, d := AtSwitch(s, e), Step(s, e);
    SwitchStep(s, e);
    QueuesDisjoint(s);
    RunningIsUnmarked(s);
    if e.EvSemWait? {
      assert d.blocked[e.n] == s.blocked[e.n] + [s.cur];
      StepInv(s, e);
      QueuesDisjoint(d);
    } else {
      assert d.blocked == s.blocked;
    }
  }

  lemma PreviousMark(w: World, e: Event)
    requires Shaped(w) && Inv(w.s) && Enabled(w.s, e) && Switches(w.s, e) && MarkIsTrue(w, w.s.cur)
    requires w.s.cur != Pick(AtSwitch(w.s, e))
    ensures Safe(w.s, e) && MarkIsTrue(Next(w, e), w.s.cur)
  {
    hide OnePlace, CpuAgrees, SemaphoresAgree, WaitersAgree, Step, HandedOver, AtSwitch;
    PreviousPlace(w.s, e);
    RunningHasLeft(w);
    var d, i := Step(w.s, e), w.s.cur;
    DispatchedTo(w.s, e);
    if e.EvSemWait? {
      assert InBlocked(d, i);
    }
  }

  lemma DispatchedTo(s: Sched, e: Event)
    requires Inv(s) && Enabled(s, e) && Switches(s, e)
    ensures WellFormed(AtSwitch(s, e)) && Safe(s, e) && Step(s, e).cur == Pick(AtSwitch(s, e))
  {
    hide Inv, Step, HandedOver;
    SwitchStep(s, e);
  }

  lemma PickedMark(w: World, e: Event)
    requires Shaped(w) && Inv(w.s) && Enabled(w.s, e) && Switches(w.s, e)
    ensures WellFormed(AtSwitch(w.s, e))
    ensures Safe(w.s, e) && MarkIsTrue(Next(w, e), Pick(AtSwitch(w.s, e)))
  {
    hide OnePlace, WaitersAgree, CpuAgrees, SemaphoresAgree, Step, HandedOver;
    var d := Step(w.s, e);
    SwitchStep(w.s, e);
    StepInv(w.s, e);
    RunningIsUnmarked(d);
    QueuesDisjoint(d);
    PickedFrom(w.s, e);
    assert !InBlocked(d, d.cur);
    assert Next(w, e).h.left[d.cur] == NotWaiting;
  }

  lemma SwitchMark(w: World, e: Event, i: nat)
    requires Shaped(w) && Inv(w.s) && Enabled(w.s, e) && Switches(w.s, e)
    requires i < NR_TASKS && MarkIsTrue(w, i) && MarkIsTrue(w, w.s.cur)
    ensures Safe(w.s, e) && MarkIsTrue(Next(w, e), i)
  {
    hide OnePlace, WaitersAgree, CpuAgrees, SemaphoresAgree, Step, HandedOver;
    SwitchStep(w.s, e);
    if i == Pick(AtSwitch(w.s, e)) {
      PickedMark(w, e);
    } else if i == w.s.cur {
      PreviousMark(w, e);
    } else {
      OthersKeepTheirPlace(w.s, e, i);
      Unmoved(w, e, i);
    }
  }

  // ---------------------------------------------------------------- events that switch no tasks

  /** A task struct taken from the freequeue has been in no semaphore's queue. */
  lemma FreshMark(w: World, i: nat)
    requires Shaped(w) && Inv(w.s) && i in w.s.free && i < NR_TASKS && MarkIsTrue(w, i)
    ensures w.h.left[i] == NotWaiting && !InBlocked(w.s, i) && i !in w.s.ready
  {
    QueuesDisjoint(w.s);
  }

  lemma SpawnMark(w: World, e: Event, i: nat)
    requires Shaped(w) && Inv(w.s) && Enabled(w.s, e) && i < NR_TASKS && MarkIsTrue(w, i)
    requires e.EvFork? || e.EvCreateThread?
    ensures Safe(w.s, e) && MarkIsTrue(Next(w, e), i)
  {
    hide OnePlace, SemaphoresAgree;
    EnabledIsSafe(w.s, e);
    RunningIsUnmarked(w.s);
    QueuesDisjoint(w.s);
    var d := Step(w.s, e);
    assert d.blocked == w.s.blocked;
    assert InBlocked(d, i) <==> InBlocked(w.s, i);
    if w.s.free != [] && i == w.s.free[0] {
      assert i in w.s.free;
      FreshMark(w, i);
    } else {
      Unmoved(w, e, i);
    }
  }

  lemma SignalMark(w: World, e: Event, i: nat)
    requires Shaped(w) && Inv(w.s) && Enabled(w.s, e) && i < NR_TASKS && MarkIsTrue(w, i)
    requires e.EvSemSignal? && WakesSomeone(w.s, e.n)
    ensures Safe(w.s, e) && MarkIsTrue(Next(w, e), i)
  {
    hide OnePlace, SemaphoresAgree, CpuAgrees;
    StepInv(w.s, e);
    var s, d, n := w.s, Step(w.s, e), e.n;
    QueuesDisjoint(d);
    QueuesDisjoint(s);
    InTail(s.blocked[n], i);
    assert forall m :: 0 <= m < MAX_SEM && m != n ==> d.blocked[m] == s.blocked[m];
    if i == s.blocked[n][0] {
      assert i in s.blocked[n] && InBlocked(s, i);
      assert i in d.ready && !InBlocked(d, i);
      assert AllWaiting(s.task, s.blocked[n]);
    } else {
      assert forall m :: 0 <= m < MAX_SEM ==> (i in d.blocked[m] <==> i in s.blocked[m]);
      Unmoved(w, e, i);
    }
  }

  lemma DestroyMark(w: World, e: Event, i: nat)
    requires Shaped(w) && Inv(w.s) && Enabled(w.s, e) && i < NR_TASKS && MarkIsTrue(w, i)
    requires e.EvSemDestroy? && ValidSem(w.s, e.n)
    ensures Safe(w.s, e) && MarkIsTrue(Next(w, e), i)
  {
    hide OnePlace, SemaphoresAgree, CpuAgrees;
    StepInv(w.s, e);
    var s, d, n := w.s, Step(w.s, e), e.n;
    QueuesDisjoint(d);
    QueuesDisjoint(s);
    assert forall m :: 0 <= m < MAX_SEM && m != n ==> d.blocked[m] == s.blocked[m];
    if i in s.blocked[n] {
      assert InBlocked(s, i);
      assert i in d.ready && !InBlocked(d, i);
      assert AllWaiting(s.task, s.blocked[n]);
    } else {
      assert forall m :: 0 <= m < MAX_SEM ==> (i in d.blocked[m] <==> i in s.blocked[m]);
      Unmoved(w, e, i);
    }
  }

  lemma QuietMark(w: World, e: Event, i: nat)
    requires Shaped(w) && Inv(w.s) && Enabled(w.s, e) && i < NR_TASKS && MarkIsTrue(w, i)
    requires !Switches(w.s, e) && !e.EvFork? && !e.EvCreateThread?
    requires !(e.EvSemSignal? && WakesSomeone(w.s, e.n)) && !(e.EvSemDestroy? && ValidSem(w.s, e.n))
    ensures Safe(w.s, e) && MarkIsTrue(Next(w, e), i)
  {
    hide OnePlace, WaitersAgree, CpuAgrees;
    RunningIsUnmarked(w.s);
    var d := Step(w.s, e);
    assert d.blocked == w.s.blocked && d.ready == w.s.ready && d.cur == w.s.cur;
    assert InBlocked(d, i) <==> InBlocked(w.s, i);
    Unmoved(w, e, i);
  }

  lemma MarkStep(w: World, e: Event, i: nat)
    requires Shaped(w) && Inv(w.s) && Enabled(w.s, e) && i < NR_TASKS && MarkIsTrue(w, i)
    requires MarkIsTrue(w, w.s.cur)
    ensures Safe(w.s, e) && MarkIsTrue(Next(w, e), i)
  {
    hide Inv, Enabled, MarkIsTrue, Next, Step;
    if Switches(w.s, e) {
      SwitchMark(w, e, i);
    } else if e.EvFork? || e.EvCreateThread? {
      SpawnMark(w, e, i);
    } else if e.EvSemSignal? && WakesSomeone(w.s, e.n) {
      SignalMark(w, e, i);
    } else if e.EvSemDestroy? && ValidSem(w.s, e.n) {
      DestroyMark(w, e, i);
    } else {
      QuietMark(w, e, i);
    }
  }

  // ---------------------------------------------------------------- every run

  ghost predicate MarksAreTrue(w: World)
    requires Shaped(w)
  {
    forall i :: 0 <= i < NR_TASKS ==> MarkIsTrue(w, i)
  }

  lemma BootMarks(r: Readings)
    ensures Shaped(Boot(r)) && MarksAreTrue(Boot(r))
  {
    BootInv(r);
  }

  lemma {:induction false} MarksAlwaysTrue(r: Readings, es: seq<Event>, ws: seq<World>, k: nat)
    requires IsRun(r, es, ws) && k < |ws|
    ensures Shaped(ws[k]) && MarksAreTrue(ws[k])
  {
    hide Inv, MarkIsTrue, Next, Step, Enabled;
    InvAlways(r, es, ws, k);
    if k == 0 {
      BootMarks(r);
    } else {
      MarksAlwaysTrue(r, es, ws, k - 1);
      InvAlways(r, es, ws, k - 1);
      assert HappensAt(es, ws, k - 1);
      forall i | 0 <= i < NR_TASKS
        ensures MarkIsTrue(ws[k], i)
      {
        MarkStep(ws[k - 1], es[k - 1], i);
      }
    }
  }

  /** When a task gets the CPU back inside sem_wait, in any run, the call answers -1 if sem_destroy released
      the task from the queue and 0 if sem_signal did; there is no third case. */
  lemma BlockedWaitAnswers(r: Readings, es: seq<Event>, ws: seq<World>, k: nat)
    requires IsRun(r, es, ws) && k < |es|
    ensures Shaped(ws[k]) && Shaped(ws[k + 1])
    ensures var t := ws[k + 1].s.cur;
            ws[k].s.task[t].pc == InSemWait ==>
              || (ws[k].h.left[t] == ByDestroy && ws[k + 1].s.task[t].ret == -1)
              || (ws[k].h.left[t] == BySignal && ws[k + 1].s.task[t].ret == 0)
  {
    MarksAlwaysTrue(r, es, ws, k);
    InvAlways(r, es, ws, k);
    InvAlways(r, es, ws, k + 1);
    assert HappensAt(es, ws, k);
    ResumedAnswer(ws[k], es[k]);
  }

  lemma EndOfWaitAnswer(h: Sched, r: Readings)
    requires WellFormed(h) && h.task[Pick(h)].pc == InSemWait
    ensures Dispatch(h, r).task[Pick(h)].ret == if h.task[Pick(h)].destroyed == 1 then -1 else 0
  {
    assert SchedNext(h, r).task[Pick(h)].pc == InSemWait;
  }

  lemma ResumedAnswer(w: World, e: Event)
    requires Shaped(w) && Inv(w.s) && Enabled(w.s, e) && MarksAreTrue(w)
    ensures Safe(w.s, e)
    ensures var t := Step(w.s, e).cur;
            w.s.task[t].pc == InSemWait ==>
              || (w.h.left[t] == ByDestroy && Step(w.s, e).task[t].ret == -1)
              || (w.h.left[t] == BySignal && Step(w.s, e).task[t].ret == 0)
  {
    hide OnePlace, WaitersAgree, SemaphoresAgree, HandedOver, Dispatch, Step;
    EnabledIsSafe(w.s, e);
    if Switches(w.s, e) {
      SwitchStep(w.s, e);
      PickedFrom(w.s, e);
      var h, t := AtSwitch(w.s, e), Step(w.s, e).cur;
      if w.s.task[t].pc == InSemWait {
        assert t != w.s.cur && t != IDLE;
        assert h.task[t] == w.s.task[t] && MarkIsTrue(w, t);
        EndOfWaitAnswer(h, e.r);
      }
    } else {
      StaysOnCpu(w.s, e);
    }
  }

  lemma StaysOnCpu(s: Sched, e: Event)
    requires Inv(s) && Enabled(s, e) && !Switches(s, e)
    ensures Safe(s, e) && Step(s, e).cur == s.cur && s.task[s.cur].pc == OnCpu
  {
    hide OnePlace, WaitersAgree;
  }

  /** A call that need not wait answers 0 at once. */
  lemma ImmediateWaitAnswers(r: Readings, es: seq<Event>, ws: seq<World>, k: nat)
    requires IsRun(r, es, ws) && k < |es|
    requires es[k].EvSemWait? && Shaped(ws[k]) && ValidSem(ws[k].s, es[k].n) && ws[k].s.sem[es[k].n].counter > 0
    ensures Shaped(ws[k + 1]) && ws[k + 1].s.cur == ws[k].s.cur && Current(ws[k + 1].s).ret == 0
  {
    hide OnePlace, WaitersAgree, SemaphoresAgree, CpuAgrees;
    InvAlways(r, es, ws, k);
    assert HappensAt(es, ws, k);
    RunningIsUnmarked(ws[k].s);
  }
}
