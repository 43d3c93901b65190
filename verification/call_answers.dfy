/** What the callers of the system calls get back, in every run: at once if they keep the CPU, and else when they are
    back on it. The observer knows only the events and who has the CPU. */
module CallAnswers {
  import opened Scheduling
  import opened SchedulingInvariant
  import opened SchedulingRuns
  import opened SemaphoreAnswers

  // ---------------------------------------------------------------- answers at once

  /** An event that does not switch tasks answers as the manual says: an interrupt leaves the caller's register alone. */
  lemma AnswersAtOnce(s: Sched, e: Event)
    requires Inv(s) && Enabled(s, e) && !Switches(s, e)
    ensures Safe(s, e) && Step(s, e).cur == s.cur
    ensures (e.EvFork? || e.EvCreateThread?) && s.free != [] ==> s.free[0] < NR_TASKS
    ensures var d := Step(s, e);
            d.task[s.cur].ret ==
            match e
            case EvFork(_, room) => if s.free == [] then -12 else if room then d.task[s.free[0]].pid else -11
            case EvCreateThread => if s.free == [] then -12 else 0
            case EvTerminate(_, err) => err
            case EvSemInit(n, _) => if 0 <= n < 8 && !s.sem[n].isInit then 0 else -1
            case EvSemWait(n, _) => if 0 <= n < 8 && s.sem[n].isInit then 0 else -1
            case EvSemSignal(n) => if 0 <= n < 8 && s.sem[n].isInit then 0 else -1
            case EvSemDestroy(n) => if 0 <= n < 8 && s.sem[n].isInit then 0 else -1
            case _ => s.task[s.cur].ret
  {
    hide OnePlace, WaitersAgree;
    EnabledIsSafe(s, e);
    RunningIsUnmarked(s);
    RunningIsNotFirst(s);
  }

  lemma RunningIsNotFirst(s: Sched)
    requires Inv(s)
    ensures s.free != [] ==> s.free[0] != s.cur && s.free[0] < NR_TASKS
  {
    QueuesDisjoint(s);
  }

  /** The tasks in use that do not run notice nothing. */
  lemma OthersKeepAnswers(s: Sched, e: Event, i: nat)
    requires Inv(s) && Enabled(s, e) && !Switches(s, e) && i < NR_TASKS && i != s.cur && i !in s.free
    ensures Safe(s, e)
    ensures Step(s, e).task[i] == s.task[i].(destroyed := Step(s, e).task[i].destroyed)
  {
    hide OnePlace, WaitersAgree, SemaphoresAgree, CpuAgrees;
    EnabledIsSafe(s, e);
  }

  // ---------------------------------------------------------------- why a task is off the CPU

  /** How a task has come to be where it is. A task that a clock interrupt stopped has a value in its register. */
  datatype Why = Running | Unborn | AsChild | AsThread | ByYield | ByClock(register: int) | ByWait | Gone

  function WhyNext(was: Why, s: Sched, e: Event, d: Sched, i: nat): Why
    requires i < |s.task|
  {
    if i == d.cur then Running
    else if i == s.cur then
      match e
      case EvYield(_) => ByYield
      case EvClock(_) => ByClock(s.task[i].ret)
      case EvSemWait(_, _) => ByWait
      case _ => Gone
    else if e.EvFork? && e.room && s.free != [] && i == s.free[0] then AsChild
    else if e.EvCreateThread? && s.free != [] && i == s.free[0] then AsThread
    else was
  }

  /** What an observer of the first k events knows of task i. */
  ghost function WhyAt(es: seq<Event>, ws: seq<World>, k: nat, i: nat): Why
    requires |ws| == |es| + 1 && k <= |es| && i < NR_TASKS
  {
    if k == 0 then if i == INIT then Running else Unborn
    else if !WellFormed(ws[k - 1].s) then Gone
    else WhyNext(WhyAt(es, ws, k - 1, i), ws[k - 1].s, es[k - 1], ws[k].s, i)
  }

  /** The kernel has kept what is needed to go on: the observer and the saved stack agree. */
  ghost predicate Kept(s: Sched, i: nat, y: Why)
    requires WellFormed(s) && i < NR_TASKS
  {
    && (y == Running <==> i == s.cur)
    && (y == AsChild || y == AsThread || y == ByYield ==> s.task[i].pc == InCall && i !in s.free)
    && (y.ByClock? ==> s.task[i].pc == InClock && s.task[i].ret == y.register && i !in s.free)
    && (y == ByWait ==> s.task[i].pc == InSemWait && i !in s.free)
  }

  lemma FirstIsFreeOnce(s: Sched)
    requires Inv(s)
    ensures s.free != [] ==> s.free[0] !in s.free[1..]
  {
    if s.free != [] {
      Uncons(s.free);
      assert Places(s)[s.free[0]] == 1;
    }
  }

  /** A task that does not run does not end. */
  lemma UsedStaysUsed(s: Sched, e: Event, i: nat)
    requires Inv(s) && Enabled(s, e) && i < NR_TASKS && i != s.cur
    ensures Safe(s, e)
    ensures i !in s.free ==> i !in Step(s, e).free
    ensures s.free != [] && i == s.free[0] && ((e.EvFork? && e.room) || e.EvCreateThread?) ==> i !in Step(s, e).free
  {
    hide WaitersAgree, SemaphoresAgree, CpuAgrees, OnePlace, HandedOver;
    EnabledIsSafe(s, e);
    FirstIsFreeOnce(s);
    if Switches(s, e) {
      hide Step;
      SwitchStep(s, e);
    }
  }

  lemma KeptByPrevious(s: Sched, e: Event, y: Why)
    requires Inv(s) && Enabled(s, e) && Switches(s, e) && WellFormed(AtSwitch(s, e)) && s.cur != Pick(AtSwitch(s, e))
    ensures Safe(s, e) && Kept(Step(s, e), s.cur, WhyNext(y, s, e, Step(s, e), s.cur))
  {
    hide OnePlace, WaitersAgree, SemaphoresAgree, EachOnce, QuantaDefault, Step, Dispatch;
    SwitchStep(s, e);
    QueuesDisjoint(s);
  }

  lemma KeptByOthers(s: Sched, e: Event, i: nat, y: Why)
    requires Inv(s) && Enabled(s, e) && i < NR_TASKS && i != s.cur && Kept(s, i, y)
    requires Switches(s, e) ==> WellFormed(AtSwitch(s, e)) && i != Pick(AtSwitch(s, e))
    ensures Safe(s, e) && Kept(Step(s, e), i, WhyNext(y, s, e, Step(s, e), i))
  {
    hide Inv, Enabled, AtSwitch;
    UsedStaysUsed(s, e, i);
    if Switches(s, e) {
      hide Step;
      DispatchedTo(s, e);
      OthersKeepTheirPlace(s, e, i);
    } else {
      hide Step;
      AnswersAtOnce(s, e);
      CreatedIsInCall(s, e);
      if i !in s.free {
        OthersKeepAnswers(s, e, i);
        UsedIsNotFirst(s, i);
      }
    }
  }

  lemma CreatedIsInCall(s: Sched, e: Event)
    requires Inv(s) && Enabled(s, e) && !Switches(s, e)
    ensures Safe(s, e)
    ensures s.free != [] && ((e.EvFork? && e.room) || e.EvCreateThread?) ==>
              s.free[0] < NR_TASKS && Step(s, e).task[s.free[0]].pc == InCall
  {
    EnabledIsSafe(s, e);
    RunningIsNotFirst(s);
  }

  lemma UsedIsNotFirst(s: Sched, i: nat)
    requires i !in s.free
    ensures s.free != [] ==> i != s.free[0]
  {
  }

  lemma KeptByStep(s: Sched, e: Event, i: nat, y: Why)
    requires Inv(s) && Enabled(s, e) && i < NR_TASKS && Kept(s, i, y)
    ensures Safe(s, e) && Kept(Step(s, e), i, WhyNext(y, s, e, Step(s, e), i))
  {
    hide Inv, Enabled, Step, AtSwitch;
    EnabledIsSafe(s, e);
    if Switches(s, e) {
      DispatchedTo(s, e);
      if i == Pick(AtSwitch(s, e)) {
      } else if i == s.cur {
        KeptByPrevious(s, e, y);
      } else {
        KeptByOthers(s, e, i, y);
      }
    } else {
      AnswersAtOnce(s, e);
      if i != s.cur {
        KeptByOthers(s, e, i, y);
      }
    }
  }

  lemma {:induction false} KeptAlways(r: Readings, es: seq<Event>, ws: seq<World>, k: nat, i: nat)
    requires IsRun(r, es, ws) && k < |ws| && i < NR_TASKS
    ensures Shaped(ws[k]) && Kept(ws[k].s, i, WhyAt(es, ws, k, i))
  {
    hide Inv, Enabled, Step, Kept;
    InvAlways(r, es, ws, k);
    if k == 0 {
      KeptAtBoot(r, i);
    } else {
      InvAlways(r, es, ws, k - 1);
      KeptAlways(r, es, ws, k - 1, i);
      assert HappensAt(es, ws, k - 1);
      KeptByStep(ws[k - 1].s, es[k - 1], i, WhyAt(es, ws, k - 1, i));
    }
  }

  lemma KeptAtBoot(r: Readings, i: nat)
    requires i < NR_TASKS
    ensures WellFormed(BootSched(r)) && Kept(BootSched(r), i, if i == INIT then Running else Unborn)
  {
    hide BootTask;
    BootInv(r);
  }

  // ---------------------------------------------------------------- the answers

  lemma ResumedRegister(h: Sched, r: Readings)
    requires WellFormed(h)
    ensures var t := h.task[Pick(h)];
            && (t.pc == InCall ==> Dispatch(h, r).task[Pick(h)].ret == 0)
            && (t.pc == InClock ==> Dispatch(h, r).task[Pick(h)].ret == t.ret)
  {
    assert SchedNext(h, r).task[Pick(h)].pc == h.task[Pick(h)].pc;
  }

  lemma Resumed(s: Sched, e: Event, y: Why)
    requires Inv(s) && Enabled(s, e)
    ensures Safe(s, e)
    ensures var d := Step(s, e);
            && (e.EvYield? && d.cur == s.cur ==> d.task[d.cur].ret == 0)
            && (d.cur != s.cur && Kept(s, d.cur, y) ==>
                  && (y == AsChild || y == ByYield ==> d.task[d.cur].ret == 0)
                  && (y.ByClock? ==> d.task[d.cur].ret == y.register))
  {
    hide OnePlace, WaitersAgree, SemaphoresAgree, HandedOver, Dispatch, Step;
    EnabledIsSafe(s, e);
    if Switches(s, e) {
      SwitchStep(s, e);
      PickedFrom(s, e);
      ResumedRegister(AtSwitch(s, e), e.r);
    } else {
      AnswersAtOnce(s, e);
    }
  }

  /** In every run, when a task is back on the CPU: a call of fork that made it answers 0 to it, a call of yield answers
      0, and an interrupted program finds in its register what it left there. */
  lemma ResumedAnswers(r: Readings, es: seq<Event>, ws: seq<World>, k: nat)
    requires IsRun(r, es, ws) && k < |es|
    ensures Shaped(ws[k]) && Shaped(ws[k + 1])
    ensures var t := ws[k + 1].s.cur;
            && (t == ws[k].s.cur && es[k].EvYield? ==> ws[k + 1].s.task[t].ret == 0)
            && (t != ws[k].s.cur ==>
                  match WhyAt(es, ws, k, t)
                  case AsChild => ws[k + 1].s.task[t].ret == 0
                  case ByYield => ws[k + 1].s.task[t].ret == 0
                  case ByClock(register) => ws[k + 1].s.task[t].ret == register
                  case _ => true)
  {
    hide Inv, Enabled, Kept, Step;
    InvAlways(r, es, ws, k);
    InvAlways(r, es, ws, k + 1);
    assert HappensAt(es, ws, k);
    var t := ws[k + 1].s.cur;
    KeptAlways(r, es, ws, k, t);
    Resumed(ws[k].s, es[k], WhyAt(es, ws, k, t));
  }

  lemma ChildIsNew(s: Sched, e: Event)
    requires Inv(s) && Enabled(s, e) && e.EvFork? && e.room && s.free != []
    ensures Safe(s, e) && s.free[0] < NR_TASKS && Step(s, e).cur == s.cur != s.free[0] && s.free[0] !in Step(s, e).free
    ensures Step(s, e).task[s.cur].ret == Step(s, e).task[s.free[0]].pid
  {
    hide Inv, Step;
    RunningIsNotFirst(s);
    AnswersAtOnce(s, e);
    UsedStaysUsed(s, e, s.free[0]);
  }

  lemma {:induction false} StillAChild(r: Readings, es: seq<Event>, ws: seq<World>, k: nat, j: nat, c: nat)
    requires IsRun(r, es, ws) && k < j <= |es| && c < NR_TASKS
    requires WhyAt(es, ws, k + 1, c) == AsChild
    requires forall m :: k < m <= j ==> ws[m].s.cur != c
    ensures WhyAt(es, ws, j, c) == AsChild
  {
    hide Inv, Enabled, Step;
    if j > k + 1 {
      StillAChild(r, es, ws, k, j - 1, c);
      KeptAlways(r, es, ws, j - 1, c);
      UsedIsNotFirst(ws[j - 1].s, c);
    }
  }

  /** fork answers twice. In every run: the caller of a fork that succeeds gets the child's PID at once, and the child
      gets 0 when it has the CPU for the first time. */
  lemma ForkAnswersTwice(r: Readings, es: seq<Event>, ws: seq<World>, k: nat, j: nat)
    requires IsRun(r, es, ws) && k < j < |es| && es[k].EvFork? && es[k].room && Shaped(ws[k]) && ws[k].s.free != []
    requires forall m :: k < m <= j ==> ws[m].s.cur != ws[k].s.free[0]
    requires ws[j + 1].s.cur == ws[k].s.free[0]
    ensures var c, p := ws[k].s.free[0], ws[k].s.cur;
            && Shaped(ws[k + 1]) && Shaped(ws[j + 1]) && p != c
            && ws[k + 1].s.cur == p && ws[k + 1].s.task[p].ret == ws[k + 1].s.task[c].pid
            && ws[j + 1].s.task[c].ret == 0
  {
    hide Inv, Enabled, Step;
    InvAlways(r, es, ws, k);
    InvAlways(r, es, ws, k + 1);
    assert HappensAt(es, ws, k);
    ChildIsNew(ws[k].s, es[k]);
    var c := ws[k].s.free[0];
    StillAChild(r, es, ws, k, j, c);
    ResumedAnswers(r, es, ws, j);
  }
}
