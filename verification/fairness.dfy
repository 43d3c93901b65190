/** How long a ready task waits, and what happens when nothing is ready. */
module Fairness {
  import opened Scheduling
  import opened SchedulingInvariant
  import opened SchedulingRuns

  // ---------------------------------------------------------------- bounded waiting

  function Quanta(task: seq<Task>, q: seq<nat>): int
    requires forall k :: 0 <= k < |q| ==> q[k] < |task|
  {
    if q == [] then 0 else task[q[0]].quantum + Quanta(task, q[1..])
  }

  /** What is left of the running task's quantum, and the quanta of the tasks ahead of position k. */
  function WaitingTime(s: Sched, k: nat): int
    requires WellFormed(s) && k <= |s.ready|
  {
    s.rq + Quanta(s.task, s.ready[..k])
  }

  function Ticks(es: seq<Event>): nat {
    if es == [] then 0 else Ticks(es[..|es| - 1]) + (if es[|es| - 1].EvClock? then 1 else 0)
  }

  lemma {:induction false} SameQuanta(a: seq<Task>, b: seq<Task>, q: seq<nat>)
    requires forall k :: 0 <= k < |q| ==> q[k] < |a| && q[k] < |b| && a[q[k]].quantum == b[q[k]].quantum
    ensures Quanta(a, q) == Quanta(b, q)
  {
    if q != [] {
      SameQuanta(a, b, q[1..]);
    }
  }

  lemma {:induction false} QuantaDefaults(task: seq<Task>, q: seq<nat>)
    requires forall k :: 0 <= k < |q| ==> q[k] < |task| && task[q[k]].quantum == DEFAULT_QUANTUM
    ensures Quanta(task, q) == DEFAULT_QUANTUM * |q|
  {
    if q != [] {
      QuantaDefaults(task, q[1..]);
    }
  }

  /** No event changes the quantum of a ready task. */
  lemma ReadyQuanta(s: Sched, e: Event, i: nat)
    requires Inv(s) && Enabled(s, e) && i in s.ready && i < NR_TASKS
    ensures Safe(s, e) && Step(s, e).task[i].quantum == s.task[i].quantum
  {
    hide OnePlace, WaitersAgree, SemaphoresAgree, HandedOver;
    EnabledIsSafe(s, e);
    QueuesDisjoint(s);
    if Switches(s, e) {
      hide Step;
      SwitchStep(s, e);
    }
  }

  lemma WaitSwitch(s: Sched, e: Event, k: nat)
    requires Inv(s) && Enabled(s, e) && Switches(s, e) && k < |s.ready|
    ensures Safe(s, e)
    ensures k == 0 ==> Step(s, e).cur == s.ready[k]
    ensures k > 0 ==> k <= |Step(s, e).ready| && Step(s, e).ready[k - 1] == s.ready[k]
                      && WaitingTime(Step(s, e), k - 1) == WaitingTime(s, k) - s.rq
  {
    hide OnePlace, WaitersAgree, SemaphoresAgree, HandedOver, Step;
    SwitchStep(s, e);
    var d, h := Step(s, e), AtSwitch(s, e);
    assert s.ready <= h.ready && h.ready[0] == s.ready[0] && d.ready == h.ready[1..];
    if k > 0 {
      var ahead := s.ready[..k];
      assert d.ready[..k - 1] == ahead[1..];
      forall j | 0 <= j < k ensures d.task[ahead[j]].quantum == s.task[ahead[j]].quantum {
        ReadyQuanta(s, e, s.ready[j]);
      }
      SameQuanta(s.task, d.task, ahead[1..]);
    }
  }

  lemma WaitNoSwitch(s: Sched, e: Event, k: nat)
    requires Inv(s) && Enabled(s, e) && !Switches(s, e) && k < |s.ready|
    ensures Safe(s, e)
    ensures k < |Step(s, e).ready| && Step(s, e).ready[k] == s.ready[k]
    ensures WaitingTime(Step(s, e), k) == WaitingTime(s, k) - (if e.EvClock? then 1 else 0)
  {
    hide OnePlace, WaitersAgree, SemaphoresAgree;
    EnabledIsSafe(s, e);
    var d := Step(s, e);
    assert s.ready <= d.ready && d.rq == s.rq - (if e.EvClock? then 1 else 0);
    assert d.ready[..k] == s.ready[..k];
    forall j | 0 <= j < k ensures d.task[s.ready[j]].quantum == s.task[s.ready[j]].quantum {
      ReadyQuanta(s, e, s.ready[j]);
    }
    SameQuanta(s.task, d.task, s.ready[..k]);
  }

  /** One event: the task gets the CPU, or its waiting time does not grow, and it shrinks by at least one if
      the event is a clock tick or gives the CPU to another task. */
  lemma WaitShrinks(s: Sched, e: Event, k: nat)
    requires Inv(s) && Enabled(s, e) && k < |s.ready|
    ensures Safe(s, e)
    ensures var d := Step(s, e);
            || d.cur == s.ready[k]
            || (exists j: nat :: j < |d.ready| && d.ready[j] == s.ready[k]
                                 && WaitingTime(d, j) <= WaitingTime(s, k)
                                                         - (if e.EvClock? || Switches(s, e) then 1 else 0))
  {
    hide OnePlace, WaitersAgree, SemaphoresAgree, HandedOver, Step, WaitingTime;
    if Switches(s, e) {
      WaitSwitch(s, e, k);
      assert k > 0 ==> WaitingTime(Step(s, e), k - 1) <= WaitingTime(s, k) - 1;
    } else {
      WaitNoSwitch(s, e, k);
    }
  }

  /** The worlds a..b of a run in which the task i never has the CPU. */
  ghost predicate NotRunning(ws: seq<World>, a: nat, b: nat, i: nat)
    requires a <= b < |ws|
  {
    forall m :: a <= m <= b ==> ws[m].s.cur != i
  }

  /** In every run: as long as a ready task does not get the CPU, it stays ready, and the clock ticks it has
      seen plus its waiting time do not exceed the waiting time it started with. */
  lemma {:induction false} WaitingRun(r: Readings, es: seq<Event>, ws: seq<World>, a: nat, b: nat, k: nat)
    returns (j: nat)
    requires IsRun(r, es, ws) && a <= b < |ws|
    requires Shaped(ws[a]) && k < |ws[a].s.ready| && NotRunning(ws, a, b, ws[a].s.ready[k])
    ensures Shaped(ws[b]) && j < |ws[b].s.ready| && ws[b].s.ready[j] == ws[a].s.ready[k]
    ensures Ticks(es[a..b]) + WaitingTime(ws[b].s, j) <= WaitingTime(ws[a].s, k)
  {
    hide Inv, Enabled, Step, WaitingTime;
    j := k;
    if a < b {
      var j0 := WaitingRun(r, es, ws, a, b - 1, k);
      InvAlways(r, es, ws, b - 1);
      InvAlways(r, es, ws, b);
      assert HappensAt(es, ws, b - 1);
      WaitShrinks(ws[b - 1].s, es[b - 1], j0);
      assert ws[b].s == Step(ws[b - 1].s, es[b - 1]);
      j :| j < |ws[b].s.ready| && ws[b].s.ready[j] == ws[b - 1].s.ready[j0]
           && WaitingTime(ws[b].s, j) <= WaitingTime(ws[b - 1].s, j0)
                                         - (if es[b - 1].EvClock? || Switches(ws[b - 1].s, es[b - 1]) then 1 else 0);
      assert es[a..b][..|es[a..b]| - 1] == es[a..b - 1];
    }
  }

  /** In every run, a task at position k of the readyqueue has the CPU before the run has seen 10 * (k + 1)
      more clock ticks, whatever the tasks do. */
  lemma ReadyTaskRuns(r: Readings, es: seq<Event>, ws: seq<World>, a: nat, b: nat, k: nat)
    requires IsRun(r, es, ws) && a <= b < |ws|
    requires Shaped(ws[a]) && k < |ws[a].s.ready|
    requires Ticks(es[a..b]) >= DEFAULT_QUANTUM * (k + 1)
    ensures exists m :: a <= m <= b && ws[m].s.cur == ws[a].s.ready[k]
  {
    InvAlways(r, es, ws, a);
    InvAlways(r, es, ws, b);
    if NotRunning(ws, a, b, ws[a].s.ready[k]) {
      var j := WaitingRun(r, es, ws, a, b, k);
      ReadyHasDefault(ws[a].s, k);
      ReadyHasDefault(ws[b].s, j);
      assert false;
    }
  }

  lemma ReadyHasDefault(s: Sched, k: nat)
    requires Inv(s) && k < |s.ready|
    ensures 1 <= s.rq && s.rq <= DEFAULT_QUANTUM && WaitingTime(s, k) == s.rq + DEFAULT_QUANTUM * k
  {
    QueuesDisjoint(s);
    QuantaDefaults(s.task, s.ready[..k]);
  }

  // ---------------------------------------------------------------- idling

  lemma {:induction false} SomeQueueHas(b: seq<seq<nat>>, i: nat) returns (n: nat)
    requires i in AllBlocked(b)
    ensures n < |b| && i in b[n]
  {
    if i in b[0] {
      n := 0;
    } else {
      n := SomeQueueHas(b[1..], i);
      n := n + 1;
    }
  }

  /** sched_next_rr picks the task that is giving up the CPU exactly when it yields and no other task is ready. */
  lemma SwitchesToItselfExactly(s: Sched, e: Event)
    requires Inv(s) && Enabled(s, e) && Switches(s, e)
    ensures |AtSwitch(s, e).task| == NR_TASKS
    ensures Pick(AtSwitch(s, e)) == s.cur <==> e.EvYield? && s.ready == []
  {
    hide SemaphoresAgree, WaitersAgree, CpuAgrees;
    QueuesDisjoint(s);
    assert s.ready != [] ==> s.ready[0] in s.ready;
  }

  /** Already the first yield of init after boot does so. */
  lemma YieldAloneAtBoot(r: Readings)
    ensures var s, e := BootSched(r), EvYield(r);
            && Inv(s) && Enabled(s, e) && Switches(s, e)
            && |AtSwitch(s, e).task| == NR_TASKS && Pick(AtSwitch(s, e)) == s.cur == INIT
  {
    hide BootTask;
    BootInv(r);
    SwitchesToItselfExactly(BootSched(r), EvYield(r));
  }

  /** When the idle task runs, every other task struct is free or waits on a semaphore. */
  lemma IdleMeansStuck(s: Sched, i: nat)
    requires Inv(s) && s.cur == IDLE && i < NR_TASKS && i != IDLE
    ensures s.ready == [] && (i in s.free || InBlocked(s, i))
  {
    assert Places(s)[i] == 1;
    if i !in s.free {
      assert i in AllBlocked(s.blocked);
      var n := SomeQueueHas(s.blocked, i);
    }
  }

  lemma IdleStep(s: Sched, e: Event)
    requires Inv(s) && Enabled(s, e) && s.cur == IDLE
    ensures Safe(s, e)
    ensures var d := Step(s, e);
            d.cur == IDLE && d.ready == [] && d.free == s.free && d.blocked == s.blocked && d.sem == s.sem
  {
    hide OnePlace, WaitersAgree, SemaphoresAgree;
  }

  /** Once the idle task runs, it runs forever, and nothing ever becomes ready. */
  lemma {:induction false} IdleForever(r: Readings, es: seq<Event>, ws: seq<World>, a: nat, b: nat)
    requires IsRun(r, es, ws) && a <= b < |ws| && ws[a].s.cur == IDLE
    ensures var s, d := ws[a].s, ws[b].s;
            d.cur == IDLE && d.ready == [] && d.free == s.free && d.blocked == s.blocked && d.sem == s.sem
  {
    hide Enabled, Step, OnePlace, WaitersAgree, SemaphoresAgree;
    InvAlways(r, es, ws, a);
    if a < b {
      IdleForever(r, es, ws, a, b - 1);
      InvAlways(r, es, ws, b - 1);
      assert HappensAt(es, ws, b - 1);
      IdleStep(ws[b - 1].s, es[b - 1]);
    }
  }
}
