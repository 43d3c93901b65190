/** Whole runs of the scheduler: every sequence of events from boot, with what an observer of the run has
    seen so far. */
module SchedulingRuns {
  import opened Machine
  import opened Accounting
  import opened Scheduling
  import opened SchedulingInvariant

  /** What an observer of one semaphore knows since its last initialisation: the value it was given, the
      number of signals, and the callers of sem_wait in order. */
  datatype SemLog = SemLog(value: nat, signals: nat, waits: seq<nat>)

  /** How a task that blocked in sem_wait has left the semaphore's queue. */
  datatype Departure = NotWaiting | Waiting | BySignal | ByDestroy

  datatype History = History(log: seq<SemLog>, left: seq<Departure>, start: seq<u32>)

  datatype World = World(s: Sched, h: History)

  // ---------------------------------------------------------------- boot

  const UNUSED: Task := Task(-1, 0, 0, 0, ST_RUN, 0, InitStats(0, 0), OnCpu, 0)

  function BootTask(i: nat, r: Readings): Task {
    if i == IDLE then UNUSED.(pid := 0, quantum := DEFAULT_QUANTUM, stats := InitStats(r.entry, r.requeue), pc := InCall)
    else if i == INIT then
      UNUSED.(pid := 1, quantum := DEFAULT_QUANTUM, stats := InitStats(r.outgoing, r.incoming), dir := INIT)
    else UNUSED
  }

  /** After init_freequeue, init_idle and init_task1. */
  function BootSched(r: Readings): Sched {
    Sched(seq(NR_TASKS, i requires 0 <= i < NR_TASKS => BootTask(i, r)), Slots(2, 8), [],
          seq(MAX_SEM, i => Semaphore(false, 0)), seq(MAX_SEM, i => []), INIT, DEFAULT_QUANTUM, 1000, 0)
  }

  /** The slots first, first + 1, ..., as init_freequeue puts them in the freequeue. */
  function Slots(first: nat, n: nat): (q: seq<nat>)
    ensures |q| == n && forall k :: 0 <= k < n ==> q[k] == first + k
  {
    seq(n, k requires 0 <= k < n => first + k)
  }

  function Boot(r: Readings): World {
    World(BootSched(r),
          History(seq(8, i => SemLog(0, 0, [])), seq(10, i => NotWaiting),
                  seq(10, i => BootTask(INIT, r).stats.elapsed)[IDLE := r.entry]))
  }

  // ---------------------------------------------------------------- runs

  ghost predicate InBlocked(s: Sched, i: nat) {
    exists n :: 0 <= n < |s.blocked| && i in s.blocked[n]
  }

  function Logged(log: seq<SemLog>, s: Sched, e: Event): (r: seq<SemLog>)
    requires |log| == |s.sem|
    ensures |r| == |log|
  {
    match e
    case EvSemInit(n, value) => if NewSem(s, n) then log[n := SemLog(value, 0, [])] else log
    case EvSemWait(n, r) =>
      if ValidSem(s, n) then log[n := log[n].(waits := log[n].waits + [s.cur])] else log
    case EvSemSignal(n) =>
      if ValidSem(s, n) then log[n := log[n].(signals := log[n].signals + 1)] else log
    case _ => log
  }

  ghost function Observed(was: Departure, s: Sched, e: Event, d: Sched, i: nat): Departure {
    if InBlocked(d, i) then Waiting
    else if InBlocked(s, i) then (if e.EvSemDestroy? then ByDestroy else BySignal)
    else if i == d.cur then NotWaiting
    else was
  }

  /** A forked task starts to be accounted for at the clock reading fork takes, a thread where its creator
      did. */
  function Started(start: seq<u32>, s: Sched, e: Event): (r: seq<u32>)
    requires WellFormed(s) && |start| == NR_TASKS
    ensures |r| == NR_TASKS
  {
    match e
    case EvFork(r, room) => if s.free != [] && room then start[s.free[0] := r.entry] else start
    case EvCreateThread => if s.free != [] then start[s.free[0] := start[s.cur]] else start
    case _ => start
  }

  ghost predicate Shaped(w: World) {
    WellFormed(w.s) && |w.h.log| == MAX_SEM && |w.h.left| == NR_TASKS && |w.h.start| == NR_TASKS
  }

  ghost function Next(w: World, e: Event): (d: World)
    requires Shaped(w) && Safe(w.s, e)
    ensures Shaped(d)
  {
    var d := Step(w.s, e);
    World(d, History(Logged(w.h.log, w.s, e),
                     seq(NR_TASKS, i requires 0 <= i < NR_TASKS => Observed(w.h.left[i], w.s, e, d, i)),
                     Started(w.h.start, w.s, e)))
  }

  ghost predicate Happens(w: World, e: Event, d: World) {
    Shaped(w) && Enabled(w.s, e) && Safe(w.s, e) && d == Next(w, e)
  }

  ghost predicate HappensAt(es: seq<Event>, ws: seq<World>, k: nat)
    requires k < |es| && |ws| == |es| + 1
  {
    Happens(ws[k], es[k], ws[k + 1])
  }

  /** A run: the worlds from boot through a sequence of enabled events. Runs also stop where the kernel would
      take an element from an empty list; NeverUnsafe says that no run gets there. */
  ghost predicate IsRun(r: Readings, es: seq<Event>, ws: seq<World>) {
    && |ws| == |es| + 1
    && ws[0] == Boot(r)
    && forall k :: 0 <= k < |es| ==> HappensAt(es, ws, k)
  }

  // ---------------------------------------------------------------- the invariant in every run

  lemma {:induction false} SlotsOnce(first: nat, n: nat, i: nat)
    ensures multiset(Slots(first, n))[i] == if first <= i < first + n then 1 else 0
    decreases n
  {
    if n > 0 {
      assert Slots(first, n) == [first] + Slots(first + 1, n - 1);
      SlotsOnce(first + 1, n - 1, i);
    }
  }

  lemma BootPlaces(r: Readings)
    ensures OnePlace(BootSched(r))
  {
    var s := BootSched(r);
    NoneBlocked(s.blocked);
    forall i: nat ensures Places(s)[i] == if i < NR_TASKS then 1 else 0 {
      SlotsOnce(2, 8, i);
    }
  }

  lemma BootInv(r: Readings)
    ensures Shaped(Boot(r)) && Inv(Boot(r).s)
  {
    var s := BootSched(r);
    BootPlaces(r);
    forall i | 2 <= i < NR_TASKS ensures i in s.free {
      assert s.free[i - 2] == i;
    }
  }

  lemma {:induction false} NoneBlocked(b: seq<seq<nat>>)
    requires forall n :: 0 <= n < |b| ==> b[n] == []
    ensures AllBlocked(b) == multiset{}
  {
    if b != [] {
      NoneBlocked(b[1..]);
    }
  }

  /** The task structs are where they should be, and everything else the invariant says, in every state of
      every run. */
  lemma {:induction false} InvAlways(r: Readings, es: seq<Event>, ws: seq<World>, k: nat)
    requires IsRun(r, es, ws) && k < |ws|
    ensures Shaped(ws[k]) && Inv(ws[k].s)
  {
    if k == 0 {
      BootInv(r);
    } else {
      InvAlways(r, es, ws, k - 1);
      assert HappensAt(es, ws, k - 1);
      StepInv(ws[k - 1].s, es[k - 1]);
    }
  }

  /** sem_signal never takes the first element of an empty list. */
  lemma NeverUnsafe(r: Readings, es: seq<Event>, ws: seq<World>, k: nat, e: Event)
    requires IsRun(r, es, ws) && k < |ws|
    ensures Shaped(ws[k]) && (Enabled(ws[k].s, e) ==> Safe(ws[k].s, e))
  {
    InvAlways(r, es, ws, k);
    if Enabled(ws[k].s, e) {
      EnabledIsSafe(ws[k].s, e);
    }
  }

  // ---------------------------------------------------------------- the semaphore law

  /** The semaphore n has let through, in the order in which they called sem_wait, as many callers as the
      initial value and the signals since then allow; the others wait in its queue, in that order. */
  ghost predicate SemaphoreLaw(w: World, n: nat)
    requires Shaped(w) && n < MAX_SEM
  {
    var l := w.h.log[n];
    w.s.sem[n].isInit ==>
      && w.s.sem[n].counter == l.value + l.signals - |l.waits|
      && w.s.blocked[n] == l.waits[Min(|l.waits|, l.value + l.signals)..]
  }

  /** Events on other semaphores, and all other events, leave a semaphore alone. */
  lemma OtherSemaphores(s: Sched, e: Event, n: nat)
    requires Inv(s) && Enabled(s, e) && n < MAX_SEM
    requires !((e.EvSemInit? || e.EvSemWait? || e.EvSemSignal? || e.EvSemDestroy?) && e.n == n)
    ensures Safe(s, e) && Step(s, e).sem[n] == s.sem[n] && Step(s, e).blocked[n] == s.blocked[n]
  {
    hide OnePlace, WaitersAgree, CpuAgrees, Dispatch, HandedOver;
    EnabledIsSafe(s, e);
    if Switches(s, e) {
      SwitchStep(s, e);
    }
  }

  lemma WaitStep(s: Sched, n: nat, r: Readings)
    requires Inv(s) && Enabled(s, EvSemWait(n, r)) && ValidSem(s, n)
    ensures var d := Step(s, EvSemWait(n, r));
            && d.sem[n] == Semaphore(true, s.sem[n].counter - 1)
            && d.blocked[n] == if s.sem[n].counter <= 0 then s.blocked[n] + [s.cur] else s.blocked[n]
  {
    hide OnePlace, WaitersAgree, CpuAgrees, Dispatch, HandedOver;
    var e := EvSemWait(n, r);
    EnabledIsSafe(s, e);
    if Switches(s, e) {
      SwitchStep(s, e);
    }
  }

  lemma SemaphoreStep(w: World, e: Event, n: nat)
    requires Shaped(w) && Inv(w.s) && Enabled(w.s, e) && n < MAX_SEM && SemaphoreLaw(w, n)
    ensures Safe(w.s, e) && SemaphoreLaw(Next(w, e), n)
  {
    hide OnePlace, WaitersAgree, CpuAgrees, Dispatch, HandedOver;
    EnabledIsSafe(w.s, e);
    if (e.EvSemInit? || e.EvSemWait? || e.EvSemSignal? || e.EvSemDestroy?) && e.n == n {
      if e.EvSemWait? && ValidSem(w.s, n) {
        WaitStep(w.s, n, e.r);
      }
    } else {
      OtherSemaphores(w.s, e, n);
    }
  }

  lemma BootLaw(r: Readings, n: nat)
    requires n < MAX_SEM
    ensures Shaped(Boot(r)) && SemaphoreLaw(Boot(r), n)
  {
  }

  /** In every state of every run, for every initialised semaphore. */
  lemma {:induction false} SemaphoreLawAlways(r: Readings, es: seq<Event>, ws: seq<World>, k: nat, n: nat)
    requires IsRun(r, es, ws) && k < |ws| && n < MAX_SEM
    ensures Shaped(ws[k]) && SemaphoreLaw(ws[k], n)
  {
    hide Inv, Enabled, Safe, Next, SemaphoreLaw, Boot;
    InvAlways(r, es, ws, k);
    if k == 0 {
      BootLaw(r, n);
    } else {
      SemaphoreLawAlways(r, es, ws, k - 1, n);
      InvAlways(r, es, ws, k - 1);
      assert HappensAt(es, ws, k - 1);
      SemaphoreStep(ws[k - 1], es[k - 1], n);
    }
  }

  // ---------------------------------------------------------------- counters

  function Deficits(sem: seq<Semaphore>): nat {
    if sem == [] then 0 else (if sem[0].isInit then Deficit(sem[0].counter) else 0) + Deficits(sem[1..])
  }

  lemma {:induction false} DeficitsAreWaiters(sem: seq<Semaphore>, b: seq<seq<nat>>)
    requires |sem| == |b|
    requires forall n :: 0 <= n < |sem| ==> |b[n]| == if sem[n].isInit then Deficit(sem[n].counter) else 0
    ensures Deficits(sem) == |AllBlocked(b)|
  {
    if sem != [] {
      DeficitsAreWaiters(sem[1..], b[1..]);
    }
  }

  lemma EachOnceSize(m: multiset<nat>)
    requires EachOnce(m)
    ensures |m| == NR_TASKS
  {
    forall i: nat ensures m[i] == multiset(Slots(0, NR_TASKS))[i] {
      SlotsOnce(0, NR_TASKS, i);
    }
    assert m == multiset(Slots(0, NR_TASKS));
  }

  /** All semaphores together keep at most NR_TASKS - 1 tasks waiting; no counter is further below zero. */
  lemma DeficitsAreBounded(s: Sched)
    requires Inv(s)
    ensures Deficits(s.sem) <= NR_TASKS - 1
  {
    DeficitsAreWaiters(s.sem, s.blocked);
    EachOnceSize(Places(s));
    assert |Places(s)| == |s.free| + |s.ready| + |AllBlocked(s.blocked)| + 1 + |Parked(s.cur)|;
  }

  /** The counter that would overflow is exactly the one with which sem_signal would take a waiter that is not
      there. */
  lemma SignalSafeExactly(s: Sched, n: int)
    requires Inv(s) && ValidSem(s, n)
    ensures Safe(s, EvSemSignal(n)) <==> s.sem[n].counter != INT_MAX
  {
    hide OnePlace, WaitersAgree, CpuAgrees;
    if s.sem[n].counter == INT_MAX {
      assert WakesSomeone(s, n) && |s.blocked[n]| == 0;
    }
  }

  /** A run comes to it: init initialises semaphore n with the largest int; then sem_signal would take a waiter
      from an empty queue. */
  lemma SignalCanOverflow(r: Readings, n: nat) returns (es: seq<Event>, ws: seq<World>)
    requires n < MAX_SEM
    ensures IsRun(r, es, ws) && |ws| == 2
    ensures Shaped(ws[1]) && ws[1].s.cur == INIT && ValidSem(ws[1].s, n)
    ensures !Safe(ws[1].s, EvSemSignal(n))
  {
    hide BootTask;
    var e, w := EvSemInit(n, INT_MAX), Boot(r);
    es, ws := [e], [w, Next(w, e)];
    assert Happens(w, e, Next(w, e));
    assert HappensAt(es, ws, 0);
  }

  /** sem_init keeps the invariant exactly for the values that an int can hold; a larger one is stored as a
      negative counter without waiters. */
  lemma InitExactly(s: Sched, n: int, value: u32)
    requires Inv(s) && NewSem(s, n)
    ensures Inv(SemInit(s, n, value)) <==> value <= INT_MAX
  {
    if value <= INT_MAX {
      SemInitInv(s, n, value);
    } else {
      var d := SemInit(s, n, value);
      assert d.sem[n] == Semaphore(true, value - WORD) && d.blocked[n] == [];
      assert !SemaphoresAgree(d);
    }
  }

  /** And after sem_init a sem_signal finds a waiter where it looks for one exactly for the values below the
      largest int: that one wraps around, and the larger ones are stored as negative counters without waiters. */
  lemma SafeAfterInitExactly(s: Sched, n: int, value: u32)
    requires Inv(s) && NewSem(s, n)
    ensures Safe(SemInit(s, n, value), EvSemSignal(n)) <==> value < INT_MAX
  {
    hide OnePlace, WaitersAgree, CpuAgrees;
    assert SemInit(s, n, value).blocked[n] == [];
  }
}
