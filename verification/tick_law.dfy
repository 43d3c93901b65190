/** Tick accounting over whole runs: every tick of a task's life is on exactly one of its accounts. */
module TickLaw {
  import opened Machine
  import opened Accounting
  import opened Scheduling
  import opened SchedulingInvariant
  import opened SchedulingRuns

  function OriginOf(s: Sched, i: nat): u32
    requires i < |s.task|
  {
    Origin(s.task[i].stats)
  }

  lemma ChargeCurrentOrigin(s: Sched, a: Account, now: u32, i: nat)
    requires s.cur < |s.task| && i < |s.task|
    ensures OriginOf(ChargeCurrent(s, a, now), i) == OriginOf(s, i)
  {
    ChargeKeepsOrigin(Current(s).stats, a, now);
  }

  lemma SwitchOrigin(s: Sched, r: Readings, i: nat)
    requires WellFormed(s) && i < NR_TASKS
    ensures OriginOf(SchedNext(s, r), i) == OriginOf(s, i)
  {
    hide Origin;
    var t := Pick(s);
    var a := s.task[t := s.task[t].(state := ST_RUN)];
    var b := a[s.cur := a[s.cur].(stats := Charge(a[s.cur].stats, SystemTicks, r.outgoing))];
    ChargeKeepsOrigin(a[s.cur].stats, SystemTicks, r.outgoing);
    ChargeKeepsOrigin(b[t].stats, ReadyTicks, r.incoming);
    TransIsNoAccount(Charge(b[t].stats, ReadyTicks, r.incoming));
    assert Origin(b[t].stats) == Origin(s.task[t].stats);
  }

  lemma TransIsNoAccount(st: Stats)
    ensures forall n: u32 :: Origin(st.(trans := n)) == Origin(st)
  {
  }

  lemma ResumeOrigin(s: Sched, now: u32, i: nat)
    requires WellFormed(s) && i < NR_TASKS
    ensures OriginOf(Resume(s, now), i) == OriginOf(s, i)
  {
    hide Origin;
    ChargeKeepsOrigin(Current(s).stats, SystemTicks, now);
  }

  lemma DispatchOrigin(s: Sched, r: Readings, i: nat)
    requires WellFormed(s) && i < NR_TASKS
    ensures OriginOf(Dispatch(s, r), i) == OriginOf(s, i)
  {
    hide SchedNext, Resume, Origin;
    SwitchOrigin(s, r, i);
    ResumeOrigin(SchedNext(s, r), r.leave, i);
  }

  lemma AtSwitchOrigin(s: Sched, e: Event, i: nat)
    requires Inv(s) && Enabled(s, e) && Switches(s, e) && i < NR_TASKS
    ensures WellFormed(AtSwitch(s, e)) && OriginOf(AtSwitch(s, e), i) == OriginOf(s, i)
  {
    hide OnePlace, WaitersAgree, SemaphoresAgree, CpuAgrees, Origin, Charge;
    SwitchStep(s, e);
    match e {
      case EvClock(r) =>
        var u := ChargeCurrent(s, UserTicks, r.entry);
        ChargeCurrentOrigin(s, UserTicks, r.entry, i);
        ChargeKeepsOrigin(Current(u).stats, SystemTicks, r.requeue);
      case EvYield(r) => ChargeKeepsOrigin(Current(s).stats, SystemTicks, r.requeue);
      case _ =>
    }
  }

  lemma SwitchEventOrigin(s: Sched, e: Event, i: nat)
    requires Inv(s) && Enabled(s, e) && Switches(s, e) && i < NR_TASKS
    ensures Safe(s, e) && OriginOf(Step(s, e), i) == OriginOf(s, i)
  {
    hide Inv, Enabled, AtSwitch, Dispatch, OriginOf, Step, HandedOver;
    SwitchStep(s, e);
    AtSwitchOrigin(s, e, i);
    DispatchOrigin(AtSwitch(s, e), e.r, i);
  }

  lemma InterruptOrigin(s: Sched, r: Readings, i: nat)
    requires WellFormed(s) && i < NR_TASKS
    ensures OriginOf(Keyboard(s, r), i) == OriginOf(s, i)
    ensures !Preempts(s) ==> OriginOf(Clock(s, r), i) == OriginOf(s, i)
  {
    hide Origin, Charge;
    var u := ChargeCurrent(s, UserTicks, r.entry);
    ChargeCurrentOrigin(s, UserTicks, r.entry, i);
    ChargeCurrentOrigin(u, SystemTicks, r.leave, i);
    var rq := if s.rq == 1 then Current(s).quantum else s.rq - 1;
    ChargeCurrentOrigin(u.(rq := rq), SystemTicks, r.leave, i);
  }

  /** A forked task's accounts start empty at the reading fork takes, a thread's accounts are its creator's;
      no other event moves the origin of a task that is in use. */
  lemma OriginStep(s: Sched, e: Event, i: nat)
    requires Inv(s) && Enabled(s, e) && i < NR_TASKS
    ensures Safe(s, e)
    ensures i !in Step(s, e).free ==>
              OriginOf(Step(s, e), i)
              == if e.EvFork? && e.room && s.free != [] && i == s.free[0] then e.r.entry
                 else if e.EvCreateThread? && s.free != [] && i == s.free[0] then OriginOf(s, s.cur)
                 else OriginOf(s, i)
  {
    hide OnePlace, WaitersAgree, SemaphoresAgree, CpuAgrees, Origin, Clock, Keyboard;
    EnabledIsSafe(s, e);
    if Switches(s, e) {
      SwitchEventOrigin(s, e, i);
    } else if IsInterrupt(e) {
      InterruptOrigin(s, e.r, i);
    } else if e.EvFork? {
      InitOrigin(e.r.entry, e.r.leave);
    }
  }

  ghost predicate TicksAccounted(w: World, i: nat)
    requires Shaped(w) && i < NR_TASKS
  {
    i !in w.s.free ==> OriginOf(w.s, i) == w.h.start[i]
  }

  lemma TickStep(w: World, e: Event, i: nat)
    requires Shaped(w) && Inv(w.s) && Enabled(w.s, e) && i < NR_TASKS
    requires TicksAccounted(w, i) && TicksAccounted(w, w.s.cur)
    ensures Safe(w.s, e) && TicksAccounted(Next(w, e), i)
  {
    hide Inv, OriginOf, HandedOver, Dispatched;
    OriginStep(w.s, e, i);
    NotFreed(w.s, e, i);
  }

  /** Whoever is not free after an event was not free before, except the task that the event creates. */
  lemma NotFreed(s: Sched, e: Event, i: nat)
    requires Inv(s) && Enabled(s, e) && i < NR_TASKS
    ensures Safe(s, e) && s.cur !in s.free
    ensures i !in Step(s, e).free && i in s.free ==> i == s.free[0] && ((e.EvFork? && e.room) || e.EvCreateThread?)
  {
    hide OnePlace, WaitersAgree, SemaphoresAgree, CpuAgrees, HandedOver;
    EnabledIsSafe(s, e);
    QueuesDisjoint(s);
    if s.free != [] {
      assert s.free == [s.free[0]] + s.free[1..];
    }
    if Switches(s, e) {
      hide Step;
      SwitchStep(s, e);
    }
  }

  /** In every state of every run, whatever the clock read: the user, system, ready and blocked ticks of a
      task in use sum up, modulo 2^32, to the ticks from its start to its last update. */
  lemma TicksAlwaysAccounted(r: Readings, es: seq<Event>, ws: seq<World>, k: nat, i: nat)
    requires IsRun(r, es, ws) && k < |ws| && i < NR_TASKS
    ensures Shaped(ws[k])
    ensures i !in ws[k].s.free ==>
              var st := ws[k].s.task[i].stats;
              (st.user + st.system + st.ready + st.blocked) % WORD == (st.elapsed - ws[k].h.start[i]) % WORD
  {
    hide Inv, Enabled, Next;
    InvAlways(r, es, ws, k);
    OriginsAlways(r, es, ws, k, i);
    OriginSums(ws[k].s.task[i].stats);
  }

  lemma OriginSums(st: Stats)
    ensures (st.user + st.system + st.ready + st.blocked) % WORD == (st.elapsed - Origin(st)) % WORD
  {
    var a := st.user + st.system + st.ready + st.blocked;
    var q := (st.elapsed - a) / WORD;
    assert st.elapsed - a == q * WORD + Origin(st);
    ModCongruent(a, st.elapsed - Origin(st), -q);
  }

  lemma {:induction false} OriginsAlways(r: Readings, es: seq<Event>, ws: seq<World>, k: nat, i: nat)
    requires IsRun(r, es, ws) && k < |ws| && i < NR_TASKS
    ensures Shaped(ws[k]) && TicksAccounted(ws[k], i)
  {
    hide Inv, Enabled, Next, OriginOf;
    InvAlways(r, es, ws, k);
    if k == 0 {
      BootOrigins(r, i);
    } else {
      InvAlways(r, es, ws, k - 1);
      OriginsAlways(r, es, ws, k - 1, i);
      OriginsAlways(r, es, ws, k - 1, ws[k - 1].s.cur);
      assert HappensAt(es, ws, k - 1);
      TickStep(ws[k - 1], es[k - 1], i);
    }
  }

  lemma BootOrigins(r: Readings, i: nat)
    requires i < NR_TASKS
    ensures Shaped(Boot(r)) && TicksAccounted(Boot(r), i)
  {
    InitOrigin(r.entry, r.requeue);
    InitOrigin(r.outgoing, r.incoming);
    if i >= 2 {
      assert BootSched(r).free[i - 2] == i;
    }
  }
}
