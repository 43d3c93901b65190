/** Which of its counters a tick of a task goes to, in every run: an observer who knows the events, the clock readings and
    who has the CPU keeps a diary for every task, and the counters are its sums. */
module TickAccounts {
  import opened Machine
  import opened Accounting
  import opened Scheduling
  import opened SchedulingInvariant
  import opened SchedulingRuns
  import opened SemaphoreAnswers
  import opened CallAnswers
  import opened TickLaw

  // ---------------------------------------------------------------- diaries

  datatype Mode = InUser | InKernel | OffCpu

  /** What a task did up to a reading of the clock. */
  datatype Span = Span(mode: Mode, till: u32)

  datatype Diary = Diary(start: u32, spans: seq<Span>)

  function Last(start: u32, q: seq<Span>): u32 {
    if q == [] then start else q[|q| - 1].till
  }

  /** The ticks of all spans in one mode. */
  function Sum(start: u32, q: seq<Span>, m: Mode): int {
    if q == [] then 0
    else
      var was, s := q[..|q| - 1], q[|q| - 1];
      Sum(start, was, m) + if s.mode == m then s.till - Last(start, was) else 0
  }

  function Number(q: seq<Span>, m: Mode): nat {
    if q == [] then 0 else Number(q[..|q| - 1], m) + if q[|q| - 1].mode == m then 1 else 0
  }

  /** Every counter is the sum of its own spans, modulo 2^32, and total_trans is the number of times that the task got
      the CPU. Nothing is ever charged to blocked_ticks: waiting for a semaphore counts as ready. */
  ghost predicate Tells(d: Diary, st: Stats) {
    && st.user == Sum(d.start, d.spans, InUser) % WORD
    && st.system == Sum(d.start, d.spans, InKernel) % WORD
    && st.ready == Sum(d.start, d.spans, OffCpu) % WORD
    && st.blocked == 0
    && st.elapsed == Last(d.start, d.spans)
    && st.trans == Number(d.spans, OffCpu) % WORD
  }

  function Arrived(st: Stats, now: u32): Stats {
    var a := Charge(st, ReadyTicks, now);
    a.(trans := Add32(a.trans, 1))
  }

  /** The update that the kernel makes at the end of a span. */
  function Charged(st: Stats, s: Span): Stats {
    match s.mode
    case InUser => Charge(st, UserTicks, s.till)
    case InKernel => Charge(st, SystemTicks, s.till)
    case OffCpu => Arrived(st, s.till)
  }

  function AllCharged(st: Stats, q: seq<Span>): Stats
    decreases |q|
  {
    if q == [] then st else AllCharged(Charged(st, q[0]), q[1..])
  }

  lemma AddSum(x: u32, sum: int, d: int)
    requires x == sum % WORD
    ensures Add32(x, d) == (sum + d) % WORD
  {
    var q := sum / WORD;
    assert sum == q * WORD + x;
    ModCongruent(sum + d, x + d, q);
  }

  lemma ChargedTells(d: Diary, st: Stats, s: Span)
    requires Tells(d, st)
    ensures Tells(d.(spans := d.spans + [s]), Charged(st, s))
  {
    hide Add32;
    var q := d.spans + [s];
    assert q[..|q| - 1] == d.spans;
    var t := s.till - st.elapsed;
    AddSum(st.user, Sum(d.start, d.spans, InUser), t);
    AddSum(st.system, Sum(d.start, d.spans, InKernel), t);
    AddSum(st.ready, Sum(d.start, d.spans, OffCpu), t);
    AddSum(st.trans, Number(d.spans, OffCpu), 1);
  }

  lemma {:induction false} AllChargedTells(d: Diary, st: Stats, q: seq<Span>)
    requires Tells(d, st)
    ensures Tells(d.(spans := d.spans + q), AllCharged(st, q))
    decreases |q|
  {
    hide Tells, Charged;
    if q == [] {
      assert d.spans + q == d.spans;
    } else {
      ChargedTells(d, st, q[0]);
      AllChargedTells(d.(spans := d.spans + [q[0]]), Charged(st, q[0]), q[1..]);
      assert d.spans + [q[0]] + q[1..] == d.spans + q;
    }
  }

  // ---------------------------------------------------------------- what the observer writes down

  predicate GivesUp(s: Sched, e: Event, d: Sched) {
    d.cur != s.cur || e.EvYield?
  }

  /** The running task. Only interrupts find it in user mode: a system call counts from its beginning, with the user time
      before it, as kernel time at the next reading. */
  function SpansOfRunning(s: Sched, e: Event, d: Sched): seq<Span> {
    match e
    case EvClock(r) =>
      if GivesUp(s, e, d) then [Span(InUser, r.entry), Span(InKernel, r.requeue), Span(InKernel, r.outgoing)]
      else [Span(InUser, r.entry), Span(InKernel, r.leave)]
    case EvKeyboard(r) => [Span(InUser, r.entry), Span(InKernel, r.leave)]
    case EvYield(r) => [Span(InKernel, r.requeue), Span(InKernel, r.outgoing)]
    case EvSemWait(_, r) => if GivesUp(s, e, d) then [Span(InKernel, r.outgoing)] else []
    case EvExit(r) => [Span(InKernel, r.outgoing)]
    case EvTerminate(r, err) => if GivesUp(s, e, d) then [Span(InKernel, r.outgoing)] else []
    case _ => []
  }

  /** The task that gets the CPU; one that the clock had stopped is in the kernel until the interrupt's end. */
  function SpansOfNext(e: Event, stopped: bool): seq<Span> {
    match e
    case EvClock(r) => [Span(OffCpu, r.incoming)] + if stopped then [Span(InKernel, r.leave)] else []
    case EvYield(r) => [Span(OffCpu, r.incoming)] + if stopped then [Span(InKernel, r.leave)] else []
    case EvSemWait(_, r) => [Span(OffCpu, r.incoming)] + if stopped then [Span(InKernel, r.leave)] else []
    case EvExit(r) => [Span(OffCpu, r.incoming)] + if stopped then [Span(InKernel, r.leave)] else []
    case EvTerminate(r, _) => [Span(OffCpu, r.incoming)] + if stopped then [Span(InKernel, r.leave)] else []
    case _ => []
  }

  function Spans(s: Sched, e: Event, d: Sched, i: nat): seq<Span>
    requires i < |s.task|
  {
    (if i == s.cur then SpansOfRunning(s, e, d) else [])
    + if i == d.cur && GivesUp(s, e, d) then SpansOfNext(e, i != s.cur && s.task[i].pc == InClock) else []
  }

  /** The diary of a process begins when fork makes it; a thread goes on with its creator's. */
  function DiaryNext(q: seq<Diary>, s: Sched, e: Event, d: Sched, i: nat): Diary
    requires WellFormed(s) && |q| == NR_TASKS && i < NR_TASKS
  {
    if e.EvFork? && e.room && s.free != [] && i == s.free[0] then Diary(e.r.entry, [])
    else if e.EvCreateThread? && s.free != [] && i == s.free[0] then q[s.cur]
    else Diary(q[i].start, q[i].spans + Spans(s, e, d, i))
  }

  function Diaries(es: seq<Event>, ws: seq<World>, k: nat, r: Readings): (q: seq<Diary>)
    requires |ws| == |es| + 1 && k <= |es|
    ensures |q| == NR_TASKS
  {
    if k == 0 then seq(NR_TASKS, i => Diary(if i == IDLE then r.entry else r.outgoing, []))
    else
      var was, s := Diaries(es, ws, k - 1, r), ws[k - 1].s;
      if !WellFormed(s) then was
      else seq(NR_TASKS, i requires 0 <= i < NR_TASKS => DiaryNext(was, s, es[k - 1], ws[k].s, i))
  }

  // ---------------------------------------------------------------- what the kernel charges

  /** The counters of a task that gets the CPU. */
  function Back(st: Stats, pc: Pc, r: Readings): Stats {
    var a := Arrived(st, r.incoming);
    if pc == InClock then Charge(a, SystemTicks, r.leave) else a
  }

  /** Those of the running task when sched_next_rr is called. */
  function BeforeSwitch(st: Stats, e: Event): Stats {
    match e
    case EvClock(r) => Charge(Charge(st, UserTicks, r.entry), SystemTicks, r.requeue)
    case EvYield(r) => Charge(st, SystemTicks, r.requeue)
    case _ => st
  }

  lemma DispatchStats(h: Sched, r: Readings, i: nat)
    requires WellFormed(h) && i < NR_TASKS
    ensures var t, st := Pick(h), h.task[i].stats;
            var out := if i == h.cur then Charge(st, SystemTicks, r.outgoing) else st;
            Dispatch(h, r).task[i].stats == if i == t then Back(out, h.task[i].pc, r) else out
  {
    hide Charge, Add32;
    var n := SchedNext(h, r);
    assert n.task[Pick(h)].pc == h.task[Pick(h)].pc;
  }

  lemma AtSwitchStats(s: Sched, e: Event, i: nat)
    requires Inv(s) && Enabled(s, e) && Switches(s, e) && i < NR_TASKS
    ensures WellFormed(AtSwitch(s, e)) && AtSwitch(s, e).cur == s.cur
    ensures var h, st := AtSwitch(s, e), s.task[i].stats;
            && (i != s.cur ==> h.task[i].stats == st && h.task[i].pc == s.task[i].pc)
            && (i == s.cur ==> h.task[i].stats == BeforeSwitch(st, e))
            && (e.EvYield? && i == s.cur ==> h.task[i].pc == InCall)
  {
    hide OnePlace, WaitersAgree, SemaphoresAgree, CpuAgrees, HandedOver, Dispatched, Step, Charge;
    SwitchStep(s, e);
  }

  /** The running task is picked again only if it yields. */
  lemma GivesUpIfSwitches(s: Sched, e: Event)
    requires Inv(s) && Enabled(s, e)
    ensures WellFormed(s) && Safe(s, e) && (GivesUp(s, e, Step(s, e)) <==> Switches(s, e))
    ensures Switches(s, e) ==> WellFormed(AtSwitch(s, e)) && Step(s, e).cur == Pick(AtSwitch(s, e))
  {
    hide Step, WaitersAgree, SemaphoresAgree, HandedOver;
    EnabledIsSafe(s, e);
    if Switches(s, e) {
      DispatchedTo(s, e);
      QueuesDisjoint(s);
      assert s.ready != [] ==> s.ready[0] in s.ready;
    } else {
      AnswersAtOnce(s, e);
    }
  }

  lemma {:induction false} ChargedInTurn(st: Stats, q: seq<Span>, p: seq<Span>)
    ensures AllCharged(st, q + p) == AllCharged(AllCharged(st, q), p)
    decreases |q|
  {
    if q == [] {
      assert q + p == p;
    } else {
      assert (q + p)[1..] == q[1..] + p;
      ChargedInTurn(Charged(st, q[0]), q[1..], p);
    }
  }

  lemma ChargedFew(st: Stats, a: Span, b: Span, c: Span)
    ensures AllCharged(st, [a]) == Charged(st, a)
    ensures AllCharged(st, [a, b]) == Charged(Charged(st, a), b)
    ensures AllCharged(st, [a, b, c]) == Charged(Charged(Charged(st, a), b), c)
  {
    hide Charged;
    ChargedFirst(st, a, []);
    ChargedFirst(st, a, [b]);
    ChargedFirst(Charged(st, a), b, []);
    ChargedFirst(st, a, [b, c]);
    ChargedFirst(Charged(st, a), b, [c]);
    ChargedFirst(Charged(Charged(st, a), b), c, []);
  }

  lemma ChargedFirst(st: Stats, a: Span, q: seq<Span>)
    ensures AllCharged(st, [a] + q) == AllCharged(Charged(st, a), q)
  {
    assert ([a] + q)[1..] == q;
  }

  lemma RunningCharges(s: Sched, e: Event, d: Sched, st: Stats)
    requires Switches(s, e) && GivesUp(s, e, d) && (e.EvExit? || e.EvTerminate? || e.EvSemWait? || e.EvClock? || e.EvYield?)
    ensures AllCharged(st, SpansOfRunning(s, e, d))
            == Charge(BeforeSwitch(st, e), SystemTicks, e.r.outgoing)
  {
    hide Charge, AllCharged;
    var q := SpansOfRunning(s, e, d);
    ChargedFew(st, q[0], if |q| > 1 then q[1] else q[0], if |q| > 2 then q[2] else q[0]);
  }

  lemma NextCharges(e: Event, stopped: bool, st: Stats)
    requires e.EvExit? || e.EvTerminate? || e.EvSemWait? || e.EvClock? || e.EvYield?
    ensures AllCharged(st, SpansOfNext(e, stopped)) == Back(st, if stopped then InClock else InCall, e.r)
  {
    hide Charge, AllCharged;
    var a, b := Span(OffCpu, e.r.incoming), Span(InKernel, e.r.leave);
    assert SpansOfNext(e, stopped) == if stopped then [a, b] else [a];
    ChargedFew(st, a, b, b);
  }

  lemma SwitchingEvents(s: Sched, e: Event)
    requires Switches(s, e)
    ensures e.EvExit? || e.EvTerminate? || e.EvSemWait? || e.EvClock? || e.EvYield?
  {
  }

  lemma SwitchCharges(s: Sched, e: Event, i: nat)
    requires Inv(s) && Enabled(s, e) && Switches(s, e) && i < NR_TASKS
    ensures Safe(s, e)
    ensures var d := Step(s, e); d.task[i].stats == AllCharged(s.task[i].stats, Spans(s, e, d, i))
  {
    hide Inv, Enabled, Step, AtSwitch, Dispatch, Charge, Add32, Pick, HandedOver, Dispatched, AllCharged, SpansOfRunning,
      SpansOfNext, Switches, GivesUp;
    SwitchStep(s, e);
    SwitchingEvents(s, e);
    GivesUpIfSwitches(s, e);
    AtSwitchStats(s, e, i);
    DispatchStats(AtSwitch(s, e), e.r, i);
    var d, st := Step(s, e), s.task[i].stats;
    var left := if i == s.cur then SpansOfRunning(s, e, d) else [];
    var stopped := i != s.cur && s.task[i].pc == InClock;
    var back := if i == d.cur then SpansOfNext(e, stopped) else [];
    ChargedInTurn(st, left, back);
    RunningCharges(s, e, d, st);
    NextCharges(e, stopped, AllCharged(st, left));
    ChargedNothing(st);
    ChargedNothing(AllCharged(st, left));
    PickedInCall(s, e);
  }

  lemma ChargedNothing(st: Stats)
    ensures AllCharged(st, []) == st
  {
  }

  /** Only a yield picks the task that gives up the CPU, and that task was not stopped by the clock. */
  lemma PickedInCall(s: Sched, e: Event)
    requires Inv(s) && Enabled(s, e) && Switches(s, e)
    ensures WellFormed(AtSwitch(s, e)) && AtSwitch(s, e).cur == s.cur && s.cur < |AtSwitch(s, e).task|
    ensures Pick(AtSwitch(s, e)) == s.cur ==> AtSwitch(s, e).task[s.cur].pc == InCall
  {
    hide SemaphoresAgree, WaitersAgree, HandedOver, Dispatched, Step;
    SwitchStep(s, e);
    QueuesDisjoint(s);
    assert s.ready != [] ==> s.ready[0] in s.ready;
  }

  lemma QuietCharges(s: Sched, e: Event, i: nat)
    requires Inv(s) && Enabled(s, e) && !Switches(s, e) && i < NR_TASKS && i !in s.free
    ensures Safe(s, e)
    ensures var d := Step(s, e); d.task[i].stats == AllCharged(s.task[i].stats, Spans(s, e, d, i))
  {
    hide OnePlace, WaitersAgree, SemaphoresAgree, CpuAgrees, Charge, AllCharged, AtSwitch, Switches;
    GivesUpIfSwitches(s, e);
    var d, st := Step(s, e), s.task[i].stats;
    ChargedNothing(st);
    if i == s.cur {
      QuietRunning(s, e);
    } else {
      hide Step;
      OthersKeepAnswers(s, e, i);
      AnswersAtOnce(s, e);
      assert Spans(s, e, d, i) == [];
    }
  }

  lemma RunningStats(s: Sched, e: Event)
    requires Inv(s) && Enabled(s, e) && !Switches(s, e)
    ensures Safe(s, e) && Step(s, e).cur == s.cur
    ensures Step(s, e).task[s.cur].stats
            == if IsInterrupt(e) then Charge(Charge(s.task[s.cur].stats, UserTicks, e.r.entry), SystemTicks, e.r.leave)
               else s.task[s.cur].stats
  {
    hide OnePlace, WaitersAgree, SemaphoresAgree, CpuAgrees, Charge;
    EnabledIsSafe(s, e);
    RunningIsNotFirst(s);
  }

  lemma QuietRunning(s: Sched, e: Event)
    requires Inv(s) && Enabled(s, e) && !Switches(s, e)
    ensures Safe(s, e) && Step(s, e).cur == s.cur
    ensures var d, i := Step(s, e), s.cur;
            d.task[i].stats == AllCharged(s.task[i].stats, Spans(s, e, d, i))
  {
    hide Inv, Charge, AllCharged, AtSwitch, Step;
    GivesUpIfSwitches(s, e);
    RunningStats(s, e);
    var st := s.task[s.cur].stats;
    if IsInterrupt(e) {
      var a, b := Span(InUser, e.r.entry), Span(InKernel, e.r.leave);
      ChargedFew(st, a, b, b);
      assert Spans(s, e, Step(s, e), s.cur) == [a, b];
    } else {
      ChargedNothing(st);
      assert Spans(s, e, Step(s, e), s.cur) == [];
    }
  }

  // ---------------------------------------------------------------- every run

  ghost predicate DiaryTells(s: Sched, q: seq<Diary>, i: nat)
    requires WellFormed(s) && |q| == NR_TASKS && i < NR_TASKS
  {
    i !in s.free ==> Tells(q[i], s.task[i].stats)
  }

  /** The counters of a task that an event creates. */
  lemma CreatedStats(s: Sched, e: Event)
    requires Inv(s) && Enabled(s, e) && s.free != []
    ensures Safe(s, e) && s.free[0] < NR_TASKS
    ensures e.EvFork? && e.room ==> Tells(Diary(e.r.entry, []), Step(s, e).task[s.free[0]].stats)
    ensures e.EvFork? && e.room ==> Step(s, e).task[s.free[0]].stats.remaining == e.r.leave
    ensures e.EvCreateThread? ==> Step(s, e).task[s.free[0]].stats == s.task[s.cur].stats
  {
    hide OnePlace, WaitersAgree, SemaphoresAgree, CpuAgrees;
    EnabledIsSafe(s, e);
    RunningIsNotFirst(s);
  }

  lemma DiaryStep(s: Sched, e: Event, q: seq<Diary>, i: nat)
    requires Inv(s) && Enabled(s, e) && |q| == NR_TASKS && i < NR_TASKS && DiaryTells(s, q, i) && DiaryTells(s, q, s.cur)
    ensures Safe(s, e)
    ensures i !in Step(s, e).free ==> Tells(DiaryNext(q, s, e, Step(s, e), i), Step(s, e).task[i].stats)
  {
    hide Inv, Enabled, Step, Tells, AllCharged, Spans, Switches;
    EnabledIsSafe(s, e);
    GivesUpIfSwitches(s, e);
    NotFreed(s, e, i);
    if s.free != [] {
      CreatedStats(s, e);
    }
    if i !in s.free {
      UsedIsNotFirst(s, i);
      AllChargedTells(q[i], s.task[i].stats, Spans(s, e, Step(s, e), i));
      if Switches(s, e) {
        SwitchCharges(s, e, i);
      } else {
        QuietCharges(s, e, i);
      }
    }
  }

  lemma BootTells(r: Readings, i: nat)
    requires i < NR_TASKS
    ensures WellFormed(BootSched(r))
    ensures i !in BootSched(r).free ==>
              Tells(Diary(if i == IDLE then r.entry else r.outgoing, []), BootSched(r).task[i].stats)
  {
    if i >= 2 {
      assert BootSched(r).free[i - 2] == i;
    }
  }

  /** In every state of every run, whatever the clock read: each counter of a task in use is the sum, modulo 2^32, of the
      spans that the task was in user mode, in the kernel, and off the CPU. */
  lemma {:induction false} TicksAttributed(r: Readings, es: seq<Event>, ws: seq<World>, k: nat, i: nat)
    requires IsRun(r, es, ws) && k < |ws| && i < NR_TASKS
    ensures Shaped(ws[k])
    ensures i !in ws[k].s.free ==> Tells(Diaries(es, ws, k, r)[i], ws[k].s.task[i].stats)
  {
    hide Inv, Enabled, Step, Tells, DiaryNext;
    InvAlways(r, es, ws, k);
    if k == 0 {
      BootTells(r, i);
    } else {
      var c := ws[k - 1].s.cur;
      InvAlways(r, es, ws, k - 1);
      TicksAttributed(r, es, ws, k - 1, i);
      TicksAttributed(r, es, ws, k - 1, c);
      assert HappensAt(es, ws, k - 1);
      DiaryStep(ws[k - 1].s, es[k - 1], Diaries(es, ws, k - 1, r), i);
    }
  }

  /** In particular, an interrupt adds the ticks since the last reading to user_ticks of the task that it finds running,
      and then the ticks of its handler to system_ticks. */
  lemma InterruptCharges(s: Sched, e: Event)
    requires Inv(s) && Enabled(s, e) && IsInterrupt(e) && !Switches(s, e)
    ensures Safe(s, e)
    ensures var a, b := Current(s).stats, Step(s, e).task[s.cur].stats;
            && b.user == (a.user + e.r.entry - a.elapsed) % WORD
            && b.system == (a.system + e.r.leave - e.r.entry) % WORD
            && b.ready == a.ready && b.blocked == a.blocked && b.trans == a.trans && b.elapsed == e.r.leave
  {
    hide OnePlace, WaitersAgree, SemaphoresAgree, CpuAgrees;
    EnabledIsSafe(s, e);
  }
}
