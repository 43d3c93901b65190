/** The task queues, the round-robin scheduler and the semaphores of sched.c and sys.c, as a transition
    system over values. Every trap runs with interrupts disabled, so one trap is one step. */
module Scheduling {
  import opened Machine
  import opened Accounting

  const NR_TASKS: nat := 10
  const MAX_SEM: nat := 8
  const IDLE: nat := 0
  const INIT: nat := 1
  const DEFAULT_QUANTUM: int := 10
  const ENOMEM: int := 12
  const EAGAIN: int := 11

  datatype TaskState = ST_RUN | ST_READY | ST_BLOCKED

  /** Where a task goes on when it gets the CPU: a stand-in for its saved kernel stack. */
  datatype Pc = OnCpu | InCall | InSemWait | InClock

  /** `struct task_struct` without its list node, plus the continuation and the value that its last
      system call left in the saved eax. `dir` is the index of its page directory. */
  datatype Task = Task(pid: int, tid: int, destroyed: int, dir: nat, state: TaskState, quantum: int,
                       stats: Stats, pc: Pc, ret: int)

  datatype Semaphore = Semaphore(isInit: bool, counter: int)

  /** The kernel's scheduling data. Queues hold slots of the task array. */
  datatype Sched = Sched(task: seq<Task>, free: seq<nat>, ready: seq<nat>,
                         sem: seq<Semaphore>, blocked: seq<seq<nat>>,
                         cur: nat, rq: int, lastPid: int, lastTid: int)

  /** The clock readings one trap may take, in the order it takes them. */
  datatype Readings = Readings(entry: u32, requeue: u32, outgoing: u32, incoming: u32, leave: u32)

  predicate InRange(q: seq<nat>) {
    forall k :: 0 <= k < |q| ==> q[k] < NR_TASKS
  }

  predicate WellFormed(s: Sched) {
    && |s.task| == NR_TASKS
    && |s.sem| == MAX_SEM && |s.blocked| == MAX_SEM
    && s.cur < NR_TASKS
    && InRange(s.free) && InRange(s.ready)
    && (forall n :: 0 <= n < MAX_SEM ==> InRange(s.blocked[n]))
  }

  // ---------------------------------------------------------------- steps of sched.c

  function Current(s: Sched): Task
    requires s.cur < |s.task|
  {
    s.task[s.cur]
  }

  function SetCurrent(s: Sched, t: Task): Sched
    requires s.cur < |s.task|
  {
    s.(task := s.task[s.cur := t])
  }

  function Return(s: Sched, value: int): Sched
    requires s.cur < |s.task|
  {
    SetCurrent(s, Current(s).(ret := value))
  }

  function ChargeCurrent(s: Sched, a: Account, now: u32): Sched
    requires s.cur < |s.task|
  {
    SetCurrent(s, Current(s).(stats := Charge(Current(s).stats, a, now)))
  }

  /** update_process_state_rr(current(), &readyqueue) for a task that is in state ST_RUN. */
  function Requeue(s: Sched, now: u32): Sched
    requires s.cur < |s.task|
  {
    var c := Current(s);
    SetCurrent(s, c.(stats := Charge(c.stats, SystemTicks, now), state := ST_READY))
    .(ready := s.ready + [s.cur])
  }

  /** The task sched_next_rr picks. */
  function Pick(s: Sched): nat {
    if s.ready != [] then s.ready[0] else IDLE
  }

  /** sched_next_rr up to and including the switch of stacks. */
  function SchedNext(s: Sched, r: Readings): (d: Sched)
    requires WellFormed(s)
    ensures WellFormed(d)
  {
    var t := Pick(s);
    var a := s.task[t := s.task[t].(state := ST_RUN)];
    var b := a[s.cur := a[s.cur].(stats := Charge(a[s.cur].stats, SystemTicks, r.outgoing))];
    var st := Charge(b[t].stats, ReadyTicks, r.incoming);
    s.(task := b[t := b[t].(stats := st.(trans := Add32(st.trans, 1)))],
       ready := if s.ready != [] then s.ready[1..] else [],
       rq := s.task[t].quantum,
       cur := t)
  }

  /** What the switched-in task does before it is back in user mode: the end of sem_wait, the end of the
      clock handler, or nothing but returning 0. */
  function Resume(s: Sched, now: u32): Sched
    requires s.cur < |s.task|
  {
    var c := Current(s);
    match c.pc
    case OnCpu => s
    case InCall => SetCurrent(s, c.(pc := OnCpu, ret := 0))
    case InClock => ChargeCurrent(SetCurrent(s, c.(pc := OnCpu)), SystemTicks, now)
    case InSemWait => EndOfWait(SetCurrent(s, c.(pc := OnCpu)))
  }

  /** The last test of sem_wait, made by the caller whether it blocked or not. */
  function EndOfWait(s: Sched): Sched
    requires s.cur < |s.task|
  {
    var c := Current(s);
    if c.destroyed == 1 then SetCurrent(s, c.(destroyed := 0, ret := -1)) else Return(s, 0)
  }

  function Dispatch(s: Sched, r: Readings): (d: Sched)
    requires WellFormed(s)
    ensures WellFormed(d)
  {
    Resume(SchedNext(s, r), r.leave)
  }

  function Suspend(s: Sched, pc: Pc): Sched
    requires s.cur < |s.task|
  {
    SetCurrent(s, Current(s).(pc := pc))
  }

  predicate Preempts(s: Sched) {
    s.rq == 1 && s.ready != []
  }

  /** The clock interrupt: user_to_system, schedule, and system_to_user by whoever leaves the kernel. */
  function Clock(s: Sched, r: Readings): (d: Sched)
    requires WellFormed(s)
    ensures WellFormed(d)
  {
    var u := ChargeCurrent(s, UserTicks, r.entry);
    if Preempts(s) then
      Dispatch(Suspend(Requeue(u.(rq := 0), r.requeue), InClock), r)
    else
      var rq := if s.rq == 1 then Current(s).quantum else s.rq - 1;
      ChargeCurrent(u.(rq := rq), SystemTicks, r.leave)
  }

  function Keyboard(s: Sched, r: Readings): (d: Sched)
    requires WellFormed(s)
    ensures WellFormed(d)
  {
    ChargeCurrent(ChargeCurrent(s, UserTicks, r.entry), SystemTicks, r.leave)
  }

  function Yield(s: Sched, r: Readings): (d: Sched)
    requires WellFormed(s)
    ensures WellFormed(d)
  {
    Dispatch(Suspend(Requeue(s, r.requeue), InCall), r)
  }

  // ---------------------------------------------------------------- task creation and end

  /** A new task struct is taken from the freequeue and put in the readyqueue. */
  function Spawn(s: Sched, child: Task, ret: int): (d: Sched)
    requires WellFormed(s) && s.free != []
    ensures WellFormed(d)
  {
    Return(s.(task := s.task[s.free[0] := child], free := s.free[1..], ready := s.ready + [s.free[0]]), ret)
  }

  /** What fork copies to the slot c. */
  function ForkCopy(s: Sched, c: nat): Task
    requires s.cur < |s.task|
  {
    Current(s).(dir := c, pc := InCall)
  }

  /** fork; `room` says whether 20 frames could be allocated for the child. */
  function Fork(s: Sched, r: Readings, room: bool): (d: Sched)
    requires WellFormed(s)
    ensures WellFormed(d)
  {
    if s.free == [] then Return(s, -ENOMEM)
    else
      var c := s.free[0];
      if room then
        var child := ForkCopy(s, c).(pid := s.lastPid + 1, state := ST_READY, stats := InitStats(r.entry, r.leave));
        Spawn(s, child, s.lastPid + 1).(lastPid := s.lastPid + 1)
      else
        Return(s.(task := s.task[c := ForkCopy(s, c)], free := s.free[1..] + [c]), -EAGAIN)
  }

  /** createthread, when the page for the user stack could be allocated. */
  function CreateThread(s: Sched): (d: Sched)
    requires WellFormed(s)
    ensures WellFormed(d)
  {
    if s.free == [] then Return(s, -ENOMEM)
    else
      var child := Current(s).(tid := s.lastTid + 1, state := ST_READY, pc := InCall);
      Spawn(s, child, 0).(lastTid := s.lastTid + 1)
  }

  /** The running task's struct goes to the freequeue. */
  function Release(s: Sched, pid: int): Sched
    requires s.cur < |s.task|
  {
    SetCurrent(s, Current(s).(pid := pid)).(free := s.free + [s.cur])
  }

  function Exit(s: Sched, r: Readings): (d: Sched)
    requires WellFormed(s)
    ensures WellFormed(d)
  {
    Dispatch(Release(s, -1), r)
  }

  /** terminatethread; `err` is the answer of dealloc_k for the page of the caller's user stack. */
  function Terminate(s: Sched, r: Readings, err: int): (d: Sched)
    requires WellFormed(s)
    ensures WellFormed(d)
  {
    if err < 0 then Return(s, err) else Dispatch(Release(s, Current(s).pid), r)
  }

  // ---------------------------------------------------------------- semaphores

  /** valid_sem(n, 0) == 0 */
  predicate ValidSem(s: Sched, n: int) {
    0 <= n < |s.sem| && s.sem[n].isInit
  }

  /** valid_sem(n, 1) == 0 */
  predicate NewSem(s: Sched, n: int) {
    0 <= n < |s.sem| && !s.sem[n].isInit
  }

  function SemInit(s: Sched, n: int, value: u32): (d: Sched)
    requires WellFormed(s)
    ensures WellFormed(d)
  {
    if !NewSem(s, n) then Return(s, -1)
    else Return(s.(sem := s.sem[n := Semaphore(true, ToInt(value))], blocked := s.blocked[n := []]), 0)
  }

  /** sem_wait of a task that has to wait, up to the call of sched_next_rr. */
  function Block(s: Sched, n: nat): Sched
    requires s.cur < |s.task| && n < |s.sem| && n < |s.blocked|
  {
    Suspend(s, InSemWait).(sem := s.sem[n := Semaphore(true, s.sem[n].counter - 1)],
                           blocked := s.blocked[n := s.blocked[n] + [s.cur]])
  }

  function SemWait(s: Sched, n: int, r: Readings): (d: Sched)
    requires WellFormed(s)
    ensures WellFormed(d)
  {
    if !ValidSem(s, n) then Return(s, -1)
    else if s.sem[n].counter - 1 < 0 then Dispatch(Block(s, n), r)
    else EndOfWait(s.(sem := s.sem[n := Semaphore(true, s.sem[n].counter - 1)]))
  }

  /** The first waiter goes to the end of the readyqueue. */
  function Wake(s: Sched, n: nat): Sched
    requires n < |s.sem| && n < |s.blocked| && s.blocked[n] != []
  {
    s.(sem := s.sem[n := Semaphore(true, Increment(s.sem[n].counter))],
       blocked := s.blocked[n := s.blocked[n][1..]], ready := s.ready + [s.blocked[n][0]])
  }

  /** sem_signal takes the first waiter of a semaphore whose new counter says that there is one. */
  predicate WakesSomeone(s: Sched, n: int) {
    ValidSem(s, n) && Increment(s.sem[n].counter) <= 0
  }

  function SemSignal(s: Sched, n: int): (d: Sched)
    requires WellFormed(s)
    requires WakesSomeone(s, n) ==> s.blocked[n] != []
    ensures WellFormed(d)
  {
    if !ValidSem(s, n) then Return(s, -1)
    else if WakesSomeone(s, n) then Return(Wake(s, n), 0)
    else Return(s.(sem := s.sem[n := Semaphore(true, Increment(s.sem[n].counter))]), 0)
  }

  function MarkDestroyed(task: seq<Task>, q: seq<nat>): (r: seq<Task>)
    ensures |r| == |task|
    ensures forall i :: 0 <= i < |task| ==> r[i] == if i in q then task[i].(destroyed := 1) else task[i]
  {
    seq(|task|, i requires 0 <= i < |task| => if i in q then task[i].(destroyed := 1) else task[i])
  }

  /** All waiters go to the end of the readyqueue, in order and marked. */
  function WakeAll(s: Sched, n: nat): Sched
    requires n < |s.sem| && n < |s.blocked|
  {
    s.(task := MarkDestroyed(s.task, s.blocked[n]), ready := s.ready + s.blocked[n],
       blocked := s.blocked[n := []], sem := s.sem[n := s.sem[n].(isInit := false)])
  }

  function SemDestroy(s: Sched, n: int): (d: Sched)
    requires WellFormed(s)
    ensures WellFormed(d)
  {
    if !ValidSem(s, n) then Return(s, -1) else Return(WakeAll(s, n), 0)
  }

  // ---------------------------------------------------------------- events

  datatype Event =
    | EvClock(r: Readings)
    | EvKeyboard(r: Readings)
    | EvYield(r: Readings)
    | EvFork(r: Readings, room: bool)
    | EvCreateThread
    | EvExit(r: Readings)
    | EvTerminate(r: Readings, err: int)
    | EvSemInit(n: int, value: u32)
    | EvSemWait(n: int, r: Readings)
    | EvSemSignal(n: int)
    | EvSemDestroy(n: int)

  predicate IsInterrupt(e: Event) {
    e.EvClock? || e.EvKeyboard?
  }

  /** The idle task makes no system calls; a semaphore's value fits in an int, both when it is set and when
      it is incremented. */
  predicate Enabled(s: Sched, e: Event) {
    && (s.cur == IDLE ==> IsInterrupt(e))
    && (e.EvSemInit? ==> e.value <= INT_MAX)
    && (e.EvSemSignal? && ValidSem(s, e.n) ==> s.sem[e.n].counter < INT_MAX)
  }

  /** The kernel takes no element from an empty list. */
  predicate Safe(s: Sched, e: Event)
    requires WellFormed(s)
  {
    e.EvSemSignal? && WakesSomeone(s, e.n) ==> s.blocked[e.n] != []
  }

  function Step(s: Sched, e: Event): (d: Sched)
    requires WellFormed(s) && Safe(s, e)
    ensures WellFormed(d)
  {
    match e
    case EvClock(r) => Clock(s, r)
    case EvKeyboard(r) => Keyboard(s, r)
    case EvYield(r) => Yield(s, r)
    case EvFork(r, room) => Fork(s, r, room)
    case EvCreateThread => CreateThread(s)
    case EvExit(r) => Exit(s, r)
    case EvTerminate(r, err) => Terminate(s, r, err)
    case EvSemInit(n, value) => SemInit(s, n, value)
    case EvSemWait(n, r) => SemWait(s, n, r)
    case EvSemSignal(n) => SemSignal(s, n)
    case EvSemDestroy(n) => SemDestroy(s, n)
  }
}
