/** The kernel with its data structures: the task array, the queues as intrusive lists, the semaphore table and
    the memory manager. Its methods do what sched.c and sys.c do, and are proved against KernelSpec. */
module KernelCode {
  import opened Machine
  import opened Accounting
  import opened Scheduling
  import opened SchedulingInvariant
  import opened Paging
  import opened PageCopies
  import opened MemoryManager
  import opened IntrusiveList
  import opened KernelSteps
  import KS = KernelSpec
  import SR = SchedulingRuns
  import PL = PagingLoops
  import KR = KernelRuns
  import Rings

  /** char_map of interrupt.c: the characters of the keys, 0 for keys without one. */
  const CHAR_MAP: string :=
    "\0\0" + "1234567890'" + "\0\0\0" + "qwertyuiop`+" + "\0\0" + "asdfghjkl" + "\0\0\0\0\0" + "zxcvbnm,.-" + "\0*"
    + "\0\0\0\0\0\0\0\0\0\0\0\0\0\0\0" + "789-456+1230" + "\0\0\0" + "<" + "\0\0\0\0\0\0\0\0\0\0\0"

  /** What char_map holds for a key; the code of a key behind its end reads the next byte of memory. */
  function KeyChar(key: nat, behind: char): char {
    if key < |CHAR_MAP| then CHAR_MAP[key] else behind
  }

  /** char_map, key by key. */
  lemma DigitKeys()
    ensures |CHAR_MAP| == 98
    ensures CHAR_MAP[0] == '\0' && CHAR_MAP[1] == '\0' && CHAR_MAP[2] == '1' && CHAR_MAP[3] == '2'
    ensures CHAR_MAP[4] == '3' && CHAR_MAP[5] == '4' && CHAR_MAP[6] == '5' && CHAR_MAP[7] == '6' && CHAR_MAP[8] == '7'
    ensures CHAR_MAP[9] == '8' && CHAR_MAP[10] == '9' && CHAR_MAP[11] == '0' && CHAR_MAP[12] == '\''
    ensures CHAR_MAP[13] == '\0'
  {
  }

  lemma UpperKeys()
    ensures |CHAR_MAP| == 98
    ensures CHAR_MAP[14] == '\0' && CHAR_MAP[15] == '\0' && CHAR_MAP[16] == 'q' && CHAR_MAP[17] == 'w'
    ensures CHAR_MAP[18] == 'e' && CHAR_MAP[19] == 'r' && CHAR_MAP[20] == 't' && CHAR_MAP[21] == 'y'
    ensures CHAR_MAP[22] == 'u' && CHAR_MAP[23] == 'i' && CHAR_MAP[24] == 'o' && CHAR_MAP[25] == 'p'
    ensures CHAR_MAP[26] == '`' && CHAR_MAP[27] == '+'
  {
  }

  lemma MiddleKeys()
    ensures |CHAR_MAP| == 98
    ensures CHAR_MAP[28] == '\0' && CHAR_MAP[29] == '\0' && CHAR_MAP[30] == 'a' && CHAR_MAP[31] == 's'
    ensures CHAR_MAP[32] == 'd' && CHAR_MAP[33] == 'f' && CHAR_MAP[34] == 'g' && CHAR_MAP[35] == 'h'
    ensures CHAR_MAP[36] == 'j' && CHAR_MAP[37] == 'k' && CHAR_MAP[38] == 'l' && CHAR_MAP[39] == '\0'
    ensures CHAR_MAP[40] == '\0' && CHAR_MAP[41] == '\0'
  {
  }

  lemma LowerKeys()
    ensures |CHAR_MAP| == 98
    ensures CHAR_MAP[42] == '\0' && CHAR_MAP[43] == '\0' && CHAR_MAP[44] == 'z' && CHAR_MAP[45] == 'x'
    ensures CHAR_MAP[46] == 'c' && CHAR_MAP[47] == 'v' && CHAR_MAP[48] == 'b' && CHAR_MAP[49] == 'n'
    ensures CHAR_MAP[50] == 'm' && CHAR_MAP[51] == ',' && CHAR_MAP[52] == '.' && CHAR_MAP[53] == '-'
    ensures CHAR_MAP[54] == '\0' && CHAR_MAP[55] == '*'
  {
  }

  lemma BareKeys()
    ensures |CHAR_MAP| == 98
    ensures CHAR_MAP[56] == '\0' && CHAR_MAP[57] == '\0' && CHAR_MAP[58] == '\0' && CHAR_MAP[59] == '\0'
    ensures CHAR_MAP[60] == '\0' && CHAR_MAP[61] == '\0' && CHAR_MAP[62] == '\0' && CHAR_MAP[63] == '\0'
    ensures CHAR_MAP[64] == '\0' && CHAR_MAP[65] == '\0' && CHAR_MAP[66] == '\0' && CHAR_MAP[67] == '\0'
    ensures CHAR_MAP[68] == '\0' && CHAR_MAP[69] == '\0' && CHAR_MAP[70] == '\0'
  {
  }

  lemma PadKeys()
    ensures |CHAR_MAP| == 98
    ensures CHAR_MAP[71] == '7' && CHAR_MAP[72] == '8' && CHAR_MAP[73] == '9' && CHAR_MAP[74] == '-'
    ensures CHAR_MAP[75] == '4' && CHAR_MAP[76] == '5' && CHAR_MAP[77] == '6' && CHAR_MAP[78] == '+'
    ensures CHAR_MAP[79] == '1' && CHAR_MAP[80] == '2' && CHAR_MAP[81] == '3' && CHAR_MAP[82] == '0'
    ensures CHAR_MAP[83] == '\0'
  {
  }

  lemma LastKeys()
    ensures |CHAR_MAP| == 98
    ensures CHAR_MAP[84] == '\0' && CHAR_MAP[85] == '\0' && CHAR_MAP[86] == '<' && CHAR_MAP[87] == '\0'
    ensures CHAR_MAP[88] == '\0' && CHAR_MAP[89] == '\0' && CHAR_MAP[90] == '\0' && CHAR_MAP[91] == '\0'
    ensures CHAR_MAP[92] == '\0' && CHAR_MAP[93] == '\0' && CHAR_MAP[94] == '\0' && CHAR_MAP[95] == '\0'
    ensures CHAR_MAP[96] == '\0' && CHAR_MAP[97] == '\0'
  {
  }

  /** The slots of the task structs that contain the nodes. */
  ghost function SlotsOf(s: seq<ListHead>): (q: seq<nat>)
    ensures |q| == |s| && forall k :: 0 <= k < |s| ==> q[k] == s[k].slot
  {
    seq(|s|, k requires 0 <= k < |s| => s[k].slot)
  }

  ghost function Queue(pool: Pool, h: ListHead): seq<nat> {
    if h in pool then SlotsOf(pool[h]) else []
  }

  ghost function Queues(pool: Pool, hs: seq<ListHead>): (b: seq<seq<nat>>)
    ensures |b| == |hs| && forall n :: 0 <= n < |hs| ==> b[n] == Queue(pool, hs[n])
  {
    seq(|hs|, n requires 0 <= n < |hs| => Queue(pool, hs[n]))
  }

  class System {
    const task: array<Task>
    const node: seq<ListHead>        // the `list` field of each task struct
    const freequeue: ListHead
    const readyqueue: ListHead
    const sem: array<Semaphore>
    const waiting: seq<ListHead>     // the `blocked` field of each semaphore
    const mem: Memory
    var cur: nat
    var rq: int
    var lastPid: int
    var lastTid: int
    ghost var pool: Pool

    ghost function Heads(): set<ListHead> {
      {freequeue, readyqueue} + set h | h in waiting
    }

    ghost function ListNodes(): set<ListHead> {
      Heads() + set n | n in node
    }

    ghost function Repr(): set<object> {
      {this, task, sem, mem, mem.phys, mem.table, mem.ram} + ListNodes()
    }

    /** The queues have heads of their own, and every task struct has its own node. */
    ghost predicate Layout() {
      && task.Length == NR_TASKS && |node| == NR_TASKS
      && sem.Length == MAX_SEM && |waiting| == MAX_SEM
      && (forall i :: 0 <= i < NR_TASKS ==> node[i].slot == i)
      && (forall n :: n in node ==> n !in Heads())
      && freequeue != readyqueue && freequeue !in waiting && readyqueue !in waiting
      && (forall i, j :: 0 <= i < j < MAX_SEM ==> waiting[i] != waiting[j])
    }

    /** Only queues head lists, only task structs are in them. */
    ghost predicate Placed(pool: Pool) {
      && pool.Keys <= Heads()
      && (forall h, n :: h in pool && n in pool[h] ==> n in node)
    }

    ghost predicate ListsOk()
      reads `pool, ListNodes(), pool.Keys, Members(pool)
    {
      Layout() && PoolShape(pool) && Placed(pool)
    }

    /** The data structures are in order. */
    ghost predicate Valid()
      reads `pool, ListNodes(), pool.Keys, Members(pool), task, sem, mem
    {
      && ListsOk()
      && freequeue in pool && readyqueue in pool
      && (forall n :: 0 <= n < MAX_SEM && sem[n].isInit ==> waiting[n] in pool)
      && (forall i :: 0 <= i < NR_TASKS ==> task[i].dir < NR_TABLES)
      && mem.Valid()
    }

    /** The queue with head h, as slots; empty for a semaphore that has never been initialised. */
    ghost function Q(h: ListHead): seq<nat>
      reads `pool
    {
      Queue(pool, h)
    }

    ghost function Blocked(): (b: seq<seq<nat>>)
      requires Layout()
      reads `pool
      ensures |b| == MAX_SEM && forall n :: 0 <= n < MAX_SEM ==> b[n] == Q(waiting[n])
    {
      Queues(pool, waiting)
    }

    ghost function SchedView(): (s: Sched)
      requires Layout()
      reads this, task, sem
      ensures |s.task| == NR_TASKS && |s.sem| == MAX_SEM && |s.blocked| == MAX_SEM
    {
      Sched(task[..], Q(freequeue), Q(readyqueue), sem[..], Blocked(), cur, rq, lastPid, lastTid)
    }

    /** The state that the specification talks about. */
    ghost function View(): (k: KS.Kernel)
      requires Valid()
      reads this, task, sem, mem, mem.phys, mem.table, ListNodes(), pool.Keys, Members(pool)
    {
      KS.Kernel(SchedView(), mem.View())
    }

    // ---------------------------------------------------------------- boot

    /** The data of the kernel before main runs: zeroed task structs and semaphores, and list heads that head
        no list yet. The memory manager has been through init_mm. */
    constructor (mem: Memory, ghost guards: set<nat>)
      requires mem.Valid() && mem.View() == PL.InitMm(guards)
      ensures Layout() && pool == map[] && this.mem == mem && mem.Valid() && mem.View() == old(mem.View())
      ensures fresh(task) && fresh(sem) && fresh(ListNodes())
      ensures task[..] == Numbered(0)
      ensures forall n :: 0 <= n < MAX_SEM ==> sem[n] == Semaphore(false, 0)
      ensures cur == IDLE && rq == 0 && lastPid == 1000 && lastTid == 0
    {
      task := new Task[NR_TASKS](_ => SR.UNUSED.(pid := 0));
      sem := new Semaphore[MAX_SEM](_ => Semaphore(false, 0));
      var nodes := NewNodes(NR_TASKS);
      node := nodes;
      freequeue := new ListHead(0);
      readyqueue := new ListHead(0);
      var heads := NewNodes(MAX_SEM);
      waiting := heads;
      this.mem := mem;
      cur, rq, lastPid, lastTid := IDLE, 0, 1000, 0;
      pool := map[];
    }

    static method NewNodes(n: nat) returns (ns: seq<ListHead>)
      ensures |ns| == n && fresh(set x | x in ns)
      ensures forall i :: 0 <= i < n ==> ns[i].slot == i
    {
      ns := [];
      while |ns| < n
        invariant |ns| <= n && fresh(set x | x in ns)
        invariant forall i :: 0 <= i < |ns| ==> ns[i].slot == i
      {
        var x := new ListHead(|ns|);
        ns := ns + [x];
      }
    }

    // ---------------------------------------------------------------- queue operations

    lemma NodesOfSlots(h: ListHead, k: nat)
      requires ListsOk() && h in pool && k < |pool[h]|
      ensures pool[h][k] in node && Q(h)[k] < NR_TASKS && pool[h][k] == node[Q(h)[k]]
    {
      assert pool[h][k] in pool[h] && pool[h][k] in Members(pool);
    }

    /** A slot in no queue has a node in no list. */
    lemma LooseNode(i: nat)
      requires ListsOk() && i < NR_TASKS && forall h :: h in pool ==> i !in Q(h)
      ensures Loose(pool, node[i])
    {
      assert node[i] in node;
      forall h | h in pool ensures node[i] !in pool[h] {
        forall k | 0 <= k < |pool[h]| ensures pool[h][k] != node[i] {
          assert Q(h)[k] == pool[h][k].slot;
        }
      }
    }

    lemma EndsAreOurs(h: ListHead)
      requires ListsOk() && h in pool
      ensures h in ListNodes() && {h.prev, h.next} <= ListNodes()
    {
      assert Ring(h, pool[h]);
      if pool[h] != [] {
        assert h.next in pool[h] && h.prev in pool[h];
      }
    }

    lemma FirstIsOurs(h: ListHead)
      requires ListsOk() && h in pool && pool[h] != []
      ensures var e := pool[h][0]; e in ListNodes() && {e.prev, e.next} <= ListNodes()
    {
      assert Ring(h, pool[h]);
      assert pool[h][0] in pool[h];
      assert |pool[h]| > 1 ==> pool[h][1] in pool[h];
    }

    lemma PlacedAppended(h: ListHead, i: nat)
      requires ListsOk() && h in pool && i < NR_TASKS
      ensures Placed(pool[h := pool[h] + [node[i]]])
      ensures Queue(pool[h := pool[h] + [node[i]]], h) == Q(h) + [i]
    {
      assert SlotsOf(pool[h] + [node[i]]) == Q(h) + [i];
    }

    /** list_add_tail(&task[i].list, h) */
    method Enqueue(i: nat, h: ListHead)
      requires ListsOk() && i < NR_TASKS && h in pool && Loose(pool, node[i])
      modifies ListNodes(), `pool
      ensures ListsOk() && pool == old(pool)[h := old(pool)[h] + [node[i]]]
      ensures Q(h) == old(Q(h)) + [i]
    {
      EndsAreOurs(h);
      PlacedAppended(h, i);
      assert node[i] in node;
      hide PoolShape, Placed, Queue, Loose;
      ListAddTail(node[i], h, pool);
      pool := pool[h := pool[h] + [node[i]]];
    }

    /** list_del(list_first(h)) */
    method DeleteFirst(e: ListHead, h: ListHead)
      requires ListsOk() && h in pool && pool[h] != [] && e == pool[h][0]
      modifies ListNodes(), `pool
      ensures ListsOk() && pool == old(pool)[h := old(pool)[h][1..]]
      ensures Loose(pool, e) && e.next == null && e.prev == null
    {
      FirstIsOurs(h);
      ghost var after := pool[h := pool[h][1..]];
      assert Without(pool[h], 0) == pool[h][1..];
      PlacedTail(h);
      hide Ring, Separate, Members;
      ListDel(e, h, 0, pool);
      pool := after;
    }

    lemma FrontSlot(h: ListHead)
      requires ListsOk() && h in pool && Q(h) != []
      ensures pool[h] != [] && pool[h][0].slot < NR_TASKS && pool[h][0] == node[pool[h][0].slot]
      ensures Q(h) == [pool[h][0].slot] + Queue(pool[h := pool[h][1..]], h)
      ensures Q(h)[1..] == Queue(pool[h := pool[h][1..]], h)
    {
      hide PoolShape;
      NodesOfSlots(h, 0);
      assert Q(h)[1..] == Queue(pool[h := pool[h][1..]], h);
    }

    method Front(h: ListHead) returns (e: ListHead)
      requires ListsOk() && h in pool && pool[h] != []
      ensures ListsOk() && e == pool[h][0]
    {
      e := ListFirst(h, pool);
    }

    /** e = list_first(h); list_del(e); list_head_to_task_struct(e) */
    method Dequeue(h: ListHead) returns (i: nat)
      requires ListsOk() && h in pool && Q(h) != []
      modifies ListNodes(), `pool
      ensures ListsOk() && i < NR_TASKS && pool == old(pool)[h := old(pool)[h][1..]]
      ensures Loose(pool, node[i]) && node[i].next == null && node[i].prev == null
      ensures old(Q(h)) == [i] + Q(h) && Q(h) == old(Q(h))[1..]
    {
      hide Queue, ListsOk, Loose;
      FrontSlot(h);
      var e := Front(h);
      DeleteFirst(e, h);
      i := e.slot;
    }

    lemma PlacedTail(h: ListHead)
      requires ListsOk() && h in pool && pool[h] != []
      ensures Placed(pool[h := pool[h][1..]])
    {
    }

    /** k is the state but for the queues, which are those of `pool`. */
    ghost predicate Around(pool: Pool, k: KS.Kernel)
      reads `cur, `rq, `lastPid, `lastTid, task, sem, mem, mem.phys, mem.table
    {
      && Layout()
      && freequeue in pool && readyqueue in pool
      && (forall n :: 0 <= n < MAX_SEM && sem[n].isInit ==> waiting[n] in pool)
      && (forall i :: 0 <= i < NR_TASKS ==> task[i].dir < NR_TABLES)
      && mem.Valid() && k.m == mem.View()
      && k.s == Sched(task[..], Queue(pool, freequeue), Queue(pool, readyqueue), sem[..], Queues(pool, waiting), cur, rq,
                      lastPid, lastTid)
    }

    /** Before one queue changes. */
    lemma QueuesNow()
      requires Valid()
      ensures ListsOk() && Around(pool, View()) && freequeue in pool && readyqueue in pool
      ensures Q(freequeue) == View().s.free && Q(readyqueue) == View().s.ready
      ensures |waiting| == MAX_SEM == |View().s.sem| == |View().s.blocked|
      ensures forall n :: 0 <= n < MAX_SEM ==> Q(waiting[n]) == View().s.blocked[n]
      ensures forall n :: 0 <= n < MAX_SEM && (View().s.sem[n].isInit || View().s.blocked[n] != []) ==> waiting[n] in pool
    {
    }

    /** After the queue of h has changed. */
    lemma QueueChanged(before: Pool, k: KS.Kernel, h: ListHead)
      requires ListsOk() && Around(before, k) && h in pool && pool == before[h := pool[h]] && |k.s.blocked| == MAX_SEM
      ensures Valid()
      ensures h == freequeue ==> View() == k.(s := k.s.(free := Q(h)))
      ensures h == readyqueue ==> View() == k.(s := k.s.(ready := Q(h)))
      ensures forall n :: 0 <= n < MAX_SEM && h == waiting[n] ==> View() == k.(s := k.s.(blocked := k.s.blocked[n := Q(h)]))
    {
      hide PoolShape, Placed;
      if h !in waiting {
        assert Blocked() == k.s.blocked;
      }
      forall n | 0 <= n < MAX_SEM && h == waiting[n]
        ensures View() == k.(s := k.s.(blocked := k.s.blocked[n := Q(h)]))
      {
        WaitersChanged(before, k.s.blocked, n);
      }
    }

    lemma WaitersChanged(before: Pool, was: seq<seq<nat>>, n: nat)
      requires Layout() && n < MAX_SEM && waiting[n] in pool && pool == before[waiting[n] := pool[waiting[n]]]
      requires was == Queues(before, waiting)
      ensures Blocked() == was[n := Q(waiting[n])]
    {
      forall m | 0 <= m < MAX_SEM ensures Blocked()[m] == was[n := Q(waiting[n])][m] {
        assert m != n ==> waiting[m] != waiting[n];
      }
    }

    method AddToReady(i: nat)
      requires Valid() && i < NR_TASKS && Loose(pool, node[i])
      modifies ListNodes(), `pool
      ensures Valid() && pool.Keys == old(pool.Keys)
      ensures View() == old(View()).(s := old(View()).s.(ready := old(View()).s.ready + [i]))
    {
      hide Valid, View, ListsOk, Around, Q, Loose;
      ghost var before, k := pool, View();
      QueuesNow();
      Enqueue(i, readyqueue);
      QueueChanged(before, k, readyqueue);
    }

    method AddToFree(i: nat)
      requires Valid() && i < NR_TASKS && Loose(pool, node[i])
      modifies ListNodes(), `pool
      ensures Valid() && pool.Keys == old(pool.Keys)
      ensures View() == old(View()).(s := old(View()).s.(free := old(View()).s.free + [i]))
    {
      hide Valid, View, ListsOk, Around, Q, Loose;
      ghost var before, k := pool, View();
      QueuesNow();
      Enqueue(i, freequeue);
      QueueChanged(before, k, freequeue);
    }

    method AddToBlocked(i: nat, n: nat)
      requires Valid() && i < NR_TASKS && Loose(pool, node[i]) && n < MAX_SEM && View().s.sem[n].isInit
      modifies ListNodes(), `pool
      ensures Valid() && pool.Keys == old(pool.Keys)
      ensures var s := old(View()).s;
              View() == old(View()).(s := s.(blocked := s.blocked[n := s.blocked[n] + [i]]))
    {
      hide Valid, View, ListsOk, Around, Q, Loose;
      ghost var before, k := pool, View();
      QueuesNow();
      Enqueue(i, waiting[n]);
      QueueChanged(before, k, waiting[n]);
    }

    method TakeReady() returns (i: nat)
      requires Valid() && View().s.ready != []
      modifies ListNodes(), `pool
      ensures Valid() && pool.Keys == old(pool.Keys) && i < NR_TASKS && Loose(pool, node[i])
      ensures i == old(View()).s.ready[0]
      ensures View() == old(View()).(s := old(View()).s.(ready := old(View()).s.ready[1..]))
    {
      hide Valid, View, ListsOk, Around, Q, Loose;
      ghost var before, k := pool, View();
      QueuesNow();
      i := Dequeue(readyqueue);
      QueueChanged(before, k, readyqueue);
    }

    method TakeFree() returns (i: nat)
      requires Valid() && View().s.free != []
      modifies ListNodes(), `pool
      ensures Valid() && pool.Keys == old(pool.Keys) && i < NR_TASKS && Loose(pool, node[i])
      ensures i == old(View()).s.free[0]
      ensures View() == old(View()).(s := old(View()).s.(free := old(View()).s.free[1..]))
    {
      hide Valid, View, ListsOk, Around, Q, Loose;
      ghost var before, k := pool, View();
      QueuesNow();
      i := Dequeue(freequeue);
      QueueChanged(before, k, freequeue);
    }

    method TakeBlocked(n: nat) returns (i: nat)
      requires Valid() && n < MAX_SEM && View().s.blocked[n] != []
      modifies ListNodes(), `pool
      ensures Valid() && pool.Keys == old(pool.Keys) && i < NR_TASKS && Loose(pool, node[i])
      ensures i == old(View()).s.blocked[n][0]
      ensures var s := old(View()).s;
              View() == old(View()).(s := s.(blocked := s.blocked[n := s.blocked[n][1..]]))
    {
      hide Valid, View, ListsOk, Around, Q, Loose;
      ghost var before, k := pool, View();
      QueuesNow();
      i := Dequeue(waiting[n]);
      QueueChanged(before, k, waiting[n]);
    }

    // ---------------------------------------------------------------- sched.c

    method ReadyIsEmpty() returns (b: bool)
      requires Valid()
      ensures Valid() && (b <==> View().s.ready == []) && View() == old(View())
    {
      b := ListEmpty(readyqueue, pool);
      assert |Q(readyqueue)| == |pool[readyqueue]|;
    }

    method FreeIsEmpty() returns (b: bool)
      requires Valid()
      ensures Valid() && (b <==> View().s.free == []) && View() == old(View())
    {
      b := ListEmpty(freequeue, pool);
      assert |Q(freequeue)| == |pool[freequeue]|;
    }

    method BlockedIsEmpty(n: nat) returns (b: bool)
      requires Valid() && n < MAX_SEM && View().s.sem[n].isInit
      ensures Valid() && (b <==> View().s.blocked[n] == []) && View() == old(View())
    {
      b := ListEmpty(waiting[n], pool);
      assert |Q(waiting[n])| == |pool[waiting[n]]|;
    }

    /** current() */
    method CurrentSlot() returns (c: nat)
      requires Valid()
      ensures Valid() && View() == old(View()) && c == View().s.cur
    {
      c := cur;
    }

    method TaskAt(i: nat) returns (t: Task)
      requires Valid() && i < NR_TASKS
      ensures Valid() && View() == old(View()) && t == View().s.task[i] && t.dir < NR_TABLES
    {
      t := task[i];
    }

    method Quantum() returns (q: int)
      requires Valid()
      ensures Valid() && View() == old(View()) && q == View().s.rq
    {
      q := rq;
    }

    /** A write of the task array. */
    method SetTask(i: nat, t: Task)
      requires Valid() && i < NR_TASKS && t.dir < NR_TABLES
      modifies task
      ensures Valid() && View() == old(View()).(s := old(View()).s.(task := old(View()).s.task[i := t]))
    {
      task[i] := t;
    }

    /** A write of remaining_quantum. */
    method SetQuantum(q: int)
      requires Valid()
      modifies `rq
      ensures Valid() && View() == old(View()).(s := old(View()).s.(rq := q))
    {
      rq := q;
    }

    /** The part of task_switch that the scheduler sees: another current task, in its own address space. */
    method TaskSwitch(t: nat)
      requires Valid() && t < NR_TASKS
      modifies `cur, mem
      ensures Valid() && View() == KS.Kernel(old(View()).s.(cur := t), SetCr3(old(View()).m, old(View()).s.task[t].dir))
    {
      mem.SetCr3(task[t].dir);
      cur := t;
    }

    /** update_stats on an account of task i. */
    method UpdateStats(i: nat, a: Account, now: u32)
      requires Valid() && i < NR_TASKS
      modifies task
      ensures Valid()
      ensures View() == old(View()).(s := ChargeAt(old(View()).s, i, a, now))
    {
      SetTask(i, task[i].(stats := Charge(task[i].stats, a, now)));
    }

    /** sched_next_rr. */
    method SchedNextRR(r: Readings)
      requires Valid() && WellFormed(View().s)
      modifies Repr()
      ensures Valid()
      ensures var k := old(View()); View() == KS.Kernel(SchedNext(k.s, r), SetCr3(k.m, k.s.task[Pick(k.s)].dir))
    {
      hide Valid, View, SchedNext, ChargeAt;
      ghost var s0 := View().s;
      var c := CurrentSlot();
      var t;
      var empty := ReadyIsEmpty();
      if !empty {
        t := TakeReady();
      } else {
        t := IDLE;
      }
      ghost var s1 := View().s;
      var u := TaskAt(t);
      SetTask(t, u.(state := ST_RUN));
      SetQuantum(u.quantum);
      ghost var s2 := View().s;
      UpdateStats(c, SystemTicks, r.outgoing);
      ghost var s3 := View().s;
      UpdateStats(t, ReadyTicks, r.incoming);
      ghost var s4 := View().s;
      u := TaskAt(t);
      SetTask(t, u.(stats := u.stats.(trans := Add32(u.stats.trans, 1))));
      SchedNextInSteps(s0, s1, s2, s3, s4, View().s, r);
      TaskSwitch(t);
    }

    /** The rest of the trap handler of the task that got the CPU. */
    method FinishTrap(now: u32)
      requires Valid() && View().s.cur < NR_TASKS
      modifies task
      ensures Valid() && View() == old(View()).(s := Resume(old(View()).s, now))
    {
      hide Valid, View, Charge;
      var c := CurrentSlot();
      var u := TaskAt(c);
      match u.pc {
        case OnCpu =>
        case InCall => SetTask(c, u.(pc := OnCpu, ret := 0));
        case InClock =>
          SetTask(c, u.(pc := OnCpu));
          UpdateStats(c, SystemTicks, now);
        case InSemWait =>
          SetTask(c, u.(pc := OnCpu));
          FinishWait();
      }
    }

    /** The last test of sem_wait. */
    method FinishWait()
      requires Valid() && View().s.cur < NR_TASKS
      modifies task
      ensures Valid() && View() == old(View()).(s := EndOfWait(old(View()).s))
    {
      hide Valid, View;
      var c := CurrentSlot();
      var u := TaskAt(c);
      if u.destroyed == 1 {
        SetTask(c, u.(destroyed := 0, ret := -1));
      } else {
        SetTask(c, u.(ret := 0));
      }
    }

    // ---------------------------------------------------------------- interrupts and yield

    /** The running task's node is in no list. */
    lemma CurrentIsLoose()
      requires ListsOk() && SchedulingInvariant.Inv(SchedView())
      ensures Loose(pool, node[cur])
    {
      hide PoolShape, OnePlace, SemaphoresAgree, WaitersAgree, CpuAgrees;
      QueuesDisjoint(SchedView());
      forall h | h in pool ensures cur !in Q(h) {
        if h in waiting {
          var n :| 0 <= n < MAX_SEM && waiting[n] == h;
          assert Blocked()[n] == Q(h);
        }
      }
      LooseNode(cur);
    }

    /** What a trap may rely on. */
    lemma AtTrap(t: KS.Trap)
      requires Valid() && KS.Ready(View(), t)
      ensures DirsOk(View()) && cur == View().s.cur < NR_TASKS && Loose(pool, node[cur])
      ensures Current(View().s).state == ST_RUN
    {
      CurrentIsLoose();
    }

    /** update_process_state_rr(current(), &readyqueue) */
    method RequeueCurrent(now: u32)
      requires Valid() && View().s.cur < NR_TASKS && Loose(pool, node[cur])
      requires Current(View().s).state == ST_RUN
      modifies Repr()
      ensures Valid() && View() == old(View()).(s := Requeue(old(View()).s, now))
    {
      assert cur == View().s.cur;
      hide Valid, View, ChargeAt, Requeue;
      ghost var s0 := View().s;
      var c := CurrentSlot();
      var u := TaskAt(c);
      if u.state != ST_RUN {
        assert false; // list_del of a node that is in no list
      }
      AddToReady(c);
      ghost var s1 := View().s;
      UpdateStats(c, SystemTicks, now);
      RequeueInSteps(s0, s1, View().s, now);
      u := TaskAt(c);
      SetTask(c, u.(state := ST_READY));
    }

    /** sched_next_rr, and what the task that gets the CPU does before it is back in user mode. */
    method Switch(r: Readings)
      requires Valid() && DirsOk(View())
      modifies Repr()
      ensures Valid() && View() == Switched(old(View()), r)
    {
      hide Valid, View, Resume, SchedNext;
      SchedNextRR(r);
      FinishTrap(r.leave);
    }

    /** The running task goes to the end of the readyqueue, to go on at pc. */
    method GiveUp(r: Readings, pc: Pc)
      requires Valid() && DirsOk(View()) && Loose(pool, node[cur]) && Current(View().s).state == ST_RUN
      modifies Repr()
      ensures Valid() && View() == Switched(GivenUp(old(View()), r.requeue, pc), r)
    {
      assert cur == View().s.cur;
      hide Valid, View, Requeue, Switched;
      ghost var k := View();
      var c := CurrentSlot();
      RequeueCurrent(r.requeue);
      RequeueKeeps(k.s, r.requeue);
      var u := TaskAt(c);
      SetTask(c, u.(pc := pc));
      assert View() == GivenUp(k, r.requeue, pc);
      Switch(r);
    }

    lemma RequeueKeeps(s: Sched, now: u32)
      requires s.cur < |s.task|
      ensures Requeue(s, now).cur == s.cur && |Requeue(s, now).task| == |s.task|
    {
    }

    // ---------------------------------------------------------------- the traps

    /** The clock interrupt. */
    method ClockInterrupt(r: Readings)
      requires Valid() && KS.Ready(View(), KS.Simple(EvClock(r)))
      modifies Repr()
      ensures Valid() && View() == KS.Next(old(View()), KS.Simple(EvClock(r)))
    {
      hide Valid, View, KS.Ready, KS.Next, Switched, GivenUp, WellFormed, DirsOk, Loose;
      ghost var k := View();
      AtTrap(KS.Simple(EvClock(r)));
      var c := CurrentSlot();
      UpdateStats(c, UserTicks, r.entry);
      var q := Quantum();
      SetQuantum(q - 1);
      TickInSteps(k, View(), r);
      var empty := ReadyIsEmpty();
      if q - 1 == 0 && !empty {
        GiveUp(r, InClock);
      } else {
        if q - 1 == 0 {
          var u := TaskAt(c);
          SetQuantum(u.quantum);
        }
        UpdateStats(c, SystemTicks, r.leave);
      }
    }

    /** write_to_buffer: the keyboard buffer is apart from everything else. */
    method PutKey(x: char, keys: Rings.Ring<char>)
      requires Valid() && keys.Valid() && keys !in Repr() && keys.buff !in Repr()
      modifies keys, keys.buff
      ensures Valid() && View() == old(View()) && pool == old(pool)
      ensures keys.Valid() && keys.Contents() == Rings.Pushed(old(keys.Contents()), keys.buff.Length, x)
    {
      hide Queue, Rings.Pushed;
      keys.Push(x);
    }

    /** The keyboard interrupt, for the byte `code` of the keyboard; `behind` is what lies behind char_map where the
        code points. */
    method KeyboardInterrupt(r: Readings, code: nat, behind: char, keys: Rings.Ring<char>)
      requires Valid() && KS.Ready(View(), KS.Simple(EvKeyboard(r)))
      requires code < 256 && keys.Valid() && keys !in Repr() && keys.buff !in Repr()
      modifies Repr(), keys, keys.buff
      ensures Valid() && View() == KS.Next(old(View()), KS.Simple(EvKeyboard(r)))
      ensures keys.Valid()
      ensures keys.Contents()
              == if code >= 128 then Rings.Pushed(old(keys.Contents()), keys.buff.Length, KeyChar(code - 128, behind))
                 else old(keys.Contents())
    {
      hide Valid, View, KS.Ready, KS.Next, Charge, DirsOk, KeyChar;
      KeyboardInSteps(View(), r);
      AtTrap(KS.Simple(EvKeyboard(r)));
      var c := CurrentSlot();
      UpdateStats(c, UserTicks, r.entry);
      if code >= 128 {
        PutKey(KeyChar(code - 128, behind), keys);
      }
      UpdateStats(c, SystemTicks, r.leave);
    }

    /** sys_yield: force_task_switch. */
    method Yield(r: Readings)
      requires Valid() && KS.Ready(View(), KS.Simple(EvYield(r)))
      modifies Repr()
      ensures Valid() && View() == KS.Next(old(View()), KS.Simple(EvYield(r)))
    {
      hide Valid, View, KS.Ready, KS.Next, DirsOk, GivenUp, Switched, Loose;
      YieldInSteps(View(), r);
      AtTrap(KS.Simple(EvYield(r)));
      GiveUp(r, InCall);
    }

    /** Leaves the system call of the running task with an answer. */
    method Answer(value: int)
      requires Valid() && View().s.cur < NR_TASKS
      modifies task
      ensures Valid() && View() == old(View()).(s := Return(old(View()).s, value))
    {
      hide Valid, View;
      var c := CurrentSlot();
      var u := TaskAt(c);
      SetTask(c, u.(ret := value));
    }

    // ---------------------------------------------------------------- semaphores

    /** valid_sem */
    method ValidSemaphore(n: int, isNew: bool) returns (ok: bool)
      requires Valid()
      ensures Valid() && View() == old(View())
      ensures ok == if isNew then NewSem(View().s, n) else ValidSem(View().s, n)
    {
      if n >= MAX_SEM || n < 0 {
        return false;
      }
      if isNew {
        if sem[n].isInit {
          return false;
        }
      } else {
        if !sem[n].isInit {
          return false;
        }
      }
      return true;
    }

    method Counter(n: nat) returns (c: int)
      requires Valid() && n < MAX_SEM
      ensures Valid() && View() == old(View()) && c == View().s.sem[n].counter
    {
      c := sem[n].counter;
    }

    method SetSemaphore(n: nat, x: Semaphore)
      requires Valid() && n < MAX_SEM && (x.isInit ==> View().s.sem[n].isInit)
      modifies sem
      ensures Valid() && View() == old(View()).(s := old(View()).s.(sem := old(View()).s.sem[n := x]))
    {
      sem[n] := x;
    }

    method InitBlocked(n: nat, value: u32)
      requires Valid() && n < MAX_SEM
      modifies ListNodes(), sem, `pool
      ensures Valid()
      ensures var s := old(View()).s;
              View() == old(View()).(s := s.(sem := s.sem[n := Semaphore(true, ToInt(value))],
                                             blocked := s.blocked[n := []]))
    {
      ghost var s0 := View().s;
      assert WellSized(s0);
      hide Valid, View;
      SetCounter(n, ToInt(value));
      ghost var s1 := View().s;
      MakeWaitingList(n);
      ghost var s2 := View().s;
      MarkInitialised(n);
      InitSemInSteps(s0, s1, s2, View().s, n, ToInt(value));
    }

    method SetCounter(n: nat, c: int)
      requires Valid() && n < MAX_SEM
      modifies sem
      ensures Valid()
      ensures var s := old(View()).s; View() == old(View()).(s := s.(sem := s.sem[n := s.sem[n].(counter := c)]))
    {
      sem[n] := sem[n].(counter := c);
    }

    method MarkInitialised(n: nat)
      requires Valid() && n < MAX_SEM && waiting[n] in pool
      modifies sem
      ensures Valid()
      ensures var s := old(View()).s; View() == old(View()).(s := s.(sem := s.sem[n := s.sem[n].(isInit := true)]))
    {
      sem[n] := sem[n].(isInit := true);
    }

    /** INIT_LIST_HEAD(h) for the head of a queue. */
    method MakeQueue(h: ListHead)
      requires ListsOk() && h in Heads()
      modifies ListNodes(), `pool
      ensures ListsOk() && pool == old(pool)[h := []] && Q(h) == []
    {
      HeadsAreNoMembers(h);
      assert Placed(pool[h := []]);
      hide PoolShape, Members, Separate, Placed;
      InitListHead(h, pool);
      pool := pool[h := []];
    }

    method MakeWaitingList(n: nat)
      requires Valid() && n < MAX_SEM
      modifies ListNodes(), `pool
      ensures Valid() && waiting[n] in pool
      ensures View() == old(View()).(s := old(View()).s.(blocked := old(View()).s.blocked[n := []]))
    {
      ghost var before, k := pool, View();
      QueuesNow();
      assert waiting[n] in Heads();
      hide Valid, View, ListsOk, Around, Q;
      MakeQueue(waiting[n]);
      QueueChanged(before, k, waiting[n]);
    }

    lemma HeadsAreNoMembers(h: ListHead)
      requires ListsOk() && h in Heads()
      ensures h !in Members(pool)
    {
    }

    /** sys_sem_init, for any value: one that is larger than an int is stored as a negative counter. */
    method SemInit(n: int, value: u32)
      requires Valid() && WellFormed(View().s)
      modifies Repr()
      ensures Valid() && View() == old(View()).(s := Scheduling.SemInit(old(View()).s, n, value))
      ensures KS.Ready(old(View()), KS.Simple(EvSemInit(n, value))) ==>
                View() == KS.Next(old(View()), KS.Simple(EvSemInit(n, value)))
    {
      hide Valid, View, KS.Ready, KS.Next;
      ghost var k := View();
      if KS.Ready(k, KS.Simple(EvSemInit(n, value))) {
        InitIsNext(k, n, value);
      }
      var ok := ValidSemaphore(n, true);
      if !ok {
        Answer(-1);
      } else {
        InitBlocked(n, value);
        Answer(0);
      }
    }

    /** The running task joins the queue of semaphore n. */
    method JoinQueue(n: nat)
      requires Valid() && WellFormed(View().s) && n < MAX_SEM && View().s.sem[n].isInit && Loose(pool, node[cur])
      modifies ListNodes(), `pool, task
      ensures Valid()
      ensures var s := old(View()).s;
              View() == old(View()).(s := Suspend(s, InSemWait).(blocked := s.blocked[n := s.blocked[n] + [s.cur]]))
    {
      assert cur == View().s.cur;
      hide Valid, View;
      var c := CurrentSlot();
      var u := TaskAt(c);
      SetTask(c, u.(pc := InSemWait));
      AddToBlocked(c, n);
    }

    /** The decrement of sem_wait, and the queueing of the caller if it has to wait. */
    method TakePermit(n: nat) returns (blocks: bool)
      requires Valid() && WellFormed(View().s) && ValidSem(View().s, n) && Loose(pool, node[cur])
      modifies ListNodes(), `pool, task, sem
      ensures Valid() && blocks == (old(View()).s.sem[n].counter - 1 < 0)
      ensures var s := old(View()).s;
              View() == old(View()).(s := if blocks then Block(s, n)
                                          else s.(sem := s.sem[n := Semaphore(true, s.sem[n].counter - 1)]))
    {
      ghost var s0 := View().s;
      hide Valid, View, Block, Loose;
      var counter := Counter(n);
      SetSemaphore(n, Semaphore(true, counter - 1));
      if counter - 1 < 0 {
        ghost var s1 := View().s;
        JoinQueue(n);
        BlockInSteps(s0, s1, View().s, n);
      }
      return counter - 1 < 0;
    }

    /** sys_sem_wait, and what follows it when the caller has to wait. */
    method SemWait(n: int, r: Readings)
      requires Valid() && KS.Ready(View(), KS.Simple(EvSemWait(n, r)))
      modifies Repr()
      ensures Valid() && View() == KS.Next(old(View()), KS.Simple(EvSemWait(n, r)))
    {
      hide Valid, View, KS.Ready, KS.Next, Switched, Block, DirsOk, WellFormed, Loose;
      WaitInSteps(View(), n, r);
      AtTrap(KS.Simple(EvSemWait(n, r)));
      var ok := ValidSemaphore(n, false);
      if !ok {
        Answer(-1);
      } else {
        var blocks := TakePermit(n);
        if blocks {
          Switch(r);
        } else {
          FinishWait();
        }
      }
    }

    /** sys_sem_signal, whenever there is a waiter if it takes one. */
    method SemSignal(n: int)
      requires Valid() && WellFormed(View().s) && Safe(View().s, EvSemSignal(n))
      modifies Repr()
      ensures Valid() && View() == old(View()).(s := Scheduling.SemSignal(old(View()).s, n))
      ensures KS.Ready(old(View()), KS.Simple(EvSemSignal(n))) ==>
                View() == KS.Next(old(View()), KS.Simple(EvSemSignal(n)))
    {
      hide Valid, View, KS.Ready, KS.Next, Wake;
      ghost var k := View();
      if KS.Ready(k, KS.Simple(EvSemSignal(n))) {
        SignalIsNext(k, n);
      }
      var ok := ValidSemaphore(n, false);
      if !ok {
        Answer(-1);
      } else {
        var counter := Counter(n);
        SetSemaphore(n, Semaphore(true, Increment(counter)));
        if Increment(counter) <= 0 {
          ghost var s1 := View().s;
          var lib := TakeBlocked(n);
          ghost var s2 := View().s;
          AddToReady(lib);
          WakeInSteps(k.s, s1, s2, View().s, n);
        }
        Answer(0);
      }
    }

    /** The loop of sem_destroy. */
    method ReleaseWaiters(n: nat)
      requires Valid() && WellFormed(View().s) && n < MAX_SEM && View().s.sem[n].isInit
      modifies ListNodes(), `pool, task
      ensures Valid()
      ensures View() == old(View()).(s := Draining(old(View()).s, n, |old(View()).s.blocked[n]|))
    {
      hide Valid, View, Draining;
      ghost var k, j := View(), 0;
      DrainingEnds(k.s, n);
      var empty := BlockedIsEmpty(n);
      while !empty
        invariant Valid() && 0 <= j <= |k.s.blocked[n]|
        invariant View().s == Draining(k.s, n, j) && View().m == k.m
        invariant empty <==> View().s.blocked[n] == []
        decreases |k.s.blocked[n]| - j
      {
        ReleaseOne(n, k.s, j);
        j := j + 1;
        DrainingKeepsSem(k.s, n, j);
        empty := BlockedIsEmpty(n);
      }
    }

    method ReleaseOne(n: nat, ghost s: Sched, ghost j: nat)
      requires WellFormed(s) && n < MAX_SEM && j < |s.blocked[n]| && Valid() && View().s == Draining(s, n, j)
      modifies ListNodes(), `pool, task
      ensures Valid() && View().s == Draining(s, n, j + 1) && View().m == old(View()).m
    {
      hide Valid, View, Draining;
      ghost var s0 := View().s;
      var lib := TakeBlocked(n);
      ghost var s1 := View().s;
      var l := TaskAt(lib);
      SetTask(lib, l.(destroyed := 1));
      ghost var s2 := View().s;
      AddToReady(lib);
      DrainOneMore(s, n, j, s1, s2, View().s);
    }

    lemma DrainingKeepsSem(s: Sched, n: nat, j: nat)
      requires WellFormed(s) && n < MAX_SEM && j <= |s.blocked[n]|
      ensures Draining(s, n, j).sem == s.sem
    {
    }

    /** sys_sem_destroy */
    method SemDestroy(n: int)
      requires Valid() && KS.Ready(View(), KS.Simple(EvSemDestroy(n)))
      modifies Repr()
      ensures Valid() && View() == KS.Next(old(View()), KS.Simple(EvSemDestroy(n)))
    {
      hide Valid, View, KS.Ready, KS.KernelInv, KS.Next, Switched, Draining, WakeAll, WellFormed;
      ghost var k := View();
      DestroyInSteps(k, n);
      var ok := ValidSemaphore(n, false);
      if !ok {
        Answer(-1);
      } else {
        ReleaseWaiters(n);
        var c := Counter(n);
        SetSemaphore(n, Semaphore(false, c));
        Answer(0);
      }
    }

    // ---------------------------------------------------------------- memory and tasks

    method AllocPage() returns (r: int)
      requires Valid() && DirsOk(View())
      modifies mem`seen, mem.phys, mem.table
      ensures Valid()
      ensures var k := old(View()); var d := Current(k.s).dir;
              r == AllocResult(k.m, d) && View() == k.(m := Alloc(k.m, d))
    {
      r := mem.AllocK(task[cur].dir);
    }

    method DeallocPage(page: nat) returns (r: int)
      requires Valid() && DirsOk(View())
      modifies mem, mem.phys, mem.table
      ensures Valid()
      ensures var k := old(View()); var d := Current(k.s).dir;
              r == DeallocResult(k.m, d, page) && View() == k.(m := Dealloc(k.m, d, page))
    {
      r := mem.DeallocK(task[cur].dir, page);
    }

    method FreeDataPages()
      requires Valid() && DirsOk(View())
      modifies mem.phys, mem.table
      ensures Valid()
      ensures var k := old(View()); View() == k.(m := Paging.Exit(k.m, Current(k.s).dir))
    {
      mem.Exit(task[cur].dir);
    }

    method CopyAddressSpace(child: nat) returns (ok: bool)
      requires Valid() && child < NR_TABLES && Forkable(View().m, child)
      modifies mem, mem.phys, mem.table, mem.ram
      ensures Valid() && ok == CanFork(old(View()).m)
      ensures View() == old(View()).(m := ForkedMemory(old(View()).m, child))
      ensures ForkCopies(old(View()).m, View().m, child, old(mem.ram[..]), mem.ram[..])
    {
      hide SchedView, Queue, Paging.Fork, PagesCopied, WindowIsClear, CanFork;
      ok := mem.Fork(child);
    }

    /** sys_alloc */
    method SysAlloc()
      requires Valid() && KS.Ready(View(), KS.TrapAlloc)
      modifies Repr()
      ensures Valid() && View() == KS.Next(old(View()), KS.TrapAlloc)
    {
      hide Valid, View, KS.Ready, KS.Next, DirsOk, Alloc, AllocResult;
      AllocNext(View());
      AtTrap(KS.TrapAlloc);
      var r := AllocPage();
      Answer(r);
    }

    /** sys_dealloc */
    method SysDealloc(address: u32)
      requires Valid() && KS.Ready(View(), KS.TrapDealloc(address / 4096))
      modifies Repr()
      ensures Valid() && View() == KS.Next(old(View()), KS.TrapDealloc(address / 4096))
    {
      hide Valid, View, KS.Ready, KS.Next, DirsOk, Dealloc, DeallocResult;
      var page: nat := address / PAGE_SIZE;
      DeallocNext(View(), page);
      AtTrap(KS.TrapDealloc(page));
      var r := DeallocPage(page);
      Answer(r);
    }

    /** sys_exit */
    method SysExit(r: Readings)
      requires Valid() && KS.Ready(View(), KS.TrapExit(r))
      modifies Repr()
      ensures Valid() && View() == KS.Next(old(View()), KS.TrapExit(r))
    {
      hide Valid, View, KS.Ready, KS.Next, DirsOk, Switched, Loose, Paging.Exit;
      ExitNext(View(), r);
      AtTrap(KS.TrapExit(r));
      FreeDataPages();
      var c := CurrentSlot();
      AddToFree(c);
      var u := TaskAt(c);
      SetTask(c, u.(pid := -1));
      Switch(r);
    }

    /** sys_terminatethread; `stack` is the user stack pointer that the caller's kernel stack holds. */
    method SysTerminateThread(r: Readings, stack: u32)
      requires Valid() && KS.Ready(View(), KS.TrapTerminate(r, stack / 4096))
      modifies Repr()
      ensures Valid() && View() == KS.Next(old(View()), KS.TrapTerminate(r, stack / 4096))
    {
      hide Valid, View, KS.Ready, KS.Next, DirsOk, Switched, Loose, Dealloc;
      var page: nat := stack / PAGE_SIZE;
      ghost var k := View();
      TerminateNext(k, r, page);
      AtTrap(KS.TrapTerminate(r, page));
      var err := DeallocPage(page);
      if err < 0 {
        Answer(err);
      } else {
        var c := CurrentSlot();
        AddToFree(c);
        ReleaseIs(k.s);
        Switch(r);
      }
    }

    lemma ReleaseIs(s: Sched)
      requires s.cur < |s.task|
      ensures Release(s, Current(s).pid) == s.(free := s.free + [s.cur])
    {
      assert SetCurrent(s, Current(s).(pid := Current(s).pid)).task == s.task;
    }

    /** list_first, list_del and copy_data, and allocate_DIR for fork. */
    method CopyToFree(forked: bool) returns (child: nat)
      requires Valid() && Startable(View().s)
      modifies ListNodes(), `pool, task
      ensures Valid() && child == old(View()).s.free[0] && child < NR_TASKS && Loose(pool, node[child])
      ensures View() == old(View()).(s := CopiedToFree(old(View()).s, forked))
    {
      hide Valid, View, Loose;
      var c := CurrentSlot();
      child := TakeFree();
      var u := TaskAt(c);
      SetTask(child, u.(pc := InCall, dir := if forked then child else u.dir));
    }

    method NextPid() returns (p: int)
      requires Valid()
      modifies `lastPid
      ensures Valid() && p == View().s.lastPid
      ensures View() == old(View()).(s := old(View()).s.(lastPid := old(View()).s.lastPid + 1))
    {
      lastPid := lastPid + 1;
      p := lastPid;
    }

    method NextTid() returns (p: int)
      requires Valid()
      modifies `lastTid
      ensures Valid() && p == View().s.lastTid
      ensures View() == old(View()).(s := old(View()).s.(lastTid := old(View()).s.lastTid + 1))
    {
      lastTid := lastTid + 1;
      p := lastTid;
    }

    /** The fields that fork sets in its child. */
    method NameChild(child: nat, r: Readings)
      requires Valid() && child < NR_TASKS && |View().s.task| == NR_TASKS
      modifies task, `lastPid
      ensures Valid() && View() == old(View()).(s := ChildNamed(old(View()).s, child, r))
    {
      hide Valid, View;
      var pid := NextPid();
      var w := TaskAt(child);
      SetTask(child, w.(pid := pid, state := ST_READY, stats := InitStats(r.entry, r.leave)));
    }

    /** The fields that createthread sets in the new thread. */
    method NameThread(child: nat)
      requires Valid() && child < NR_TASKS && |View().s.task| == NR_TASKS
      modifies task, `lastTid
      ensures Valid() && View() == old(View()).(s := ThreadNamed(old(View()).s, child))
    {
      hide Valid, View;
      var tid := NextTid();
      var w := TaskAt(child);
      SetTask(child, w.(tid := tid, state := ST_READY));
    }

    method MakeReady(child: nat)
      requires Valid() && child < NR_TASKS && Loose(pool, node[child])
      modifies ListNodes(), `pool
      ensures Valid() && View() == old(View()).(s := MadeReady(old(View()).s, child))
    {
      hide Valid, View, Loose;
      AddToReady(child);
    }

    method PidOf(i: nat) returns (pid: int)
      requires Valid() && i < NR_TASKS && |View().s.task| == NR_TASKS
      ensures Valid() && View() == old(View()) && pid == View().s.task[i].pid
    {
      pid := task[i].pid;
    }

    method PutBackFree(child: nat)
      requires Valid() && child < NR_TASKS && Loose(pool, node[child])
      modifies ListNodes(), `pool
      ensures Valid() && View() == old(View()).(s := PutBack(old(View()).s, child))
    {
      AddToFree(child);
    }

    method FinishFork(child: nat, r: Readings, ok: bool)
      requires Valid() && child < NR_TASKS && Loose(pool, node[child]) && |View().s.task| == NR_TASKS
      requires View().s.cur < NR_TASKS
      modifies ListNodes(), `pool, task, `lastPid
      ensures Valid()
      ensures View() == old(View()).(s := ForkFinished(old(View()).s, child, r, ok))
    {
      ghost var k := View();
      ForkFinishes(k.s, child, r);
      hide Valid, View, Loose, PutBack, ChildNamed, MadeReady, Return, ForkFinished;
      if !ok {
        PutBackFree(child);
        Answer(-EAGAIN);
      } else {
        NameChild(child, r);
        MakeReady(child);
        var pid := PidOf(child);
        Answer(pid);
      }
    }

    /** fork when there is a free task struct. */
    method ForkChild(r: Readings)
      requires Valid() && Startable(View().s) && Forkable(View().m, View().s.free[0])
      modifies Repr()
      ensures Valid()
      ensures var k := old(View()); var s1, c := CopiedToFree(k.s, true), k.s.free[0];
              && c < |s1.task| && s1.cur < |s1.task| && c < NR_TABLES
              && View() == KS.Kernel(ForkFinished(s1, c, r, CanFork(k.m)), ForkedMemory(k.m, c))
              && ForkCopies(k.m, View().m, c, old(mem.ram[..]), mem.ram[..])
    {
      assert |View().s.task| == NR_TASKS;
      CopiedKeeps(View().s);
      hide Valid, View, Forkable, ForkFinished, ForkedMemory, ForkCopies, Loose, Startable, CopiedToFree;
      var child := CopyToFree(true);
      var ok := CopyAddressSpace(child);
      FinishFork(child, r, ok);
    }

    lemma CopiedKeeps(s: Sched)
      requires Startable(s)
      ensures s.free != [] && s.free[0] < NR_TASKS && s.free[0] < NR_TABLES
      ensures CopiedToFree(s, true).cur < |CopiedToFree(s, true).task| == NR_TASKS
    {
    }

    /** sys_fork */
    method SysFork(r: Readings)
      requires Valid() && KS.Ready(View(), KS.TrapFork(r))
      modifies Repr()
      ensures Valid() && View() == KS.Next(old(View()), KS.TrapFork(r))
      // The bytes of the parent's data pages are in the child's frames.
      ensures BytesCopied(old(View()), View(), old(mem.ram[..]), mem.ram[..])
    {
      ForkNext(View(), r);
      if View().s.free != [] {
        ForkInSteps(View(), r);
      }
      hide Valid, View, KS.Ready, KS.KernelInv, KS.Next, Paging.Fork, Forkable, Scheduling.Fork, WellFormed, ForkCopies,
        Startable, CopiedToFree, ForkFinished, ForkedMemory;
      var empty := FreeIsEmpty();
      if empty {
        Answer(-ENOMEM);
      } else {
        ForkChild(r);
      }
    }

    /** createthread when there is a free task struct. */
    method StartThread()
      requires Valid() && Startable(View().s) && DirsOk(View())
      modifies Repr()
      ensures Valid() && View() == CreatedThread(old(View()))
    {
      ThreadKeeps(View());
      hide Valid, View, Alloc, AllocResult, DirsOk, Loose, Startable, CopiedToFree, ThreadNamed, MadeReady, Return,
        CreatedThread;
      var child := CopyToFree(false);
      var stack := AllocPage();
      NameThread(child);
      MakeReady(child);
      Answer(0);
    }

    /** sys_createthread, without what it writes to the new user stack. */
    method SysCreateThread()
      requires Valid() && KS.Ready(View(), KS.TrapCreateThread)
      modifies Repr()
      ensures Valid() && View() == KS.Next(old(View()), KS.TrapCreateThread)
    {
      hide Valid, View, KS.Ready, KS.Next, WellFormed, DirsOk, Startable, CreatedThread;
      CreateNext(View());
      var empty := FreeIsEmpty();
      if empty {
        Answer(-ENOMEM);
      } else {
        StartThread();
      }
    }

    // ---------------------------------------------------------------- boot, continued

    /** init_freequeue */
    method InitFreequeue()
      requires ListsOk() && pool == map[] && task[..] == Numbered(0)
      modifies task, ListNodes(), `pool
      ensures ListsOk() && pool.Keys == {freequeue} && Q(freequeue) == SR.Slots(0, NR_TASKS)
      ensures task[..] == Numbered(NR_TASKS)
    {
      hide ListsOk, Queue, Numbered;
      assert freequeue in Heads();
      MakeQueue(freequeue);
      var i := 0;
      while i < NR_TASKS
        invariant 0 <= i <= NR_TASKS && ListsOk() && pool.Keys == {freequeue}
        invariant Q(freequeue) == SR.Slots(0, i) && task[..] == Numbered(i)
      {
        AddUnstarted(i);
        i := i + 1;
      }
    }

    method AddUnstarted(i: nat)
      requires ListsOk() && i < NR_TASKS && pool.Keys == {freequeue}
      requires Q(freequeue) == SR.Slots(0, i) && task[..] == Numbered(i)
      modifies task, ListNodes(), `pool
      ensures ListsOk() && pool.Keys == {freequeue}
      ensures Q(freequeue) == SR.Slots(0, i + 1) && task[..] == Numbered(i + 1)
    {
      hide Queue, Loose, ListsOk;
      LooseNode(i);
      ClearPid(i);
      Enqueue(i, freequeue);
    }

    method ClearPid(i: nat)
      requires ListsOk() && i < NR_TASKS && task[..] == Numbered(i)
      modifies task
      ensures ListsOk() && task[..] == Numbered(i + 1)
    {
      task[i] := task[i].(pid := -1);
    }

    lemma TwoQueues(before: Pool)
      requires ListsOk() && pool == before[readyqueue := []] && before.Keys == {freequeue}
      requires Queue(before, freequeue) == SR.Slots(0, NR_TASKS)
      ensures Q(freequeue) == Unstarted().free && Q(readyqueue) == Unstarted().ready && Blocked() == Unstarted().blocked
    {
      hide PoolShape, Placed;
      forall n | 0 <= n < MAX_SEM ensures Blocked()[n] == [] {
        assert waiting[n] in waiting;
      }
    }

    /** init_sched */
    method InitSched(ghost m: Mem)
      requires ListsOk() && pool == map[] && cur == IDLE && rq == 0 && lastPid == 1000 && lastTid == 0
      requires mem.Valid() && mem.View() == m
      requires task[..] == Numbered(0)
      requires forall n :: 0 <= n < MAX_SEM ==> sem[n] == Semaphore(false, 0)
      modifies task, ListNodes(), `pool
      ensures Valid() && View() == KS.Kernel(Unstarted(), m)
    {
      hide PoolShape, Placed, Queue, Blocked;
      InitFreequeue();
      ghost var before := pool;
      MakeQueue(readyqueue);
      TwoQueues(before);
      assert task[..] == Unstarted().task;
      assert sem[..] == Unstarted().sem;
    }

    /** init_idle */
    method InitIdle(r: Readings)
      requires Valid() && View().s == Unstarted()
      modifies ListNodes(), `pool, task
      ensures Valid() && View() == old(View()).(s := IdleMade(r))
    {
      hide Valid, View;
      var c := TakeFree();
      var u := TaskAt(c);
      SetTask(c, u.(pid := 0, quantum := DEFAULT_QUANTUM, stats := InitStats(r.entry, r.requeue), dir := c, pc := InCall));
    }

    /** init_task1, up to the pages of the process. */
    method MakeTask1(r: Readings) returns (c: nat)
      requires Valid() && View().s == IdleMade(r)
      modifies ListNodes(), `pool, task, `rq
      ensures Valid() && c == INIT && View() == old(View()).(s := SR.BootSched(r).(cur := IDLE))
    {
      hide Valid, View, SR.BootTask, IdleMade, SR.BootSched;
      Task1Made(r);
      c := TakeFree();
      var u := TaskAt(c);
      SetTask(c, u.(pid := 1, quantum := DEFAULT_QUANTUM, state := ST_RUN, stats := InitStats(r.outgoing, r.incoming),
                    dir := c));
      SetQuantum(DEFAULT_QUANTUM);
    }

    /** set_user_pages of the running kernel's memory. */
    method LoadPages(d: nat)
      requires Valid() && d < NR_TABLES && |FreeList(View().m.used)| >= NUM_PAG_CODE + NUM_PAG_DATA
      modifies mem`seen, mem.phys, mem.table
      ensures Valid() && View() == old(View()).(m := PL.UserPages(old(View()).m, d))
    {
      hide SchedView, Queue, FreeFrom, PL.Filling;
      mem.SetUserPages(d);
    }

    /** The end of init_task1, and the way into user mode on the stack of task 1. */
    method EnterTask1(c: nat, ghost guards: set<nat>)
      requires Valid() && View().m == PL.InitMm(guards) && c == INIT && View().s.task[c].dir == c
      modifies `cur, mem, mem.phys, mem.table
      ensures Valid() && View() == KS.Kernel(old(View()).s.(cur := c), PL.BootMem(guards))
    {
      PL.AllFree(PL.KernelFrames(), NUM_PAG_KERNEL, 27);
      hide Valid, View, FreeFrom, PL.UserPages;
      LoadPages(c);
      TaskSwitch(c);
    }

    /** What main does before init runs in user mode: the state in which every run starts. */
    static method BootSystem(r: Readings, ghost guards: set<nat>, first: nat, last: nat) returns (sys: System)
      requires guards == {first, last} && first < NUM_PAG_KERNEL && last < NUM_PAG_KERNEL
      ensures fresh(sys) && sys.Valid() && sys.View() == KR.BootKernel(r, guards)
    {
      var mem := new Memory(guards, first, last);
      sys := new System(mem, guards);
      sys.InitSched(PL.InitMm(guards));
      sys.InitIdle(r);
      var c := sys.MakeTask1(r);
      sys.EnterTask1(c, guards);
    }
  }
}
