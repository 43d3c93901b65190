/** What the loops of fork, exit and set_user_pages have done after some of their rounds. */
module PagingLoops {
  import opened Paging
  import opened PagingInvariant
  import opened PagingLaws

  // ---------------------------------------------------------------- the allocation loop of fork

  /** The memory after k frames have been allocated for the pages lo, lo + 1, ... of table d. */
  function Filling(m: Mem, d: nat, lo: nat, k: nat): (x: Mem)
    requires Shape(m) && d < NR_TABLES && lo + k <= TOTAL_PAGES && k <= |FreeList(m.used)|
    ensures Shape(x)
  {
    var fs := FreeList(m.used)[..k];
    m.(used := Mark(m.used, Elements(fs), true),
       pt := m.pt[d := Filled(m.pt[d], lo, fs)],
       seen := if d == m.cr3 then m.seen + Translated(lo, fs) else m.seen)
  }

  function Filled(row: Row, lo: nat, fs: seq<nat>): (r: Row)
    requires |row| == TOTAL_PAGES && lo + |fs| <= TOTAL_PAGES
    ensures |r| == TOTAL_PAGES
    ensures forall p :: 0 <= p < TOTAL_PAGES ==>
              r[p] == if lo <= p < lo + |fs| then Entry(true, fs[p - lo]) else row[p]
  {
    seq(TOTAL_PAGES, p requires 0 <= p < TOTAL_PAGES =>
      if lo <= p < lo + |fs| then Entry(true, fs[p - lo]) else row[p])
  }

  /** The rollback of fork after i of the n frames have been given back. */
  function Rolling(m: Mem, child: nat, i: nat): (x: Mem)
    requires Shape(m) && child < NR_TABLES && !CanFork(m) && i <= |FreeList(m.used)|
    ensures Shape(x)
  {
    var fs := FreeList(m.used);
    Filling(m, child, INIT_DATA, |fs|)
    .(used := Mark(m.used, Elements(fs[i..]) + Elements(fs[..i]) * {NUM_PAG_KERNEL}, true),
      pt := m.pt[child := Cleared(Filled(m.pt[child], INIT_DATA, fs), INIT_DATA, INIT_DATA + i)])
  }

  lemma {:induction false} FreeListAfter(used: seq<bool>, k: nat)
    requires k <= |FreeList(used)|
    ensures FreeList(Mark(used, Elements(FreeList(used)[..k]), true)) == FreeList(used)[k..]
  {
    hide FreeFrom;
    var fl := FreeList(used);
    FreeListSound(used, NUM_PAG_KERNEL);
    if k == 0 {
      assert Mark(used, Elements(fl[..0]), true) == used;
    } else {
      FreeListAfter(used, k - 1);
      FreeListTail(Mark(used, Elements(fl[..k - 1]), true), NUM_PAG_KERNEL);
      MarkOneMore(used, fl, k - 1);
    }
  }

  lemma MarkOneMore(used: seq<bool>, q: seq<nat>, k: nat)
    requires k < |q| && q[k] < |used|
    ensures Mark(used, Elements(q[..k + 1]), true) == Mark(used, Elements(q[..k]), true)[q[k] := true]
  {
    assert q[..k + 1] == q[..k] + [q[k]];
  }

  /** One round of an allocation loop. */
  lemma FillOneMore(m: Mem, d: nat, lo: nat, k: nat)
    requires Shape(m) && d < NR_TABLES && lo + k < TOTAL_PAGES && k < |FreeList(m.used)|
    ensures FreeList(m.used)[k] < TOTAL_PAGES
    ensures var x, f := Filling(m, d, lo, k), FreeList(m.used)[k];
            MapPage(x.(used := x.used[f := true]), d, lo + k, f) == Filling(m, d, lo, k + 1)
  {
    FreeListSound(m.used, NUM_PAG_KERNEL);
    hide FreeFrom;
    var fl := FreeList(m.used);
    var x, y, f := Filling(m, d, lo, k), Filling(m, d, lo, k + 1), fl[k];
    assert fl[..k + 1] == fl[..k] + [f];
    assert y.used == x.used[f := true];
    assert y.pt[d] == x.pt[d][lo + k := Entry(true, f)];
    assert Translated(lo, fl[..k + 1]) == Translated(lo, fl[..k]) + {(lo + k, f)};
  }

  lemma RollOneMore(m: Mem, child: nat, i: nat)
    requires Shape(m) && child < NR_TABLES && !CanFork(m) && i < |FreeList(m.used)|
    ensures var x, f := Rolling(m, child, i), FreeList(m.used)[i];
            && x.pt[child][INIT_DATA + i].frame == f
            && UnmapPage(x.(used := FreeFrame(x.used, f)), child, INIT_DATA + i) == Rolling(m, child, i + 1)
  {
    FreeListSound(m.used, NUM_PAG_KERNEL);
    hide FreeFrom;
    var fl := FreeList(m.used);
    var x, y, f := Rolling(m, child, i), Rolling(m, child, i + 1), fl[i];
    UnmarkOne(m.used, fl, i);
    assert y.pt[child] == x.pt[child][INIT_DATA + i := NONE];
  }

  /** The frames that the rollback has still to give back, one by one. */
  lemma UnmarkOne(used: seq<bool>, q: seq<nat>, i: nat)
    requires i < |q| && |used| == TOTAL_PAGES && NUM_PAG_KERNEL <= q[i] < TOTAL_PAGES && !used[q[i]]
    requires forall j, k :: 0 <= j < k < |q| ==> q[j] < q[k]
    ensures var kernel := {NUM_PAG_KERNEL};
            FreeFrame(Mark(used, Elements(q[i..]) + Elements(q[..i]) * kernel, true), q[i])
            == Mark(used, Elements(q[i + 1..]) + Elements(q[..i + 1]) * kernel, true)
  {
    assert q[i..] == [q[i]] + q[i + 1..] && q[..i + 1] == q[..i] + [q[i]];
    assert q[i] !in q[i + 1..];
  }

  lemma RollingEnds(m: Mem, child: nat)
    requires Shape(m) && child < NR_TABLES && !CanFork(m)
    ensures Rolling(m, child, 0) == Filling(m, child, INIT_DATA, |FreeList(m.used)|)
    ensures Rolling(m, child, |FreeList(m.used)|) == ForkFails(m, child)
  {
    var fl := FreeList(m.used);
    FreeListSound(m.used, NUM_PAG_KERNEL);
    assert fl[..|fl|] == fl;
    assert Rolling(m, child, 0).used == Filling(m, child, INIT_DATA, |fl|).used;
    assert Rolling(m, child, 0).pt[child] == Filled(m.pt[child], INIT_DATA, fl);
    assert Rolling(m, child, |fl|).used == ForkFails(m, child).used;
    assert Rolling(m, child, |fl|).pt[child] == ForkFails(m, child).pt[child];
  }

  lemma FreeLeft(m: Mem, d: nat, lo: nat, k: nat)
    requires Shape(m) && d < NR_TABLES && lo + k <= TOTAL_PAGES && k <= |FreeList(m.used)|
    ensures FreeList(Filling(m, d, lo, k).used) == FreeList(m.used)[k..]
  {
    FreeListAfter(m.used, k);
  }

  lemma FillingNothing(m: Mem, d: nat, lo: nat)
    requires Shape(m) && d < NR_TABLES && lo <= TOTAL_PAGES
    ensures Filling(m, d, lo, 0) == m
  {
    var x := Filling(m, d, lo, 0);
    assert x.used == m.used;
    assert x.pt[d] == m.pt[d];
    assert x.pt == m.pt;
    assert x.seen == m.seen;
  }

  ghost function SharedRow(parent: Row, child: Row, k: nat): (r: Row)
    requires |parent| == TOTAL_PAGES && |child| == TOTAL_PAGES
    ensures |r| == TOTAL_PAGES
    ensures forall p :: 0 <= p < TOTAL_PAGES ==> r[p] == if p < k then Entry(true, parent[p].frame) else child[p]
  {
    seq(TOTAL_PAGES, p requires 0 <= p < TOTAL_PAGES => if p < k then Entry(true, parent[p].frame) else child[p])
  }

  lemma SharingNothing(m: Mem, parent: nat, child: nat)
    requires Shape(m) && parent < NR_TABLES && child < NR_TABLES
    ensures m.pt == m.pt[child := SharedRow(m.pt[parent], m.pt[child], 0)]
  {
    assert SharedRow(m.pt[parent], m.pt[child], 0) == m.pt[child];
  }

  lemma ShareOneMore(m: Mem, parent: nat, child: nat, k: nat)
    requires Shape(m) && parent < NR_TABLES && child < NR_TABLES && k < INIT_DATA
    ensures var r := SharedRow(m.pt[parent], m.pt[child], k);
            r[k := Entry(true, m.pt[parent][k].frame)] == SharedRow(m.pt[parent], m.pt[child], k + 1)
  {
  }

  lemma SweepOneMore(row: Row, pag: nat, f: nat)
    requires |row| == TOTAL_PAGES && INIT_DATA <= pag < INIT_HEAP
    ensures Cleared(row, INIT_HEAP, pag + NUM_PAG_DATA)[pag + NUM_PAG_DATA := Entry(true, f)][pag + NUM_PAG_DATA := NONE]
            == Cleared(row, INIT_HEAP, pag + NUM_PAG_DATA + 1)
  {
  }

  /** The table and the TLB after one page has gone through the window. */
  ghost function AfterWindow(m: Mem, child: nat, pag: nat): (x: Mem)
    requires Shape(m) && child < NR_TABLES && INIT_DATA <= pag < INIT_HEAP
    ensures Shape(x)
  {
    var w := pag + NUM_PAG_DATA;
    m.(pt := m.pt[m.cr3 := m.pt[m.cr3][w := NONE]], seen := m.seen + {(w, m.pt[child][pag].frame)})
  }

  /** The window opens, and closes again. */
  lemma WindowInSteps(m: Mem, child: nat, pag: nat)
    requires Shape(m) && child < NR_TABLES && INIT_DATA <= pag < INIT_HEAP && TlbCovers(m)
    requires m.pt[m.cr3][pag].present && m.pt[child][pag].frame < TOTAL_PAGES
    ensures var w, f := pag + NUM_PAG_DATA, m.pt[child][pag].frame;
            var x := MapPage(m, m.cr3, w, f);
            && Shape(x) && x.cr3 == m.cr3 && TlbCovers(x) && x.pt[m.cr3][pag].present && x.pt[m.cr3][w].present
            && UnmapPage(x, m.cr3, w) == AfterWindow(m, child, pag) && TlbCovers(AfterWindow(m, child, pag))
            && AfterWindow(m, child, pag).seen == x.seen
  {
    var w, f := pag + NUM_PAG_DATA, m.pt[child][pag].frame;
    var y := UnmapPage(MapPage(m, m.cr3, w, f), m.cr3, w);
    assert y.pt[m.cr3] == m.pt[m.cr3][w := NONE];
    assert y.pt == AfterWindow(m, child, pag).pt;
  }

  /** v is fork's state when it started from m and the pages below pag have been copied. */
  ghost predicate Sweeping(m: Mem, v: Mem, pag: nat)
    requires Shape(m) && Shape(v) && INIT_DATA <= pag <= INIT_HEAP
  {
    v == m.(pt := m.pt[m.cr3 := Cleared(m.pt[m.cr3], INIT_HEAP, pag + NUM_PAG_DATA)], seen := v.seen)
  }

  /** After the tables are built, what is left of fork is to copy and to close the window. */
  lemma SharedForCopying(m: Mem, child: nat, v: Mem, w: Mem)
    requires Shape(m) && Shape(w) && child < NR_TABLES && CanFork(m) && v == Filling(m, child, INIT_DATA, NUM_PAG_DATA)
    requires w.used == v.used && w.cr3 == m.cr3
    requires w.pt == v.pt[child := SharedRow(v.pt[m.cr3], v.pt[child], INIT_DATA)]
    ensures w.pt[child] == ForkedRow(m.pt[m.cr3], m.pt[child], FreeList(m.used)[..NUM_PAG_DATA])
    ensures Paging.SetCr3(w.(pt := w.pt[m.cr3 := Cleared(w.pt[m.cr3], INIT_HEAP, TEMP_END)]), m.cr3)
            == Paging.Fork(m, m.cr3, child)
    ensures child != m.cr3 ==> w.pt[m.cr3] == m.pt[m.cr3]
  {
    var x := ForkedRow(m.pt[m.cr3], m.pt[child], FreeList(m.used)[..NUM_PAG_DATA]);
    assert w.pt[child] == x;
    assert w.pt == m.pt[child := x];
  }

  ghost function SomeDataFrames(row: Row, i: nat): set<nat>
    requires |row| == TOTAL_PAGES && i <= NUM_PAG_DATA
  {
    set p | INIT_DATA <= p < INIT_DATA + i && row[p].frame > NUM_PAG_KERNEL :: row[p].frame
  }

  ghost function Exiting(m: Mem, d: nat, i: nat): (x: Mem)
    requires Shape(m) && d < NR_TABLES && i <= NUM_PAG_DATA
    ensures Shape(x)
  {
    m.(used := Mark(m.used, SomeDataFrames(m.pt[d], i), false),
       pt := m.pt[d := Cleared(m.pt[d], INIT_DATA, INIT_DATA + i)])
  }

  lemma ExitingNothing(m: Mem, d: nat)
    requires Shape(m) && d < NR_TABLES
    ensures Exiting(m, d, 0) == m
    ensures Exiting(m, d, NUM_PAG_DATA) == Paging.Exit(m, d)
  {
    assert Exiting(m, d, 0).used == m.used;
    assert Exiting(m, d, 0).pt[d] == m.pt[d];
    assert Exiting(m, d, 0).pt == m.pt;
    assert SomeDataFrames(m.pt[d], NUM_PAG_DATA) == set f | f in DataFrames(m.pt[d]) && f > NUM_PAG_KERNEL;
  }

  lemma ExitOneMore(m: Mem, d: nat, i: nat)
    requires Shape(m) && d < NR_TABLES && i < NUM_PAG_DATA
    ensures var x := Exiting(m, d, i);
            var f := x.pt[d][INIT_DATA + i].frame;
            UnmapPage(x.(used := Paging.FreeFrame(x.used, f)), d, INIT_DATA + i) == Exiting(m, d, i + 1)
  {
    var x, y := Exiting(m, d, i), Exiting(m, d, i + 1);
    var f := x.pt[d][INIT_DATA + i].frame;
    assert f == m.pt[d][INIT_DATA + i].frame;
    assert SomeDataFrames(m.pt[d], i + 1)
        == SomeDataFrames(m.pt[d], i) + (if f > NUM_PAG_KERNEL then {f} else {});
    assert y.used == Paging.FreeFrame(x.used, f);
    assert y.pt[d] == x.pt[d][INIT_DATA + i := NONE];
  }

  // ---------------------------------------------------------------- boot

  function KernelEntry(guards: set<nat>, p: nat): Entry {
    Entry(p !in guards, p)
  }

  /** A table after init_table_pages; `guards` are the kernel pages around the task array. */
  function KernelRow(guards: set<nat>): (r: Row)
    ensures |r| == TOTAL_PAGES
    ensures forall p :: 0 <= p < TOTAL_PAGES ==>
              r[p] == if 1 <= p < NUM_PAG_KERNEL then KernelEntry(guards, p) else NONE
  {
    seq(TOTAL_PAGES, p requires 0 <= p < TOTAL_PAGES =>
      if 1 <= p < NUM_PAG_KERNEL then KernelEntry(guards, p) else NONE)
  }

  /** After init_frames. */
  function KernelFrames(): (u: seq<bool>)
    ensures |u| == TOTAL_PAGES && forall f :: 0 <= f < TOTAL_PAGES ==> u[f] == (f < NUM_PAG_KERNEL)
  {
    seq(TOTAL_PAGES, f requires 0 <= f < TOTAL_PAGES => f < NUM_PAG_KERNEL)
  }

  /** After init_mm: kernel pages only, and the address space of task 0. */
  function InitMm(guards: set<nat>): (m: Mem)
    ensures Shape(m)
  {
    Mem(KernelFrames(), seq(NR_TABLES, d => KernelRow(guards)), 0, Translations(KernelRow(guards)))
  }

  /** set_user_pages: eight code pages and twenty data pages, in the first free frames. */
  function UserPages(m: Mem, d: nat): (x: Mem)
    requires Shape(m) && d < NR_TABLES && |FreeList(m.used)| >= NUM_PAG_CODE + NUM_PAG_DATA
    ensures Shape(x)
  {
    Filling(m, d, INIT_CODE, NUM_PAG_CODE + NUM_PAG_DATA)
  }

  lemma {:induction false} AllFree(used: seq<bool>, i: nat, k: nat)
    requires i + 2 * k < |used| && forall f :: i <= f < |used| ==> !used[f]
    ensures k < |FreeFrom(used, i)| && FreeFrom(used, i)[k] == i + 2 * k
    decreases k
  {
    if k > 0 {
      AllFree(used, i + 2, k - 1);
    }
  }

  /** After init_task1. */
  function BootMem(guards: set<nat>): (m: Mem)
    ensures Shape(m)
  {
    AllFree(KernelFrames(), NUM_PAG_KERNEL, 27);
    SetCr3(UserPages(InitMm(guards), 1), 1)
  }

  /** Boot gives init's page 256 + k the frame 256 + 2k: its first code page keeps frame 256 for good. */
  lemma BootFrames(guards: set<nat>, k: nat)
    requires k < NUM_PAG_CODE + NUM_PAG_DATA
    ensures BootMem(guards).pt[1][INIT_CODE + k] == Entry(true, NUM_PAG_KERNEL + 2 * k)
    ensures BootMem(guards).used[NUM_PAG_KERNEL + 2 * k]
  {
    hide FreeFrom;
    AllFree(KernelFrames(), NUM_PAG_KERNEL, 27);
    AllFree(KernelFrames(), NUM_PAG_KERNEL, k);
    var fs := FreeList(KernelFrames())[..NUM_PAG_CODE + NUM_PAG_DATA];
    assert fs[k] in Elements(fs);
  }

  lemma BootEntry(guards: set<nat>, d: nat, p: nat)
    requires d < NR_TABLES && INIT_CODE <= p < TOTAL_PAGES
    ensures BootMem(guards).pt[d][p]
            == if d == 1 && p < INIT_HEAP then Entry(true, NUM_PAG_KERNEL + 2 * (p - INIT_CODE)) else NONE
  {
    hide FreeFrom;
    AllFree(KernelFrames(), NUM_PAG_KERNEL, 27);
    if d == 1 && p < INIT_HEAP {
      BootFrames(guards, p - INIT_CODE);
    }
  }

  lemma BootUsed(guards: set<nat>, f: nat)
    requires f < TOTAL_PAGES
    ensures BootMem(guards).used[f] <==> f < NUM_PAG_KERNEL || (f < 312 && f % 2 == 0)
  {
    hide FreeFrom;
    AllFree(KernelFrames(), NUM_PAG_KERNEL, 27);
    var fs := FreeList(KernelFrames())[..NUM_PAG_CODE + NUM_PAG_DATA];
    FreeListSound(KernelFrames(), NUM_PAG_KERNEL);
    if NUM_PAG_KERNEL <= f < 312 && f % 2 == 0 {
      BootFrames(guards, (f - NUM_PAG_KERNEL) / 2);
    } else {
      forall k | 0 <= k < |fs| ensures fs[k] == NUM_PAG_KERNEL + 2 * k {
        AllFree(KernelFrames(), NUM_PAG_KERNEL, k);
      }
      assert f >= NUM_PAG_KERNEL ==> f !in fs;
    }
  }

  /** 356 frames are free then. */
  lemma BootFree(guards: set<nat>)
    ensures |FreeEven(BootMem(guards).used)| == 356
  {
    hide BootMem;
    var used := BootMem(guards).used;
    forall f | 0 <= f < TOTAL_PAGES ensures used[f] <==> f < NUM_PAG_KERNEL || (f < 312 && f % 2 == 0) {
      BootUsed(guards, f);
    }
    assert FreeEven(used) == Evens(312, 356);
  }

  /** The memory the kernel boots with satisfies everything that the system calls keep. */
  lemma BootMemInv(guards: set<nat>)
    ensures MemInv(BootMem(guards)) && NoneLost(BootMem(guards))
  {
    var m := BootMem(guards);
    hide BootMem;
    forall d, p | 0 <= d < NR_TABLES && INIT_CODE <= p < TOTAL_PAGES
      ensures m.pt[d][p] == if d == 1 && p < INIT_HEAP then Entry(true, NUM_PAG_KERNEL + 2 * (p - INIT_CODE)) else NONE
    {
      BootEntry(guards, d, p);
    }
    forall f | 0 <= f < TOTAL_PAGES
      ensures m.used[f] <==> f < NUM_PAG_KERNEL || (f < 312 && f % 2 == 0)
    {
      BootUsed(guards, f);
    }
    assert Own(m);
    assert m == SetCr3(m, 1) by { BootCr3(guards); }
    SetCr3Inv(m, 1);
    forall f | FIRST_OWNED <= f < TOTAL_PAGES && f % 2 == 0 && m.used[f]
      ensures HasOwner(m, f)
    {
      var p := INIT_CODE + (f - NUM_PAG_KERNEL) / 2;
      assert Private(p) && m.pt[1][p] == Entry(true, f);
    }
  }

  lemma BootCr3(guards: set<nat>)
    ensures BootMem(guards) == SetCr3(BootMem(guards), 1)
  {
  }
}
