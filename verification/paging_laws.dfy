/** What fork, alloc, dealloc and exit promise: nothing lost, all or nothing, a TLB that is never wrong. */
module PagingLaws {
  import opened Paging
  import opened PagingInvariant

  // ---------------------------------------------------------------- alloc and dealloc are inverse

  /** dealloc of the page that alloc has just returned gives back the frame map and all tables exactly. */
  lemma AllocThenDealloc(m: Mem)
    requires Own(m) && CanAlloc(m, m.cr3)
    ensures var a := Alloc(m, m.cr3);
            var p := AllocResult(m, m.cr3) / PAGE_SIZE;
            && DeallocResult(a, m.cr3, p) == 0
            && Dealloc(a, m.cr3, p).used == m.used && Dealloc(a, m.cr3, p).pt == m.pt
  {
    FreeFramesAreNobodys(m, 0);
    var h := FirstHole(m.pt[m.cr3], INIT_HEAP);
    assert Private(h) && EntryOwns(m.used, m.pt[m.cr3][h]);
    var d := Dealloc(Alloc(m, m.cr3), m.cr3, h);
    assert d.used == m.used;
    assert d.pt[m.cr3] == m.pt[m.cr3];
    assert d.pt == m.pt;
  }

  // ---------------------------------------------------------------- fork is all or nothing

  function FreeEven(used: seq<bool>): set<nat> {
    set f | NUM_PAG_KERNEL <= f < |used| && f % 2 == 0 && !used[f]
  }

  lemma {:induction false} IncreasingSize(q: seq<nat>)
    requires forall j, k :: 0 <= j < k < |q| ==> q[j] < q[k]
    ensures |Elements(q)| == |q|
  {
    if q != [] {
      var init, last := q[..|q| - 1], q[|q| - 1];
      IncreasingSize(init);
      assert Elements(q) == Elements(init) + {last};
    }
  }

  lemma FreeListSize(used: seq<bool>)
    ensures |FreeList(used)| == |FreeEven(used)|
  {
    var q := FreeList(used);
    FreeListSound(used, NUM_PAG_KERNEL);
    forall f | f in FreeEven(used) ensures f in q {
      FreeListComplete(used, NUM_PAG_KERNEL, f);
    }
    assert Elements(q) == FreeEven(used);
    IncreasingSize(q);
  }

  /** fork finds enough frames exactly if 20 of the frames with an even number are free. */
  lemma CanForkCounts(m: Mem)
    ensures CanFork(m) <==> |FreeEven(m.used)| >= NUM_PAG_DATA
  {
    FreeListSize(m.used);
  }

  lemma EvenIsNext(lo: nat, f: nat)
    requires lo % 2 == 0
    ensures f < lo + 2 && f % 2 == 0 <==> f == lo || (f < lo && f % 2 == 0)
  {
  }

  /** The even numbers lo, lo + 2, ..., n of them. */
  ghost function Evens(lo: nat, n: nat): (s: set<nat>)
    requires lo % 2 == 0
    ensures forall f :: f in s <==> lo <= f < lo + 2 * n && f % 2 == 0
    ensures |s| == n
  {
    if n == 0 then {} else
      var top := lo + 2 * (n - 1);
      assert forall f: nat {:trigger f % 2} :: f < top + 2 && f % 2 == 0 <==> f == top || (f < top && f % 2 == 0) by {
        forall f: nat { EvenIsNext(top, f); }
      }
      Evens(lo, n - 1) + {top}
  }

  /** There are 384 frames that alloc_frame can hand out. */
  lemma FreeEvenBounded(used: seq<bool>)
    requires |used| == TOTAL_PAGES
    ensures |FreeEven(used)| <= 384
  {
    var rest := Evens(NUM_PAG_KERNEL, 384) - FreeEven(used);
    assert Evens(NUM_PAG_KERNEL, 384) == FreeEven(used) + rest;
  }

  /** An allocation takes one of them, and a frame that is freed is one more. */
  lemma OneFrameLess(used: seq<bool>, f: nat)
    requires f in FreeEven(used)
    ensures |FreeEven(used[f := true])| == |FreeEven(used)| - 1
  {
    assert FreeEven(used[f := true]) == FreeEven(used) - {f};
  }

  lemma OneFrameMore(used: seq<bool>, f: nat)
    requires NUM_PAG_KERNEL <= f < |used| && f % 2 == 0 && used[f]
    ensures |FreeEven(used[f := false])| == |FreeEven(used)| + 1
  {
    assert FreeEven(used[f := false]) == FreeEven(used) + {f};
  }

  lemma AllocTakesOne(m: Mem, d: nat)
    requires Shape(m) && d < NR_TABLES && CanAlloc(m, d)
    ensures |FreeEven(Alloc(m, d).used)| == |FreeEven(m.used)| - 1
  {
    FreeListSound(m.used, NUM_PAG_KERNEL);
    OneFrameLess(m.used, FreeList(m.used)[0]);
  }

  /** A fork that fails leaves the frame map as it was exactly if frame 256 is in use: otherwise it is the first
      frame to be allocated, and free_frame does not free it. */
  lemma ForkRestoresExactly(m: Mem, parent: nat, child: nat)
    requires Shape(m) && parent < NR_TABLES && child < NR_TABLES && !CanFork(m)
    ensures Fork(m, parent, child).used == m.used <==> m.used[NUM_PAG_KERNEL]
  {
    FreeListSound(m.used, NUM_PAG_KERNEL);
    if m.used[NUM_PAG_KERNEL] {
      assert NUM_PAG_KERNEL !in FreeList(m.used);
      assert Fork(m, parent, child).used == m.used;
    } else {
      FreeListComplete(m.used, NUM_PAG_KERNEL, NUM_PAG_KERNEL);
      assert Fork(m, parent, child).used[NUM_PAG_KERNEL];
    }
  }

  /** A fork that fails leaves no trace in frames and tables, exactly if the pages that it filled were unmapped in
      the child's table. */
  lemma ForkAllOrNothing(m: Mem, parent: nat, child: nat)
    requires Own(m) && parent < NR_TABLES && child < NR_TABLES
    requires |FreeEven(m.used)| < NUM_PAG_DATA
    ensures var x := Fork(m, parent, child);
            && x.used == m.used
            && (forall d :: 0 <= d < NR_TABLES && d != child ==> x.pt[d] == m.pt[d])
            && (forall p :: 0 <= p < TOTAL_PAGES && !m.pt[child][p].present ==> !x.pt[child][p].present)
            && (x.pt == m.pt <==> Unmapped(m.pt[child], INIT_DATA, INIT_DATA + |FreeEven(m.used)|))
  {
    FreeListSize(m.used);
    ForkFailsOwn(m, child);
    var x := Fork(m, parent, child);
    var n := INIT_DATA + |FreeEven(m.used)|;
    if x.pt == m.pt {
      assert forall p :: INIT_DATA <= p < n ==> x.pt[child][p] == NONE;
    }
    if Unmapped(m.pt[child], INIT_DATA, n) {
      forall p | 0 <= p < TOTAL_PAGES ensures x.pt[child][p] == m.pt[child][p] {
        if INIT_DATA <= p < n {
          assert Private(p) && EntryOwns(m.used, m.pt[child][p]);
        }
      }
      assert x.pt[child] == m.pt[child];
      assert x.pt == m.pt;
    }
  }

  /** Page p of table d maps a frame that was free in m and that no other page of any table maps in x. */
  ghost predicate NewAndSole(m: Mem, x: Mem, d: nat, p: nat)
    requires Shape(m) && Shape(x) && d < NR_TABLES && p < TOTAL_PAGES
  {
    var e := x.pt[d][p];
    && e.present && e.frame < TOTAL_PAGES && !m.used[e.frame]
    && (forall c, q :: 0 <= c < NR_TABLES && INIT_CODE <= q < TOTAL_PAGES && x.pt[c][q].frame == e.frame
                       ==> c == d && q == p)
  }

  /** A fork that succeeds gives the child 20 frames that were free and that no other table maps; its code
      pages map the parent's code frames; the parent keeps its table exactly if its pages 284..303 were unmapped; the
      child's heap is what the slot's table had left: the child maps nothing besides code and its twenty pages
      exactly if the slot's heap was unmapped. */
  lemma ForkIsolates(m: Mem, parent: nat, child: nat)
    requires Own(m) && parent < NR_TABLES && child < NR_TABLES && parent != child && CanFork(m)
    ensures var x := Fork(m, parent, child);
            && (forall p :: INIT_DATA <= p < INIT_HEAP ==> NewAndSole(m, x, child, p))
            && (forall p :: INIT_CODE <= p < INIT_DATA ==> x.pt[child][p] == Entry(true, m.pt[parent][p].frame))
            && (Unmapped(m.pt[parent], INIT_HEAP, TEMP_END) <==> x.pt[parent] == m.pt[parent])
            && (forall p :: INIT_HEAP <= p < TOTAL_PAGES ==> x.pt[child][p] == m.pt[child][p])
            && (Unmapped(x.pt[child], INIT_HEAP, TOTAL_PAGES) <==> Unmapped(m.pt[child], INIT_HEAP, TOTAL_PAGES))
  {
    ForkSucceedsOwn(m, parent, child);
    var x := Fork(m, parent, child);
    forall p | INIT_DATA <= p < INIT_HEAP
      ensures NewAndSole(m, x, child, p)
    {
      FreeFramesAreNobodys(m, p - INIT_DATA);
      assert x.pt[child][p] == Entry(true, FreeList(m.used)[p - INIT_DATA]);
      forall c, q | 0 <= c < NR_TABLES && INIT_CODE <= q < TOTAL_PAGES && x.pt[c][q].frame == x.pt[child][p].frame
        ensures c == child && q == p
      {
        OnlyOwner(x, child, p, c, q);
      }
    }
    if Unmapped(m.pt[parent], INIT_HEAP, TEMP_END) {
      forall p | INIT_HEAP <= p < TEMP_END ensures m.pt[parent][p] == NONE {
        assert Private(p) && EntryOwns(m.used, m.pt[parent][p]);
      }
      assert x.pt[parent] == m.pt[parent];
    }
    assert forall p :: INIT_HEAP <= p < TEMP_END ==> x.pt[parent][p] == NONE;
  }

  /** An owned frame is mapped by no other entry, not even a code entry. */
  lemma OnlyOwner(m: Mem, d: nat, p: nat, c: nat, q: nat)
    requires Own(m) && d < NR_TABLES && c < NR_TABLES && Private(p) && INIT_CODE <= q < TOTAL_PAGES
    requires m.pt[d][p].present && m.pt[c][q].frame == m.pt[d][p].frame
    ensures d == c && p == q
  {
    assert EntryOwns(m.used, m.pt[d][p]);
    if q < INIT_DATA {
      CodeFramesAreLow(m, c, q);
    } else {
      assert Private(q) && EntryOwns(m.used, m.pt[c][q]);
    }
  }

  lemma CodeFramesAreLow(m: Mem, c: nat, q: nat)
    requires Own(m) && c < NR_TABLES && INIT_CODE <= q < INIT_DATA
    ensures m.pt[c][q].frame < FIRST_OWNED
  {
    assert m.pt[c][q].frame == 0 || m.pt[c][q].frame == CodeFrame(q);
  }

  ghost predicate Unmapped(row: Row, lo: nat, hi: nat)
    requires hi <= |row|
  {
    forall p :: lo <= p < hi ==> !row[p].present
  }

  /** The data pages are mapped, as they are for a process that runs. */
  ghost predicate DataMapped(row: Row)
    requires |row| == TOTAL_PAGES
  {
    forall p :: INIT_DATA <= p < INIT_HEAP ==> row[p].present && row[p].frame < TOTAL_PAGES
  }

  /** If a fork into the table `child` gets as far as copying, the pages that it reads are mapped. (A fork into
      the current table itself has filled them by then.) */
  ghost predicate CanCopy(m: Mem, child: nat)
    requires Shape(m)
  {
    CanFork(m) && child != m.cr3 ==> DataMapped(m.pt[m.cr3])
  }

  // ---------------------------------------------------------------- no frame is lost

  ghost predicate HasOwner(m: Mem, f: nat)
    requires Shape(m)
  {
    exists d, p :: 0 <= d < NR_TABLES && Private(p) && m.pt[d][p] == Entry(true, f)
  }

  /** Every frame that alloc_frame has handed out is mapped somewhere. */
  ghost predicate NoneLost(m: Mem)
    requires Shape(m)
  {
    forall f :: FIRST_OWNED <= f < TOTAL_PAGES && f % 2 == 0 && m.used[f] ==> HasOwner(m, f)
  }

  lemma AllocLosesNone(m: Mem, d: nat)
    requires Own(m) && d < NR_TABLES && NoneLost(m)
    ensures NoneLost(Alloc(m, d))
  {
    if CanAlloc(m, d) {
      var x := Alloc(m, d);
      var h := FirstHole(m.pt[d], INIT_HEAP);
      assert Private(h) && EntryOwns(m.used, m.pt[d][h]);
      forall f | FIRST_OWNED <= f < TOTAL_PAGES && f % 2 == 0 && x.used[f]
        ensures HasOwner(x, f)
      {
        if f == FreeList(m.used)[0] {
          assert Private(h) && x.pt[d][h] == Entry(true, f);
        } else {
          var c, p :| 0 <= c < NR_TABLES && Private(p) && m.pt[c][p] == Entry(true, f);
          assert x.pt[c][p] == Entry(true, f);
        }
      }
    }
  }

  lemma DeallocLosesNone(m: Mem, d: nat, q: nat)
    requires Own(m) && d < NR_TABLES && NoneLost(m)
    ensures NoneLost(Dealloc(m, d, q))
  {
    if DeallocResult(m, d, q) == 0 {
      var x, g := Dealloc(m, d, q), m.pt[d][q].frame;
      FreedFramesAreOwned(m, d, q);
      hide Owned, SharedAreUsed;
      assert x.used == m.used[g := false];
      forall f | FIRST_OWNED <= f < TOTAL_PAGES && f % 2 == 0 && x.used[f]
        ensures HasOwner(x, f)
      {
        assert m.used[f] && f != g;
        var c, p :| 0 <= c < NR_TABLES && Private(p) && m.pt[c][p] == Entry(true, f);
        assert x.pt[c][p] == Entry(true, f);
      }
    }
  }

  lemma ExitLosesNone(m: Mem, d: nat)
    requires Own(m) && d < NR_TABLES && NoneLost(m)
    ensures NoneLost(Exit(m, d))
  {
    var x := Exit(m, d);
    forall f | FIRST_OWNED <= f < TOTAL_PAGES && f % 2 == 0 && x.used[f]
      ensures HasOwner(x, f)
    {
      var c, p :| 0 <= c < NR_TABLES && Private(p) && m.pt[c][p] == Entry(true, f);
      assert f !in DataFrames(m.pt[d]);
      assert x.pt[c][p] == Entry(true, f);
    }
  }

  /** A fork that succeeds loses frames exactly if the parent has one of the pages mapped that fork uses as a
      window to the child, or the slot that the child gets still maps data pages. */
  lemma ForkLosesNoneExactly(m: Mem, parent: nat, child: nat)
    requires Own(m) && parent < NR_TABLES && child < NR_TABLES && NoneLost(m) && CanFork(m)
    ensures NoneLost(Fork(m, parent, child))
            <==> Unmapped(m.pt[parent], INIT_HEAP, TEMP_END) && Unmapped(m.pt[child], INIT_DATA, INIT_HEAP)
  {
    if Unmapped(m.pt[parent], INIT_HEAP, TEMP_END) && Unmapped(m.pt[child], INIT_DATA, INIT_HEAP) {
      ForkLosesNone(m, parent, child);
    } else if !Unmapped(m.pt[parent], INIT_HEAP, TEMP_END) {
      var p :| INIT_HEAP <= p < TEMP_END && m.pt[parent][p].present;
      ForkLoses(m, parent, child, parent, p);
    } else {
      var p :| INIT_DATA <= p < INIT_HEAP && m.pt[child][p].present;
      ForkLoses(m, parent, child, child, p);
    }
  }

  lemma ForkLosesNone(m: Mem, parent: nat, child: nat)
    requires Own(m) && parent < NR_TABLES && child < NR_TABLES && NoneLost(m) && CanFork(m)
    requires Unmapped(m.pt[parent], INIT_HEAP, TEMP_END) && Unmapped(m.pt[child], INIT_DATA, INIT_HEAP)
    ensures NoneLost(Fork(m, parent, child))
  {
    var x := Fork(m, parent, child);
    var fs := FreeList(m.used)[..NUM_PAG_DATA];
    forall f | FIRST_OWNED <= f < TOTAL_PAGES && f % 2 == 0 && x.used[f]
      ensures HasOwner(x, f)
    {
      if f in fs {
        var k :| 0 <= k < NUM_PAG_DATA && fs[k] == f;
        assert Private(INIT_DATA + k) && x.pt[child][INIT_DATA + k] == Entry(true, f);
      } else {
        var d, p :| 0 <= d < NR_TABLES && Private(p) && m.pt[d][p] == Entry(true, f);
        assert x.pt[d][p] == Entry(true, f);
      }
    }
  }

  /** A fork that fails loses frames exactly if the child's slot maps one of the pages it got frames for. */
  lemma FailedForkLosesNoneExactly(m: Mem, parent: nat, child: nat)
    requires Own(m) && parent < NR_TABLES && child < NR_TABLES && NoneLost(m) && !CanFork(m)
    ensures NoneLost(Fork(m, parent, child)) <==> Unmapped(m.pt[child], INIT_DATA, INIT_DATA + |FreeList(m.used)|)
  {
    ForkFailsOwn(m, child);
    var x, n := Fork(m, parent, child), INIT_DATA + |FreeList(m.used)|;
    if Unmapped(m.pt[child], INIT_DATA, n) {
      forall f | FIRST_OWNED <= f < TOTAL_PAGES && f % 2 == 0 && x.used[f]
        ensures HasOwner(x, f)
      {
        var d, p :| 0 <= d < NR_TABLES && Private(p) && m.pt[d][p] == Entry(true, f);
        assert x.pt[d][p] == Entry(true, f);
      }
    } else {
      var p :| INIT_DATA <= p < n && m.pt[child][p].present;
      assert Private(p) && EntryOwns(m.used, m.pt[child][p]);
      var f := m.pt[child][p].frame;
      forall c, q | 0 <= c < NR_TABLES && Private(q) ensures x.pt[c][q] != Entry(true, f) {
        if m.pt[c][q] == Entry(true, f) {
          assert c == child && q == p;
        }
      }
      assert !HasOwner(x, f);
    }
  }

  /** The frame of an entry that fork overwrites or sweeps away. */
  lemma ForkLoses(m: Mem, parent: nat, child: nat, d: nat, p: nat)
    requires Own(m) && parent < NR_TABLES && child < NR_TABLES && CanFork(m)
    requires (d == parent && INIT_HEAP <= p < TEMP_END) || (d == child && INIT_DATA <= p < INIT_HEAP)
    requires m.pt[d][p].present
    ensures !NoneLost(Fork(m, parent, child))
  {
    var x, f := Fork(m, parent, child), m.pt[d][p].frame;
    assert Private(p) && EntryOwns(m.used, m.pt[d][p]);
    assert x.used[f];
    forall c, q | 0 <= c < NR_TABLES && Private(q)
      ensures x.pt[c][q] != Entry(true, f)
    {
      ForkedEntry(m, parent, child, c, q);
      if q < INIT_HEAP {
        FreeFramesAreNobodys(m, q - INIT_DATA);
      }
      if m.pt[c][q] == Entry(true, f) {
        assert c == d && q == p;
      }
    }
    assert !HasOwner(x, f);
  }

  // ---------------------------------------------------------------- the TLB

  /** No translation that the TLB may hold disagrees with the current table. */
  ghost predicate Coherent(m: Mem)
    requires Shape(m)
  {
    forall p: nat, f: nat :: (p, f) in m.seen ==> p < TOTAL_PAGES && m.pt[m.cr3][p] == Entry(true, f)
  }

  lemma SetCr3Coherent(m: Mem, d: nat)
    requires Shape(m) && d < NR_TABLES
    ensures Coherent(SetCr3(m, d))
  {
  }

  lemma AllocCoherent(m: Mem)
    requires Own(m) && Coherent(m)
    ensures Coherent(Alloc(m, m.cr3))
  {
    if CanAlloc(m, m.cr3) {
      var h := FirstHole(m.pt[m.cr3], INIT_HEAP);
      assert Private(h) && EntryOwns(m.used, m.pt[m.cr3][h]);
    }
  }

  lemma DeallocCoherent(m: Mem, p: nat)
    requires Own(m) && Coherent(m)
    ensures Coherent(Dealloc(m, m.cr3, p))
  {
  }

  /** fork leaves a TLB that may be wrong exactly if it fails after it has used the current table as the
      child's table. */
  lemma ForkCoherentExactly(m: Mem, child: nat)
    requires Own(m) && child < NR_TABLES && Coherent(m)
    ensures Coherent(Fork(m, m.cr3, child)) <==> child != m.cr3 || CanFork(m) || FreeList(m.used) == []
  {
    var x := Fork(m, m.cr3, child);
    if CanFork(m) {
      SetCr3Coherent(x, x.cr3);
    } else if child == m.cr3 {
      var fs := FreeList(m.used);
      if fs == [] {
        assert x.seen == m.seen;
        assert x.pt[child] == m.pt[child];
      } else {
        assert (INIT_DATA + 0, fs[0]) in x.seen;
        assert x.pt[x.cr3][INIT_DATA] == NONE;
      }
    }
  }
}
