/** Who owns which frame, and whether the TLB can be wrong. */
module PagingInvariant {
  import opened Paging

  predicate Private(p: int) {
    INIT_DATA <= p < TOTAL_PAGES
  }

  predicate EntryOwns(used: seq<bool>, e: Entry) {
    if e.present then FIRST_OWNED <= e.frame < |used| && e.frame % 2 == 0 && used[e.frame] else e == NONE
  }

  /** Each data or heap entry of any of the ten tables, in use or not, is empty or names a frame of its own. */
  ghost predicate Owned(m: Mem)
    requires Shape(m)
  {
    && (forall d, p :: 0 <= d < NR_TABLES && Private(p) ==> EntryOwns(m.used, m.pt[d][p]))
    && (forall d, p, c, q :: 0 <= d < NR_TABLES && Private(p) && 0 <= c < NR_TABLES && Private(q)
                             && m.pt[d][p].present && m.pt[c][q].present && m.pt[d][p].frame == m.pt[c][q].frame
                             ==> d == c && p == q)
  }

  function CodeFrame(p: int): nat
    requires p >= INIT_CODE
  {
    NUM_PAG_KERNEL + 2 * (p - INIT_CODE)
  }

  /** The kernel's frames and the eight frames of init's code are never free, and code pages map nothing else. */
  ghost predicate SharedAreUsed(m: Mem)
    requires Shape(m)
  {
    && (forall f :: 0 <= f < NUM_PAG_KERNEL ==> m.used[f])
    && (forall f :: NUM_PAG_KERNEL <= f < FIRST_OWNED && f % 2 == 0 ==> m.used[f])
    && (forall d, p :: 0 <= d < NR_TABLES && INIT_CODE <= p < INIT_DATA ==>
                         m.pt[d][p].frame == 0 || m.pt[d][p].frame == CodeFrame(p))
  }

  ghost predicate Own(m: Mem) {
    Shape(m) && Owned(m) && SharedAreUsed(m)
  }

  // ---------------------------------------------------------------- the free list of an owned memory

  /** alloc_frame never hands out a frame that the kernel uses, that is code, or that some table owns. */
  lemma FreeFramesAreNobodys(m: Mem, k: nat)
    requires Own(m) && k < |FreeList(m.used)|
    ensures var f := FreeList(m.used)[k];
            && FIRST_OWNED <= f < TOTAL_PAGES && f % 2 == 0 && !m.used[f]
            && (forall d, p :: 0 <= d < NR_TABLES && INIT_CODE <= p < TOTAL_PAGES ==> m.pt[d][p].frame != f)
  {
    FreeListSound(m.used, NUM_PAG_KERNEL);
    var f := FreeList(m.used)[k];
    assert f % 2 == 0 && !m.used[f];
    assert f >= FIRST_OWNED;
    forall d, p | 0 <= d < NR_TABLES && INIT_CODE <= p < TOTAL_PAGES
      ensures m.pt[d][p].frame != f
    {
      if p < INIT_DATA {
        assert m.pt[d][p].frame == 0 || m.pt[d][p].frame == CodeFrame(p);
      } else {
        assert Private(p) && EntryOwns(m.used, m.pt[d][p]);
      }
    }
  }

  // ---------------------------------------------------------------- ownership step by step

  lemma AllocEffect(m: Mem, d: nat)
    requires Shape(m) && d < NR_TABLES && CanAlloc(m, d)
    ensures var x, h, f := Alloc(m, d), FirstHole(m.pt[d], INIT_HEAP), FreeList(m.used)[0];
            && f < TOTAL_PAGES && h < TOTAL_PAGES && x.used == m.used[f := true]
            && (forall c, p :: 0 <= c < NR_TABLES && 0 <= p < TOTAL_PAGES ==>
                  x.pt[c][p] == if c == d && p == h then Entry(true, f) else m.pt[c][p])
  {
    FreeListSound(m.used, NUM_PAG_KERNEL);
  }

  lemma AllocOwn(m: Mem, d: nat)
    requires Own(m) && d < NR_TABLES
    ensures Own(Alloc(m, d))
  {
    if CanAlloc(m, d) {
      AllocEffect(m, d);
      FreeFramesAreNobodys(m, 0);
      hide Alloc, FreeFrom, FirstHole;
      var x := Alloc(m, d);
      forall c, p | 0 <= c < NR_TABLES && Private(p)
        ensures EntryOwns(x.used, x.pt[c][p])
      {
        assert EntryOwns(m.used, m.pt[c][p]);
      }
    }
  }

  /** Every frame that the kernel gives to free_frame is above 256, so it is really freed. */
  lemma FreedFramesAreOwned(m: Mem, d: nat, p: nat)
    requires Own(m) && d < NR_TABLES && Private(p)
    ensures m.pt[d][p].frame == 0 || FIRST_OWNED <= m.pt[d][p].frame < TOTAL_PAGES
  {
    assert EntryOwns(m.used, m.pt[d][p]);
  }

  lemma DeallocEffect(m: Mem, d: nat, p: nat)
    requires Own(m) && d < NR_TABLES && DeallocResult(m, d, p) == 0
    ensures var x, g := Dealloc(m, d, p), m.pt[d][p].frame;
            && m.pt[d][p] == Entry(true, g) && FIRST_OWNED <= g < TOTAL_PAGES && x.used == m.used[g := false]
            && (forall c, q :: 0 <= c < NR_TABLES && 0 <= q < TOTAL_PAGES ==>
                  x.pt[c][q] == if c == d && q == p then NONE else m.pt[c][q])
            && (forall c, q :: 0 <= c < NR_TABLES && Private(q) && m.pt[c][q].present && !(c == d && q == p) ==>
                  m.pt[c][q].frame != g)
  {
    FreedFramesAreOwned(m, d, p);
    assert Private(p) && EntryOwns(m.used, m.pt[d][p]);
  }

  lemma DeallocOwn(m: Mem, d: nat, p: nat)
    requires Own(m) && d < NR_TABLES
    ensures Own(Dealloc(m, d, p))
  {
    if DeallocResult(m, d, p) >= 0 {
      DeallocEffect(m, d, p);
      hide Dealloc;
      var x := Dealloc(m, d, p);
      forall c, q | 0 <= c < NR_TABLES && Private(q)
        ensures EntryOwns(x.used, x.pt[c][q])
      {
        assert EntryOwns(m.used, m.pt[c][q]);
      }
    }
  }

  lemma InDataFrames(row: Row, f: nat) returns (q: nat)
    requires |row| == TOTAL_PAGES && f in DataFrames(row)
    ensures INIT_DATA <= q < INIT_HEAP && row[q].frame == f
  {
    q :| INIT_DATA <= q < INIT_HEAP && row[q].frame == f;
  }

  lemma ExitKeepsOthers(m: Mem, d: nat, c: nat, p: nat)
    requires Own(m) && d < NR_TABLES && c < NR_TABLES && Private(p) && Exit(m, d).pt[c][p].present
    ensures EntryOwns(Exit(m, d).used, m.pt[c][p])
  {
    assert EntryOwns(m.used, m.pt[c][p]);
    var f := m.pt[c][p].frame;
    forall q | INIT_DATA <= q < INIT_HEAP
      ensures m.pt[d][q].frame != f
    {
      assert Private(q) && EntryOwns(m.used, m.pt[d][q]);
    }
  }

  lemma ExitOwned(m: Mem, d: nat)
    requires Own(m) && d < NR_TABLES
    ensures Owned(Exit(m, d))
  {
    hide SharedAreUsed;
    var x := Exit(m, d);
    forall c, p | 0 <= c < NR_TABLES && Private(p)
      ensures EntryOwns(x.used, x.pt[c][p]) && (x.pt[c][p].present ==> x.pt[c][p] == m.pt[c][p])
    {
      if x.pt[c][p].present {
        ExitKeepsOthers(m, d, c, p);
      } else {
        assert EntryOwns(m.used, m.pt[c][p]);
      }
    }
  }

  lemma ExitShared(m: Mem, d: nat)
    requires Own(m) && d < NR_TABLES
    ensures SharedAreUsed(Exit(m, d))
  {
    hide Owned;
    var x := Exit(m, d);
    forall f | NUM_PAG_KERNEL <= f < FIRST_OWNED && f % 2 == 0
      ensures x.used[f]
    {
      if f in DataFrames(m.pt[d]) {
        var q := InDataFrames(m.pt[d], f);
        FreedFramesAreOwned(m, d, q);
      }
    }
    assert forall c, p :: 0 <= c < NR_TABLES && INIT_CODE <= p < INIT_DATA ==> x.pt[c][p] == m.pt[c][p];
  }

  lemma ExitOwn(m: Mem, d: nat)
    requires Own(m) && d < NR_TABLES
    ensures Own(Exit(m, d))
  {
    hide Owned, SharedAreUsed, Exit;
    ExitOwned(m, d);
    ExitShared(m, d);
  }

  lemma ForkFailsOwn(m: Mem, child: nat)
    requires Own(m) && child < NR_TABLES && !CanFork(m)
    ensures Own(ForkFails(m, child))
    ensures ForkFails(m, child).used == m.used
  {
    hide FreeFrom;
    var x := ForkFails(m, child);
    FreeListSound(m.used, NUM_PAG_KERNEL);
    assert m.used[NUM_PAG_KERNEL];
    assert x.used == m.used;
  }

  /** Every entry of a table after fork is gone, unchanged, shared with the parent, or one of the new data
      pages. */
  lemma ForkedEntry(m: Mem, parent: nat, child: nat, d: nat, p: nat)
    requires Shape(m) && parent < NR_TABLES && child < NR_TABLES && CanFork(m)
    requires d < NR_TABLES && INIT_CODE <= p < TOTAL_PAGES
    ensures var x := ForkSucceeds(m, parent, child);
            || x.pt[d][p] == NONE || x.pt[d][p] == m.pt[d][p]
            || (p < INIT_DATA && x.pt[d][p].frame == m.pt[parent][p].frame)
            || (d == child && Private(p) && p < INIT_HEAP
                && x.pt[d][p] == Entry(true, FreeList(m.used)[p - INIT_DATA]))
  {
  }

  lemma ForkUses(m: Mem, parent: nat, child: nat)
    requires Shape(m) && parent < NR_TABLES && child < NR_TABLES && CanFork(m)
    ensures var x := ForkSucceeds(m, parent, child);
            forall f :: 0 <= f < TOTAL_PAGES ==> (x.used[f] <==> m.used[f] || f in FreeList(m.used)[..NUM_PAG_DATA])
  {
    hide FreeFrom;
  }

  lemma ForkEntryOwns(m: Mem, parent: nat, child: nat, d: nat, p: nat)
    requires Own(m) && parent < NR_TABLES && child < NR_TABLES && CanFork(m) && d < NR_TABLES && Private(p)
    ensures EntryOwns(ForkSucceeds(m, parent, child).used, ForkSucceeds(m, parent, child).pt[d][p])
  {
    assert EntryOwns(m.used, m.pt[d][p]);
    ForkUses(m, parent, child);
    ForkedEntry(m, parent, child, d, p);
    hide ForkSucceeds, FreeFrom, SharedAreUsed, Owned;
    if p < INIT_HEAP {
      FreeFramesAreNobodys(m, p - INIT_DATA);
      var fs := FreeList(m.used)[..NUM_PAG_DATA];
      assert fs[p - INIT_DATA] in fs;
    }
  }

  lemma ForkUnique(m: Mem, parent: nat, child: nat, d: nat, p: nat, c: nat, q: nat)
    requires Own(m) && parent < NR_TABLES && child < NR_TABLES && CanFork(m)
    requires d < NR_TABLES && Private(p) && c < NR_TABLES && Private(q)
    requires var x := ForkSucceeds(m, parent, child);
             x.pt[d][p].present && x.pt[c][q].present && x.pt[d][p].frame == x.pt[c][q].frame
    ensures d == c && p == q
  {
    ForkedEntry(m, parent, child, d, p);
    ForkedEntry(m, parent, child, c, q);
    hide ForkSucceeds, FreeFrom, SharedAreUsed;
    FreeListSound(m.used, NUM_PAG_KERNEL);
    if p < INIT_HEAP {
      FreeFramesAreNobodys(m, p - INIT_DATA);
    }
    if q < INIT_HEAP {
      FreeFramesAreNobodys(m, q - INIT_DATA);
    }
  }

  lemma ForkShares(m: Mem, parent: nat, child: nat)
    requires Own(m) && parent < NR_TABLES && child < NR_TABLES && CanFork(m)
    ensures SharedAreUsed(ForkSucceeds(m, parent, child))
  {
    var x := ForkSucceeds(m, parent, child);
    ForkUses(m, parent, child);
    hide ForkSucceeds, FreeFrom, Owned;
    forall d, p | 0 <= d < NR_TABLES && INIT_CODE <= p < INIT_DATA
      ensures x.pt[d][p].frame == 0 || x.pt[d][p].frame == CodeFrame(p)
    {
      ForkedEntry(m, parent, child, d, p);
    }
  }

  lemma ForkSucceedsOwn(m: Mem, parent: nat, child: nat)
    requires Own(m) && parent < NR_TABLES && child < NR_TABLES && CanFork(m)
    ensures Own(ForkSucceeds(m, parent, child))
  {
    hide ForkSucceeds, FreeFrom, EntryOwns, SharedAreUsed;
    var x := ForkSucceeds(m, parent, child);
    ForkShares(m, parent, child);
    forall d, p | 0 <= d < NR_TABLES && Private(p) ensures EntryOwns(x.used, x.pt[d][p]) {
      ForkEntryOwns(m, parent, child, d, p);
    }
    forall d, p, c, q | 0 <= d < NR_TABLES && Private(p) && 0 <= c < NR_TABLES && Private(q)
                        && x.pt[d][p].present && x.pt[c][q].present && x.pt[d][p].frame == x.pt[c][q].frame
      ensures d == c && p == q
    {
      ForkUnique(m, parent, child, d, p, c, q);
    }
  }

  /** Whatever fork, alloc, dealloc and exit are called on, every frame keeps at most one owner. */
  lemma ForkOwn(m: Mem, parent: nat, child: nat)
    requires Own(m) && parent < NR_TABLES && child < NR_TABLES
    ensures Own(Fork(m, parent, child))
  {
    if CanFork(m) {
      ForkSucceedsOwn(m, parent, child);
    } else {
      ForkFailsOwn(m, child);
    }
  }

  // ---------------------------------------------------------------- what the TLB may hold

  /** The TLB may hold whatever the current table says, and never leads user pages outside the memory. */
  ghost predicate TlbCovers(m: Mem)
    requires Shape(m)
  {
    && Translations(m.pt[m.cr3]) <= m.seen
    && (forall p: nat, f: nat :: (p, f) in m.seen && Private(p) ==> f < TOTAL_PAGES)
  }

  ghost predicate MemInv(m: Mem) {
    Own(m) && TlbCovers(m)
  }

  lemma SetCr3Inv(m: Mem, d: nat)
    requires Own(m) && d < NR_TABLES
    ensures MemInv(SetCr3(m, d))
  {
    forall p: nat, f: nat | (p, f) in SetCr3(m, d).seen && Private(p)
      ensures f < TOTAL_PAGES
    {
      assert EntryOwns(m.used, m.pt[d][p]);
    }
  }

  lemma AllocInv(m: Mem)
    requires MemInv(m)
    ensures MemInv(Alloc(m, m.cr3))
  {
    AllocOwn(m, m.cr3);
    if CanAlloc(m, m.cr3) {
      FreeFramesAreNobodys(m, 0);
    }
  }

  lemma DeallocInv(m: Mem, p: nat)
    requires MemInv(m)
    ensures MemInv(Dealloc(m, m.cr3, p))
  {
    DeallocOwn(m, m.cr3, p);
    if DeallocResult(m, m.cr3, p) >= 0 {
      SetCr3Inv(Dealloc(m, m.cr3, p), m.cr3);
    }
  }

  lemma ExitInv(m: Mem)
    requires MemInv(m)
    ensures MemInv(Exit(m, m.cr3))
  {
    ExitOwn(m, m.cr3);
  }

  lemma ForkInv(m: Mem, child: nat)
    requires MemInv(m) && child < NR_TABLES
    ensures MemInv(Fork(m, m.cr3, child))
  {
    ForkOwn(m, m.cr3, child);
    var x := Fork(m, m.cr3, child);
    if CanFork(m) {
      SetCr3Inv(x, x.cr3);
    } else {
      FreeListSound(m.used, NUM_PAG_KERNEL);
    }
  }
}
