/** The bytes that fork copies, through whatever translations the TLB holds. */
module PageCopies {
  import opened Machine
  import opened Paging
  import opened PagingInvariant
  import opened PagingLaws
  import opened PagingLoops
  import opened Utils

  const RAM_SIZE: nat := TOTAL_PAGES * PAGE_SIZE

  /** The bytes of a frame. */
  function FrameOf(ram: seq<byte>, f: nat): (b: seq<byte>)
    requires |ram| == RAM_SIZE && f < TOTAL_PAGES
    ensures |b| == PAGE_SIZE
  {
    ram[f * PAGE_SIZE..(f + 1) * PAGE_SIZE]
  }

  lemma CopiedFrames(ram: seq<byte>, fs: nat, fd: nat, g: nat)
    requires |ram| == RAM_SIZE && fs < TOTAL_PAGES && fd < TOTAL_PAGES && g < TOTAL_PAGES
    requires fs * PAGE_SIZE + PAGE_SIZE <= RAM_SIZE && fd * PAGE_SIZE + PAGE_SIZE <= RAM_SIZE
    ensures FrameOf(Copied(ram, fs * PAGE_SIZE, fd * PAGE_SIZE, PAGE_SIZE), g) == FrameOf(ram, if g == fd then fs else g)
  {
  }

  /** What a correct fork does to the bytes: the frames of the child's pages from lo up to hi become copies of
      the frames of the parent's pages, and no other frame changes. */
  ghost predicate PagesCopied(before: seq<byte>, after: seq<byte>, parent: Row, child: Row, lo: nat, hi: nat)
    requires |before| == RAM_SIZE && |after| == RAM_SIZE && hi <= |parent| && hi <= |child|
    requires forall p :: lo <= p < hi ==> parent[p].frame < TOTAL_PAGES && child[p].frame < TOTAL_PAGES
  {
    && (forall p :: lo <= p < hi ==> FrameOf(after, child[p].frame) == FrameOf(before, parent[p].frame))
    && (forall f: nat :: f < TOTAL_PAGES && (forall p :: lo <= p < hi ==> child[p].frame != f)
                         ==> FrameOf(after, f) == FrameOf(before, f))
  }

  /** The data pages of the child's row are frames of their own. */
  ghost predicate DataIsNew(parent: Row, child: Row)
    requires |parent| == TOTAL_PAGES && |child| == TOTAL_PAGES
  {
    forall p, q :: INIT_DATA <= p < INIT_HEAP && INIT_DATA <= q < INIT_HEAP ==>
      child[p].frame != parent[q].frame && (p != q ==> child[p].frame != child[q].frame)
  }

  /** The TLB is right, and the pages that fork maps for a moment are not in use. */
  ghost predicate WindowIsClear(m: Mem)
    requires Shape(m)
  {
    Coherent(m) && Unmapped(m.pt[m.cr3], INIT_HEAP, TEMP_END)
  }

  /** What the TLB may hold while the pages up to pag are copied. */
  ghost predicate WindowSeen(m: Mem, child: nat, seen: set<(nat, nat)>, pag: nat)
    requires Shape(m) && child < NR_TABLES && INIT_DATA <= pag <= INIT_HEAP
  {
    && Unmapped(m.pt[m.cr3], INIT_HEAP, TEMP_END)
    && forall p: nat, f: nat :: (p, f) in seen ==>
      && p < TOTAL_PAGES
      && if INIT_HEAP <= p < pag + NUM_PAG_DATA then f == m.pt[child][p - NUM_PAG_DATA].frame
         else m.pt[m.cr3][p] == Entry(true, f)
  }

  /** The memory after a page is copied with some translations that the TLB may hold. */
  ghost predicate PageCopied(seen: set<(nat, nat)>, before: seq<byte>, after: seq<byte>, src: nat, dst: nat)
    requires |before| == RAM_SIZE
  {
    exists fs: nat, fd: nat ::
      && (src, fs) in seen && (dst, fd) in seen && fs < TOTAL_PAGES && fd < TOTAL_PAGES
      && fs * PAGE_SIZE + PAGE_SIZE <= RAM_SIZE && fd * PAGE_SIZE + PAGE_SIZE <= RAM_SIZE
      && after == Copied(before, fs * PAGE_SIZE, fd * PAGE_SIZE, PAGE_SIZE)
  }

  lemma OnePageMore(r0: seq<byte>, r1: seq<byte>, parent: Row, child: Row, pag: nat)
    requires |r0| == RAM_SIZE && |r1| == RAM_SIZE && |parent| == TOTAL_PAGES && |child| == TOTAL_PAGES
    requires INIT_DATA <= pag < INIT_HEAP && DataMapped(parent) && DataMapped(child) && DataIsNew(parent, child)
    requires PagesCopied(r0, r1, parent, child, INIT_DATA, pag)
    ensures parent[pag].frame * PAGE_SIZE + PAGE_SIZE <= RAM_SIZE && child[pag].frame * PAGE_SIZE + PAGE_SIZE <= RAM_SIZE
    ensures PagesCopied(r0, Copied(r1, parent[pag].frame * PAGE_SIZE, child[pag].frame * PAGE_SIZE, PAGE_SIZE),
                        parent, child, INIT_DATA, pag + 1)
  {
    var fs, fd := parent[pag].frame, child[pag].frame;
    var r2 := Copied(r1, fs * PAGE_SIZE, fd * PAGE_SIZE, PAGE_SIZE);
    forall p | INIT_DATA <= p < pag + 1
      ensures FrameOf(r2, child[p].frame) == FrameOf(r0, parent[p].frame)
    {
      CopiedFrames(r1, fs, fd, child[p].frame);
    }
    forall f: nat | f < TOTAL_PAGES && (forall p :: INIT_DATA <= p < pag + 1 ==> child[p].frame != f)
      ensures FrameOf(r2, f) == FrameOf(r0, f)
    {
      CopiedFrames(r1, fs, fd, f);
      assert child[pag].frame != f;
    }
  }

  /** With a right TLB and an unused window, the processor has no choice when it copies page pag. */
  lemma CopyStep(m: Mem, child: nat, pag: nat, s: set<(nat, nat)>, r0: seq<byte>, r1: seq<byte>, r2: seq<byte>)
    requires Shape(m) && child < NR_TABLES && INIT_DATA <= pag < INIT_HEAP && WindowSeen(m, child, s, pag + 1)
    requires |r0| == RAM_SIZE && |r1| == RAM_SIZE && |r2| == RAM_SIZE
    requires DataMapped(m.pt[m.cr3]) && DataMapped(m.pt[child]) && DataIsNew(m.pt[m.cr3], m.pt[child])
    requires PagesCopied(r0, r1, m.pt[m.cr3], m.pt[child], INIT_DATA, pag)
    requires PageCopied(s, r1, r2, pag, pag + NUM_PAG_DATA)
    ensures PagesCopied(r0, r2, m.pt[m.cr3], m.pt[child], INIT_DATA, pag + 1)
  {
    hide PagesCopied, DataIsNew;
    OnePageMore(r0, r1, m.pt[m.cr3], m.pt[child], pag);
  }

  lemma SweepStep(m: Mem, v: Mem, child: nat, pag: nat)
    requires Shape(m) && Shape(v) && child < NR_TABLES && INIT_DATA <= pag < INIT_HEAP && Sweeping(m, v, pag)
    ensures v.pt[child][pag] == m.pt[child][pag] && v.pt[m.cr3][pag] == m.pt[m.cr3][pag]
    ensures Sweeping(m, AfterWindow(v, child, pag), pag + 1)
    ensures WindowSeen(m, child, v.seen, pag) ==> WindowSeen(m, child, AfterWindow(v, child, pag).seen, pag + 1)
  {
    SweepOneMore(m.pt[m.cr3], pag, m.pt[child][pag].frame);
    var x := AfterWindow(v, child, pag);
    assert x.pt[m.cr3] == Cleared(m.pt[m.cr3], INIT_HEAP, pag + NUM_PAG_DATA + 1);
    assert x.pt == m.pt[m.cr3 := Cleared(m.pt[m.cr3], INIT_HEAP, pag + NUM_PAG_DATA + 1)];
  }

  lemma StartSweep(m: Mem, child: nat, ram: seq<byte>)
    requires Shape(m) && child < NR_TABLES && |ram| == RAM_SIZE
    ensures Sweeping(m, m, INIT_DATA)
    ensures WindowIsClear(m) ==> WindowSeen(m, child, m.seen, INIT_DATA)
    ensures DataMapped(m.pt[m.cr3]) && DataMapped(m.pt[child]) ==>
              PagesCopied(ram, ram, m.pt[m.cr3], m.pt[child], INIT_DATA, INIT_DATA)
  {
    assert m.pt[m.cr3] == Cleared(m.pt[m.cr3], INIT_HEAP, INIT_HEAP);
    assert m.pt == m.pt[m.cr3 := Cleared(m.pt[m.cr3], INIT_HEAP, INIT_HEAP)];
  }

  /** Sharing kernel and code leaves the data pages as they are. */
  lemma DataStaysNew(parent: Row, child: Row)
    requires |parent| == TOTAL_PAGES && |child| == TOTAL_PAGES
    ensures DataMapped(child) ==> DataMapped(SharedRow(parent, child, INIT_DATA))
    ensures DataIsNew(parent, child) ==> DataIsNew(parent, SharedRow(parent, child, INIT_DATA))
  {
  }

  lemma FilledForCopying(m: Mem, child: nat)
    requires MemInv(m) && child < NR_TABLES && CanFork(m) && CanCopy(m, child)
    ensures var v := Filling(m, child, INIT_DATA, NUM_PAG_DATA);
            && TlbCovers(v) && DataMapped(v.pt[child]) && DataMapped(v.pt[m.cr3])
            && (child != m.cr3 ==> v.seen == m.seen && v.pt[m.cr3] == m.pt[m.cr3] && DataIsNew(m.pt[m.cr3], v.pt[child]))
  {
    FreeListSound(m.used, NUM_PAG_KERNEL);
    forall p | INIT_DATA <= p < INIT_HEAP
      ensures var f := FreeList(m.used)[p - INIT_DATA];
              f < TOTAL_PAGES && Filling(m, child, INIT_DATA, NUM_PAG_DATA).pt[child][p] == Entry(true, f)
              && forall d, q :: 0 <= d < NR_TABLES && INIT_CODE <= q < TOTAL_PAGES ==> m.pt[d][q].frame != f
    {
      FreeFramesAreNobodys(m, p - INIT_DATA);
    }
  }
}
