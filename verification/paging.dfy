/** Frames, page tables and the TLB of mm.c, and what the system calls of sys.c do to them, as functions of
    the memory-management state. */
module Paging {

  const NR_TABLES: nat := 10
  const TOTAL_PAGES: nat := 1024
  const NUM_PAG_KERNEL: nat := 256
  const NUM_PAG_CODE: nat := 8
  const NUM_PAG_DATA: nat := 20
  const INIT_CODE: nat := 256
  const INIT_DATA: nat := 264
  const INIT_HEAP: nat := 284
  const TEMP_END: nat := 304
  const PAGE_SIZE: nat := 4096
  const FIRST_OWNED: nat := 272

  const E_ACCES: int := -13
  const E_FAULT: int := -14
  const E_NOMEM: int := -12

  /** A page table entry: the present bit and pbase_addr. */
  datatype Entry = Entry(present: bool, frame: nat)

  const NONE: Entry := Entry(false, 0)

  type Row = seq<Entry>

  /** phys_mem, pagusr_table, the table that cr3 designates, and every translation of the current address
      space that has existed since cr3 was last written: the TLB holds some subset of `seen`. */
  datatype Mem = Mem(used: seq<bool>, pt: seq<Row>, cr3: nat, seen: set<(nat, nat)>)

  predicate Shape(m: Mem) {
    && |m.used| == TOTAL_PAGES && |m.pt| == NR_TABLES && m.cr3 < NR_TABLES
    && (forall d :: 0 <= d < NR_TABLES ==> |m.pt[d]| == TOTAL_PAGES)
  }

  // ---------------------------------------------------------------- frames

  /** The free frames among i, i + 2, i + 4, ...: the candidates of alloc_frame, in its order. */
  function FreeFrom(used: seq<bool>, i: nat): seq<nat>
    decreases |used| - i
  {
    if i >= |used| then [] else (if used[i] then [] else [i]) + FreeFrom(used, i + 2)
  }

  function FreeList(used: seq<bool>): seq<nat> {
    FreeFrom(used, NUM_PAG_KERNEL)
  }

  /** The frame map after the frames in fs are marked. */
  function Mark(used: seq<bool>, fs: set<nat>, v: bool): (r: seq<bool>)
    ensures |r| == |used|
    ensures forall f :: 0 <= f < |used| ==> r[f] == if f in fs then v else used[f]
  {
    seq(|used|, f requires 0 <= f < |used| => if f in fs then v else used[f])
  }

  function Elements(q: seq<nat>): (s: set<nat>)
    ensures forall f :: f in s <==> f in q
  {
    set f | f in q
  }

  // ---------------------------------------------------------------- tables and the TLB

  function Translations(row: Row): (s: set<(nat, nat)>)
    ensures forall p: nat, f: nat :: (p, f) in s <==> 0 <= p < |row| && row[p] == Entry(true, f)
  {
    set p | 0 <= p < |row| && row[p].present :: (p, row[p].frame)
  }

  /** The translations of the pages from lo on that map the frames fs. */
  function Translated(lo: nat, fs: seq<nat>): (s: set<(nat, nat)>)
    ensures forall p: nat, f: nat ::
              (p, f) in s <==> lo <= p < lo + |fs| && fs[p - lo] == f
  {
    set i | 0 <= i < |fs| :: (lo + i, fs[i])
  }

  /** A write of cr3, which empties the TLB. */
  function SetCr3(m: Mem, d: nat): Mem
    requires d < |m.pt|
  {
    m.(cr3 := d, seen := Translations(m.pt[d]))
  }

  function MapPage(m: Mem, d: nat, p: nat, f: nat): Mem
    requires d < |m.pt| && p < |m.pt[d]|
  {
    m.(pt := m.pt[d := m.pt[d][p := Entry(true, f)]],
       seen := if d == m.cr3 then m.seen + {(p, f)} else m.seen)
  }

  function UnmapPage(m: Mem, d: nat, p: nat): Mem
    requires d < |m.pt| && p < |m.pt[d]|
  {
    m.(pt := m.pt[d := m.pt[d][p := NONE]])
  }

  /** The row with the pages from lo up to hi unmapped. */
  function Cleared(row: Row, lo: nat, hi: nat): (r: Row)
    ensures |r| == |row|
    ensures forall p :: 0 <= p < |row| ==> r[p] == if lo <= p < hi then NONE else row[p]
  {
    seq(|row|, p requires 0 <= p < |row| => if lo <= p < hi then NONE else row[p])
  }

  // ---------------------------------------------------------------- alloc and dealloc

  /** The first heap page from p on that maps no frame, or TOTAL_PAGES. */
  function FirstHole(row: Row, p: nat): (h: nat)
    decreases |row| - p
    ensures p <= |row| ==> p <= h <= |row|
    ensures p <= |row| && h < |row| ==> row[h].frame == 0
    ensures forall q :: p <= q < h && q < |row| ==> row[q].frame != 0
  {
    if p >= |row| || row[p].frame == 0 then p else FirstHole(row, p + 1)
  }

  predicate CanAlloc(m: Mem, d: nat)
    requires d < |m.pt| && |m.pt[d]| >= INIT_HEAP
  {
    FirstHole(m.pt[d], INIT_HEAP) < |m.pt[d]| && FreeList(m.used) != []
  }

  function Alloc(m: Mem, d: nat): (x: Mem)
    requires Shape(m) && d < NR_TABLES
    ensures Shape(x)
  {
    if !CanAlloc(m, d) then m
    else
      var f := FreeList(m.used)[0];
      FreeListSound(m.used, NUM_PAG_KERNEL);
      MapPage(m.(used := m.used[f := true]), d, FirstHole(m.pt[d], INIT_HEAP), f)
  }

  function AllocResult(m: Mem, d: nat): int
    requires Shape(m) && d < NR_TABLES
  {
    if CanAlloc(m, d) then FirstHole(m.pt[d], INIT_HEAP) * PAGE_SIZE else E_NOMEM
  }

  /** free_frame does not touch the kernel's frames, nor frame 256. */
  function FreeFrame(used: seq<bool>, f: nat): seq<bool> {
    if NUM_PAG_KERNEL < f < |used| then used[f := false] else used
  }

  function DeallocResult(m: Mem, d: nat, p: nat): int
    requires Shape(m) && d < NR_TABLES
  {
    if p < INIT_HEAP || p >= TOTAL_PAGES then E_ACCES
    else if m.pt[d][p].frame == 0 then E_FAULT
    else 0
  }

  /** dealloc_k in the current address space d. */
  function Dealloc(m: Mem, d: nat, p: nat): (x: Mem)
    requires Shape(m) && d < NR_TABLES
    ensures Shape(x)
  {
    if DeallocResult(m, d, p) < 0 then m
    else SetCr3(UnmapPage(m.(used := FreeFrame(m.used, m.pt[d][p].frame)), d, p), d)
  }

  // ---------------------------------------------------------------- fork and exit

  /** The child's row after fork: the parent's kernel and code frames, the new data frames, and the heap
      entries that the row already had. */
  function ForkedRow(parent: Row, child: Row, fs: seq<nat>): (r: Row)
    requires |parent| == TOTAL_PAGES && |child| == TOTAL_PAGES && |fs| >= NUM_PAG_DATA
    ensures |r| == TOTAL_PAGES
    ensures forall p :: 0 <= p < TOTAL_PAGES ==>
              r[p] == if p < INIT_DATA then Entry(true, parent[p].frame)
                      else if p < INIT_HEAP then Entry(true, fs[p - INIT_DATA])
                      else child[p]
  {
    seq(TOTAL_PAGES, p requires 0 <= p < TOTAL_PAGES =>
      if p < INIT_DATA then Entry(true, parent[p].frame)
      else if p < INIT_HEAP then Entry(true, fs[p - INIT_DATA])
      else child[p])
  }

  predicate CanFork(m: Mem) {
    |FreeList(m.used)| >= NUM_PAG_DATA
  }

  /** fork of a process with table `parent`, which is the current one, into the table `child`. */
  function Fork(m: Mem, parent: nat, child: nat): (x: Mem)
    requires Shape(m) && parent < NR_TABLES && child < NR_TABLES
    ensures Shape(x)
  {
    if CanFork(m) then ForkSucceeds(m, parent, child) else ForkFails(m, child)
  }

  function ForkSucceeds(m: Mem, parent: nat, child: nat): (x: Mem)
    requires Shape(m) && parent < NR_TABLES && child < NR_TABLES && CanFork(m)
    ensures Shape(x)
  {
    var fs := FreeList(m.used)[..NUM_PAG_DATA];
    var built := m.pt[child := ForkedRow(m.pt[parent], m.pt[child], fs)];
    var swept := built[parent := Cleared(built[parent], INIT_HEAP, TEMP_END)];
    SetCr3(m.(used := Mark(m.used, Elements(fs), true), pt := swept), parent)
  }

  /** The frames that could be allocated are freed again, those that free_frame frees. */
  function ForkFails(m: Mem, child: nat): (x: Mem)
    requires Shape(m) && child < NR_TABLES && !CanFork(m)
    ensures Shape(x)
  {
    var fs := FreeList(m.used);
    m.(used := Mark(m.used, Elements(fs) * {NUM_PAG_KERNEL}, true),
       pt := m.pt[child := Cleared(m.pt[child], INIT_DATA, INIT_DATA + |fs|)],
       seen := if child == m.cr3 then m.seen + Translated(INIT_DATA, fs) else m.seen)
  }

  /** The frames of the data pages. */
  function DataFrames(row: Row): set<nat>
    requires |row| == TOTAL_PAGES
  {
    set p | INIT_DATA <= p < INIT_HEAP :: row[p].frame
  }

  /** What exit does before it switches to another task. */
  function Exit(m: Mem, d: nat): (x: Mem)
    requires Shape(m) && d < NR_TABLES
    ensures Shape(x)
  {
    m.(used := Mark(m.used, set f | f in DataFrames(m.pt[d]) && f > NUM_PAG_KERNEL, false),
       pt := m.pt[d := Cleared(m.pt[d], INIT_DATA, INIT_HEAP)])
  }

  // ---------------------------------------------------------------- the free list

  /** Every element of the free list is a free frame that alloc_frame looks at, and they are in order. */
  lemma {:induction false} FreeListSound(used: seq<bool>, i: nat)
    ensures forall k :: 0 <= k < |FreeFrom(used, i)| ==>
              var f := FreeFrom(used, i)[k]; i <= f < |used| && f % 2 == i % 2 && !used[f]
    ensures forall j, k :: 0 <= j < k < |FreeFrom(used, i)| ==> FreeFrom(used, i)[j] < FreeFrom(used, i)[k]
    decreases |used| - i
  {
    if i < |used| {
      FreeListSound(used, i + 2);
      var q, t := FreeFrom(used, i), FreeFrom(used, i + 2);
      assert used[i] ==> q == t;
      assert !used[i] ==> q == [i] + t;
      assert (i + 2) % 2 == i % 2;
    }
  }

  /** Every such frame is in the list. */
  lemma {:induction false} FreeListComplete(used: seq<bool>, i: nat, f: nat)
    requires i <= f < |used| && f % 2 == i % 2 && !used[f]
    ensures f in FreeFrom(used, i)
    decreases |used| - i
  {
    if f != i {
      assert i + 1 != f;
      FreeListComplete(used, i + 2, f);
    }
  }

  /** Taking the first free frame leaves the rest. */
  lemma {:induction false} FreeListTail(used: seq<bool>, i: nat)
    requires FreeFrom(used, i) != []
    ensures i <= FreeFrom(used, i)[0] < |used|
    ensures FreeFrom(used[FreeFrom(used, i)[0] := true], i) == FreeFrom(used, i)[1..]
    decreases |used| - i
  {
    FreeListSound(used, i);
    var f := FreeFrom(used, i)[0];
    if used[i] {
      FreeListTail(used, i + 2);
    } else {
      SameFree(used, used[f := true], i + 2);
    }
  }

  lemma {:induction false} SameFree(a: seq<bool>, b: seq<bool>, i: nat)
    requires |a| == |b| && a[Lesser(i, |a|)..] == b[Lesser(i, |a|)..]
    ensures FreeFrom(a, i) == FreeFrom(b, i)
    decreases |a| - i
  {
    if i < |a| {
      assert a[i] == a[i..][0] && b[i] == b[i..][0];
      var j := Lesser(i + 2, |a|);
      assert a[j..] == a[i..][j - i..] && b[j..] == b[i..][j - i..];
      SameFree(a, b, i + 2);
    }
  }

  function Lesser(i: nat, n: nat): nat {
    if i <= n then i else n
  }
}
