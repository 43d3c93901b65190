/** The memory manager with its arrays: phys_mem, the page tables, the physical memory itself and the TLB. */
module MemoryManager {
  import opened Machine
  import opened Paging
  import opened PagingInvariant
  import opened PagingLaws
  import opened PagingLoops
  import opened PageCopies
  import opened Utils

  class Memory {
    const phys: array<bool>
    const table: array2<Entry>
    const ram: array<byte>
    var cr3: nat
    /** The translations of the current address space since the last write of cr3; the TLB may hold any of
        them. */
    var seen: set<(nat, nat)>

    predicate Dimensions() {
      && phys.Length == TOTAL_PAGES
      && table.Length0 == NR_TABLES && table.Length1 == TOTAL_PAGES
      && ram.Length == RAM_SIZE
    }

    ghost predicate Valid()
      reads this
    {
      Dimensions() && cr3 < NR_TABLES
    }

    function RowOf(d: nat): (r: Row)
      requires Dimensions() && d < NR_TABLES
      reads table
      ensures |r| == TOTAL_PAGES && forall p :: 0 <= p < TOTAL_PAGES ==> r[p] == table[d, p]
    {
      seq(TOTAL_PAGES, p requires 0 <= p < TOTAL_PAGES reads table => table[d, p])
    }

    ghost function Rows(): (pt: seq<Row>)
      requires Dimensions()
      reads table
      ensures |pt| == NR_TABLES && forall d :: 0 <= d < NR_TABLES ==> pt[d] == RowOf(d)
    {
      seq(NR_TABLES, d requires 0 <= d < NR_TABLES reads table => RowOf(d))
    }

    /** The state that the specification talks about. */
    ghost function View(): (m: Mem)
      requires Valid()
      reads this, phys, table
      ensures Shape(m)
    {
      Mem(phys[..], Rows(), cr3, seen)
    }

    /** init_mm: the kernel's frames and pages, in the address space of task 0. */
    constructor (ghost guards: set<nat>, first: nat, last: nat)
      requires guards == {first, last} && first < NUM_PAG_KERNEL && last < NUM_PAG_KERNEL
      ensures Valid() && fresh(phys) && fresh(table) && fresh(ram)
      ensures View() == InitMm(guards)
    {
      phys := new bool[TOTAL_PAGES];
      table := new Entry[NR_TABLES, TOTAL_PAGES];
      ram := new byte[RAM_SIZE];
      cr3 := 0;
      seen := {};
      new;
      InitTablePages(guards, first, last);
      InitFrames();
      SetCr3(0);
      assert Rows() == InitMm(guards).pt;
    }

    method InitTablePages(ghost guards: set<nat>, first: nat, last: nat)
      requires Valid() && guards == {first, last} && first < NUM_PAG_KERNEL && last < NUM_PAG_KERNEL
      modifies table
      ensures forall d :: 0 <= d < NR_TABLES ==> RowOf(d) == KernelRow(guards)
    {
      var j := 0;
      while j < NR_TABLES
        invariant 0 <= j <= NR_TABLES
        invariant forall d, p :: 0 <= d < j && 0 <= p < TOTAL_PAGES ==> table[d, p] == KernelRow(guards)[p]
      {
        var i := 0;
        while i < TOTAL_PAGES
          invariant 0 <= i <= TOTAL_PAGES
          invariant forall d, p :: 0 <= d < j && 0 <= p < TOTAL_PAGES ==> table[d, p] == KernelRow(guards)[p]
          invariant forall p :: 0 <= p < i ==> table[j, p] == NONE
        {
          table[j, i] := NONE;
          i := i + 1;
        }
        i := 1;
        while i < NUM_PAG_KERNEL
          invariant 1 <= i <= NUM_PAG_KERNEL
          invariant forall d, p :: 0 <= d < j && 0 <= p < TOTAL_PAGES ==> table[d, p] == KernelRow(guards)[p]
          invariant forall p :: 0 <= p < TOTAL_PAGES ==> table[j, p] == if 1 <= p < i then Entry(true, p) else NONE
        {
          table[j, i] := Entry(true, i);
          i := i + 1;
        }
        table[j, first] := table[j, first].(present := false);
        table[j, last] := table[j, last].(present := false);
        assert forall p :: 0 <= p < TOTAL_PAGES ==> table[j, p] == KernelRow(guards)[p];
        j := j + 1;
      }
    }

    method InitFrames()
      requires Valid()
      modifies phys
      ensures phys[..] == KernelFrames()
    {
      var i := 0;
      while i < TOTAL_PAGES
        invariant 0 <= i <= TOTAL_PAGES
        invariant forall f :: 0 <= f < i ==> !phys[f]
      {
        phys[i] := false;
        i := i + 1;
      }
      i := 0;
      while i < NUM_PAG_KERNEL
        invariant 0 <= i <= NUM_PAG_KERNEL
        invariant forall f :: 0 <= f < TOTAL_PAGES ==> phys[f] == (f < i)
      {
        phys[i] := true;
        i := i + 1;
      }
    }

    method SetUserPages(d: nat)
      requires Valid() && d < NR_TABLES && |FreeList(View().used)| >= NUM_PAG_CODE + NUM_PAG_DATA
      modifies phys, table, this`seen
      ensures Valid() && View() == UserPages(old(View()), d)
    {
      hide Filling, FreeFrom;
      ghost var m := View();
      FillingNothing(m, d, INIT_CODE);
      var pag := 0;
      while pag < NUM_PAG_CODE
        invariant 0 <= pag <= NUM_PAG_CODE && View() == Filling(m, d, INIT_CODE, pag)
      {
        FreeLeft(m, d, INIT_CODE, pag);
        FillOneMore(m, d, INIT_CODE, pag);
        var frame := AllocFrame();
        SetSsPag(d, INIT_CODE + pag, frame);
        pag := pag + 1;
      }
      pag := 0;
      while pag < NUM_PAG_DATA
        invariant 0 <= pag <= NUM_PAG_DATA && View() == Filling(m, d, INIT_CODE, NUM_PAG_CODE + pag)
      {
        FreeLeft(m, d, INIT_CODE, NUM_PAG_CODE + pag);
        FillOneMore(m, d, INIT_CODE, NUM_PAG_CODE + pag);
        var frame := AllocFrame();
        SetSsPag(d, INIT_DATA + pag, frame);
        pag := pag + 1;
      }
    }

    // ---------------------------------------------------------------- single frames and entries

    method AllocFrame() returns (r: int)
      requires Valid()
      modifies phys
      ensures Valid()
      ensures FreeList(old(View()).used) == [] ==> r == -1 && View() == old(View())
      ensures FreeList(old(View()).used) != [] ==>
                && r == FreeList(old(View()).used)[0] && 0 <= r < TOTAL_PAGES
                && View() == old(View()).(used := old(View()).used[r := true])
    {
      var i := NUM_PAG_KERNEL;
      while i < TOTAL_PAGES
        invariant NUM_PAG_KERNEL <= i
        invariant phys[..] == old(phys[..])
        invariant FreeList(phys[..]) == FreeFrom(phys[..], i)
        decreases TOTAL_PAGES - i
      {
        if !phys[i] {
          phys[i] := true;
          return i;
        }
        i := i + 2;
      }
      return -1;
    }

    method FreeFrame(frame: nat)
      requires Valid()
      modifies phys
      ensures Valid() && View() == old(View()).(used := Paging.FreeFrame(old(View()).used, frame))
    {
      if frame > NUM_PAG_KERNEL && frame < TOTAL_PAGES {
        phys[frame] := false;
      }
    }

    method GetFrame(d: nat, page: nat) returns (frame: nat)
      requires Valid() && d < NR_TABLES && page < TOTAL_PAGES
      ensures frame == View().pt[d][page].frame
    {
      frame := table[d, page].frame;
    }

    method SetSsPag(d: nat, page: nat, frame: nat)
      requires Valid() && d < NR_TABLES && page < TOTAL_PAGES
      modifies table, this`seen
      ensures Valid() && View() == MapPage(old(View()), d, page, frame)
    {
      ghost var before := View();
      table[d, page] := Entry(true, frame);
      if d == cr3 {
        seen := seen + {(page, frame)};
      }
      RowUpdated(before, d, page);
    }

    method DelSsPag(d: nat, page: nat)
      requires Valid() && d < NR_TABLES && page < TOTAL_PAGES
      modifies table
      ensures Valid() && View() == UnmapPage(old(View()), d, page)
    {
      ghost var before := View();
      table[d, page] := NONE;
      RowUpdated(before, d, page);
    }

    method SetCr3(d: nat)
      requires Valid() && d < NR_TABLES
      modifies this
      ensures Valid() && View() == Paging.SetCr3(old(View()), d)
    {
      cr3 := d;
      seen := Translations(RowOf(d));
    }

    lemma RowUpdated(before: Mem, d: nat, page: nat)
      requires Valid() && Shape(before) && d < NR_TABLES && page < TOTAL_PAGES
      requires forall c, p :: 0 <= c < NR_TABLES && 0 <= p < TOTAL_PAGES && !(c == d && p == page) ==>
                                table[c, p] == before.pt[c][p]
      ensures Rows() == before.pt[d := before.pt[d][page := table[d, page]]]
    {
      assert RowOf(d) == before.pt[d][page := table[d, page]];
      forall c | 0 <= c < NR_TABLES && c != d ensures RowOf(c) == before.pt[c] {}
    }

    // ---------------------------------------------------------------- alloc and dealloc

    method AllocK(d: nat) returns (r: int)
      requires Valid() && d < NR_TABLES
      modifies phys, table, this`seen
      ensures Valid() && r == AllocResult(old(View()), d) && View() == Alloc(old(View()), d)
    {
      ghost var row := RowOf(d);
      var lpage, found := 0, false;
      var i := INIT_HEAP;
      while i < TOTAL_PAGES && !found
        invariant INIT_HEAP <= i <= TOTAL_PAGES && View() == old(View())
        invariant !found ==> FirstHole(row, INIT_HEAP) == FirstHole(row, i)
        invariant found ==> lpage == FirstHole(row, INIT_HEAP) && lpage < TOTAL_PAGES
      {
        var fpage := GetFrame(d, i);
        if fpage == 0 {
          lpage, found := i, true;
        }
        i := i + 1;
      }
      if found {
        var frame := AllocFrame();
        if frame == -1 {
          return E_NOMEM;
        }
        SetSsPag(d, lpage, frame);
        return lpage * PAGE_SIZE;
      } else {
        return E_NOMEM;
      }
    }

    method DeallocK(d: nat, lpage: nat) returns (r: int)
      requires Valid() && d < NR_TABLES
      modifies phys, table, this
      ensures Valid() && r == DeallocResult(old(View()), d, lpage) && View() == Dealloc(old(View()), d, lpage)
    {
      if lpage < INIT_HEAP || lpage >= TOTAL_PAGES {
        return E_ACCES;
      }
      var frame := GetFrame(d, lpage);
      if frame == 0 {
        return E_FAULT;
      }
      FreeFrame(frame);
      DelSsPag(d, lpage);
      SetCr3(d);
      return 0;
    }

    // ---------------------------------------------------------------- fork

    /** Allocates the child's data pages, or gives back what it got and says no. */
    method AllocDataPages(child: nat) returns (ok: bool)
      requires Valid() && child < NR_TABLES
      modifies phys, table, this`seen
      ensures Valid() && ok == CanFork(old(View()))
      ensures View() == if ok then Filling(old(View()), child, INIT_DATA, NUM_PAG_DATA) else ForkFails(old(View()), child)
    {
      hide Filling, Rolling, FreeFrom, ForkFails;
      ghost var m := View();
      FillingNothing(m, child, INIT_DATA);
      var pag := 0;
      while pag < NUM_PAG_DATA
        invariant 0 <= pag <= NUM_PAG_DATA && pag <= |FreeList(m.used)|
        invariant View() == Filling(m, child, INIT_DATA, pag)
      {
        FreeLeft(m, child, INIT_DATA, pag);
        var frame := AllocFrame();
        if frame != -1 {
          FillOneMore(m, child, INIT_DATA, pag);
          SetSsPag(child, INIT_DATA + pag, frame);
        } else {
          RollingEnds(m, child);
          var i := 0;
          while i < pag
            invariant 0 <= i <= pag
            invariant View() == Rolling(m, child, i)
          {
            RollOneMore(m, child, i);
            var f := GetFrame(child, INIT_DATA + i);
            FreeFrame(f);
            DelSsPag(child, INIT_DATA + i);
            i := i + 1;
          }
          return false;
        }
        pag := pag + 1;
      }
      return true;
    }

    /** Maps the parent's kernel and code frames in the child's table. */
    method ShareKernelAndCode(parent: nat, child: nat)
      requires Valid() && parent < NR_TABLES && child < NR_TABLES && TlbCovers(View())
      modifies table, this`seen
      ensures Valid() && TlbCovers(View()) && seen >= old(seen) && (child != cr3 ==> seen == old(seen))
      ensures View().pt == old(View()).pt[child := SharedRow(old(View()).pt[parent], old(View()).pt[child], INIT_DATA)]
    {
      ghost var m := View();
      SharingNothing(m, parent, child);
      var pag := 0;
      while pag < NUM_PAG_KERNEL
        invariant 0 <= pag <= NUM_PAG_KERNEL
        invariant View().pt == m.pt[child := SharedRow(m.pt[parent], m.pt[child], pag)]
        invariant TlbCovers(View()) && seen >= old(seen) && (child != cr3 ==> seen == old(seen))
      {
        var f := GetFrame(parent, pag);
        SetSsPag(child, pag, f);
        ShareOneMore(m, parent, child, pag);
        pag := pag + 1;
      }
      pag := 0;
      while pag < NUM_PAG_CODE
        invariant 0 <= pag <= NUM_PAG_CODE
        invariant View().pt == m.pt[child := SharedRow(m.pt[parent], m.pt[child], INIT_CODE + pag)]
        invariant TlbCovers(View()) && seen >= old(seen) && (child != cr3 ==> seen == old(seen))
      {
        var f := GetFrame(parent, INIT_CODE + pag);
        SetSsPag(child, INIT_CODE + pag, f);
        ShareOneMore(m, parent, child, INIT_CODE + pag);
        pag := pag + 1;
      }
    }

    // ---------------------------------------------------------------- copying pages through the TLB

    /** copy_data from one page of the current address space to another: the processor uses whichever
        translations it has. */
    method CopyPage(src: nat, dst: nat)
      requires Valid() && Private(src) && Private(dst) && TlbCovers(View())
      requires View().pt[cr3][src].present && View().pt[cr3][dst].present
      modifies ram
      ensures Valid()
      ensures PageCopied(seen, old(ram[..]), ram[..], src, dst)
    {
      assert (src, View().pt[cr3][src].frame) in seen && (dst, View().pt[cr3][dst].frame) in seen;
      var s :| s in seen && s.0 == src;
      var d :| d in seen && d.0 == dst;
      var from, to := s.1, d.1;
      assert from * PAGE_SIZE + PAGE_SIZE <= RAM_SIZE && to * PAGE_SIZE + PAGE_SIZE <= RAM_SIZE;
      SafeIsRight(ram[..], from * PAGE_SIZE, to * PAGE_SIZE, PAGE_SIZE);
      hide Forward;
      CopyData(ram, from * PAGE_SIZE, to * PAGE_SIZE, PAGE_SIZE);
      assert (src, from) in seen && (dst, to) in seen;
    }

    /** One round of the copy loop: maps the child's frame in the parent's window, copies, and unmaps it. */
    method CopyThroughWindow(child: nat, pag: nat)
      requires Valid() && child < NR_TABLES && INIT_DATA <= pag < INIT_HEAP && TlbCovers(View())
      requires View().pt[cr3][pag].present && View().pt[child][pag].frame < TOTAL_PAGES
      modifies table, ram, this`seen
      ensures Valid() && TlbCovers(View()) && View() == AfterWindow(old(View()), child, pag)
      ensures PageCopied(seen, old(ram[..]), ram[..], pag, pag + NUM_PAG_DATA)
    {
      WindowInSteps(View(), child, pag);
      hide MapPage, UnmapPage, AfterWindow, TlbCovers, PageCopied;
      var f := GetFrame(child, pag);
      SetSsPag(cr3, pag + NUM_PAG_DATA, f);
      CopyPage(pag, pag + NUM_PAG_DATA);
      DelSsPag(cr3, pag + NUM_PAG_DATA);
    }

    /** Copies the parent's data pages to the child's frames, one temporary mapping at a time. */
    method CopyDataPages(child: nat)
      requires Valid() && child < NR_TABLES && TlbCovers(View())
      requires DataMapped(View().pt[cr3]) && DataMapped(View().pt[child])
      modifies table, ram, this
      ensures Valid()
      ensures var m := old(View());
              View() == Paging.SetCr3(m.(pt := m.pt[m.cr3 := Cleared(m.pt[m.cr3], INIT_HEAP, TEMP_END)]), m.cr3)
      ensures var m := old(View());
              child != m.cr3 && WindowIsClear(m) && DataIsNew(m.pt[m.cr3], m.pt[child]) ==>
                PagesCopied(old(ram[..]), ram[..], m.pt[m.cr3], m.pt[child], INIT_DATA, INIT_HEAP)
    {
      hide TlbCovers, PagesCopied, DataIsNew, WindowIsClear, WindowSeen, PageCopied, AfterWindow, Cleared;
      ghost var m := View();
      ghost var clear := WindowIsClear(m) && DataIsNew(m.pt[m.cr3], m.pt[child]);
      StartSweep(m, child, ram[..]);
      var pag := NUM_PAG_KERNEL + NUM_PAG_CODE;
      while pag < NUM_PAG_KERNEL + NUM_PAG_CODE + NUM_PAG_DATA
        invariant INIT_DATA <= pag <= INIT_HEAP && cr3 == m.cr3 && TlbCovers(View())
        invariant Sweeping(m, View(), pag)
        invariant clear ==> WindowSeen(m, child, seen, pag)
        invariant clear ==> PagesCopied(old(ram[..]), ram[..], m.pt[m.cr3], m.pt[child], INIT_DATA, pag)
      {
        ghost var v, r1 := View(), ram[..];
        SweepStep(m, v, child, pag);
        CopyThroughWindow(child, pag);
        if clear {
          CopyStep(m, child, pag, seen, old(ram[..]), r1, ram[..]);
        }
        pag := pag + 1;
      }
      SetCr3(cr3);
    }

    /** The memory half of fork for the running process. */
    method Fork(child: nat) returns (ok: bool)
      requires Valid() && child < NR_TABLES && MemInv(View()) && CanCopy(View(), child)
      modifies phys, table, ram, this
      ensures Valid() && ok == CanFork(old(View()))
      ensures View() == Paging.Fork(old(View()), old(View()).cr3, child)
      // Every data page of the child has the bytes of the parent's page, and no other frame has changed.
      ensures ok && child != old(cr3) && WindowIsClear(old(View())) ==>
                && DataMapped(old(View()).pt[old(cr3)]) && DataMapped(View().pt[child])
                && PagesCopied(old(ram[..]), ram[..], old(View()).pt[old(cr3)], View().pt[child], INIT_DATA, INIT_HEAP)
      ensures !ok ==> ram[..] == old(ram[..])
    {
      hide PagesCopied, DataIsNew, TlbCovers, ForkFails, Filling, Cleared, SharedRow;
      ghost var m := View();
      ok := AllocDataPages(child);
      if ok {
        FilledForCopying(m, child);
        ghost var v := View();
        ShareKernelAndCode(cr3, child);
        SharedForCopying(m, child, v, View());
        DataStaysNew(v.pt[cr3], v.pt[child]);
        CopyDataPages(child);
      }
    }

    // ---------------------------------------------------------------- exit

    method Exit(d: nat)
      requires Valid() && d < NR_TABLES
      modifies phys, table
      ensures Valid() && View() == Paging.Exit(old(View()), d)
    {
      ghost var m := View();
      ExitingNothing(m, d);
      var i := 0;
      while i < NUM_PAG_DATA
        invariant 0 <= i <= NUM_PAG_DATA
        invariant View() == Exiting(m, d, i)
      {
        ExitOneMore(m, d, i);
        var f := GetFrame(d, INIT_DATA + i);
        FreeFrame(f);
        DelSsPag(d, INIT_DATA + i);
        i := i + 1;
      }
    }
  }
}
