/** mm/vmm.c: address spaces built from page tables in physical memory, with the page allocator of
    mm/pmm.c underneath and the page cache of mm/pagecache.c beside it. */
module VirtualMemory {
  import opened FlatVm
  import opened PhysicalMemory
  import opened VmState
  import opened VmUpdates
  import opened VmSubtree
  import opened VmSteps
  import opened VmFaults

  class Vmm {
    const pmm: Pmm
    const kernel: seq<Pte>        // the kernel's own root table
    var mem: map<Frame, Page>
    var cache: map<FileKey, Frame>
    ghost var st: St

    /** The proof state describes the real one, and is consistent. */
    ghost predicate Ok()
      reads this, pmm, pmm.bitmap, pmm.refs
    {
      && pmm.Valid() && |kernel| == 512
      && st.mem == mem && st.counts == pmm.counts && st.cache == cache && |pmm.counts| == pmm.pages
      && Good(st)
    }

    /** Between operations every table hangs in its tree and private pages have one writer. */
    ghost predicate Valid()
      reads this, pmm, pmm.bitmap, pmm.refs
    {
      Ok() && st.unlinked == {} && Inv(View(st))
    }

    /** Before the first address space: the references that exist are the kernel's. */
    constructor (p: Pmm, kernelEntries: seq<Pte>)
      requires p.Valid() && |p.counts| == p.pages && |kernelEntries| == 512
      ensures Valid() && pmm == p && kernel == kernelEntries
      ensures st.base == p.counts && st.at == map[] && st.leaf == map[] && st.cache == map[] && st.held == multiset{}
    {
      pmm, kernel, mem, cache := p, kernelEntries, map[], map[];
      st := St(map[], p.counts, map[], map[], map[], {}, map[], map[], p.counts, multiset{});
      new;
      EmptyGood(st);
    }

    // -------------------------------------------------------------- pages and entries

    method TakeFrame() returns (f: Frame)
      requires pmm.Valid()
      modifies pmm, pmm.bitmap, pmm.refs
      ensures pmm.Valid() && |pmm.counts| == |old(pmm.counts)|
      ensures f == 0 ==> pmm.counts == old(pmm.counts) && NoFreePage(pmm.counts)
      ensures f != 0 ==> f < |pmm.counts| && old(pmm.counts)[f] == 0 && pmm.counts == old(pmm.counts)[f := 1]
    {
      var phys := pmm.AllocPages(1);
      f := phys / 4096;
      if f != 0 {
        assert pmm.counts == old(pmm.counts)[f := 1];
      } else {
        forall p | 1 <= p < |pmm.counts| ensures pmm.counts[p] > 0 { assert !FreeRun(pmm.counts, p, 1); }
      }
    }

    method WriteEntry(f: Frame, i: nat, e: Pte)
      requires f in mem && mem[f].Table? && |mem[f].entries| == 512 && i < 512
      modifies `mem
      ensures mem == old(mem)[f := Table(old(mem)[f].entries[i := e])]
    {
      mem := mem[f := Table(mem[f].entries[i := e])];
    }

    /** vmm_alloc_page_table, for the table at position t; 0 is where the kernel panics. */
    method AllocTable(ghost t: Slot) returns (f: Frame)
      requires Ok() && t !in st.at && 1 <= |t.path| <= 3 && PathOk(t.path)
      modifies `mem, `st, pmm, pmm.bitmap, pmm.refs
      ensures Ok() && |pmm.counts| == |old(pmm.counts)|
      ensures f == 0 ==> st == old(st) && NoFreePage(st.counts)
      ensures f != 0 ==> MayAdd(old(st), t, f, EmptyTable) && st == NewTable(old(st), t, f, EmptyTable)
    {
      hide Good, NoFreePage;
      f := TakeFrame();
      if f != 0 {
        NewTableGood(st, t, f, EmptyTable);
        mem := mem[f := Table(EmptyTable)];
        st := NewTable(st, t, f, EmptyTable);
      }
    }

    // -------------------------------------------------------------- cloning

    method AddRef(f: Frame)
      requires pmm.Valid() && f < |pmm.counts| && pmm.counts[f] > 0 && |pmm.counts| == pmm.pages
      modifies pmm, pmm.refs
      ensures pmm.Valid() && pmm.counts == old(pmm.counts)[f := old(pmm.counts)[f] + 1]
    {
      var _ := pmm.PageRef(f * 4096);
    }

    method DropRef(f: Frame)
      requires pmm.Valid() && f < |pmm.counts| && pmm.counts[f] > 0 && |pmm.counts| == pmm.pages
      modifies pmm, pmm.bitmap, pmm.refs
      ensures pmm.Valid() && pmm.counts == old(pmm.counts)[f := old(pmm.counts)[f] - 1]
    {
      var _ := pmm.PageUnref(f * 4096);
    }

    function EntryOf(f: Frame, i: nat): Pte
      reads `mem
    {
      if f in mem && mem[f].Table? && i < |mem[f].entries| then mem[f].entries[i] else Absent
    }

    /** One round of the loop of clone_pt. */
    method ClonePtEntry(src: Frame, f: Frame, i: nat, ghost s0: St, ghost t: Slot, ghost dst: Frame)
      requires Ok() && i < 512 && |t.path| == 3
      requires Cloning(s0, t, i, dst, st) && t in st.at && st.at[t] == src && st.at[Twin(t, dst)] == f
      modifies `mem, `st, pmm, pmm.refs
      ensures Ok() && Cloning(s0, t, i + 1, dst, st) && st.at == old(st.at)
      ensures old(EntryOf(src, i)).present ==>
                SharedEntry(old(EntryOf(src, i)), EntryOf(src, i)) && SharedEntry(old(EntryOf(src, i)), EntryOf(f, i))
      ensures !old(EntryOf(src, i)).present ==> mem == old(mem)
    {
      hide Good, Cloning, ClonePage;
      CloningTables(s0, t, i, dst, st);
      var e := mem[src].entries[i];
      if !e.present {
        CloneSkip(s0, t, i, dst, st);
        return;
      }
      ghost var s' := PageRound(s0, t, i, dst, st);
      AddRef(e.frame);
      CowMarkShares(e);
      WriteEntry(src, i, CowMark(e));
      WriteEntry(f, i, CowMark(e));
      st := s';
    }

    /** clone_pt */
    method ClonePt(src: Frame, ghost t: Slot, ghost dst: Frame) returns (f: Frame)
      requires Ok() && t in st.at && st.at[t] == src && |t.path| == 3 && Vacant(st, t, dst)
      modifies `mem, `st, pmm, pmm.bitmap, pmm.refs
      ensures Ok()
      ensures f != 0 ==> Cloned(old(st), t, dst, st) && st.at[Twin(t, dst)] == f
      ensures f != 0 ==> forall y :: y in old(st).leaf && Gone(t, 512, y) ==>
                && y in st.leaf && SharedEntry(old(st).leaf[y], st.leaf[y])
                && Twin(y, dst) in st.leaf && SharedEntry(old(st).leaf[y], st.leaf[Twin(y, dst)])
    {
      hide Good, ClonedUpTo, Vacant;
      ghost var s0 := st;
      VacantTwin(st, t, dst);
      f := AllocTable(Twin(t, dst));
      if f == 0 { return; }
      CloneBegins(s0, t, dst, f, EmptyTable);
      for i := 0 to 512
        invariant Ok() && Cloning(s0, t, i, dst, st) && t in st.at && st.at[t] == src && st.at[Twin(t, dst)] == f
      {
        ClonePtEntry(src, f, i, s0, t, dst);
      }
      ClonedShares(s0, t, dst, st);
    }

    /** clone_pdpt (level 3) and clone_pd (level 2): an empty copy, then each child in turn. */
    method CloneUpper(src: Frame, level: nat, ghost t: Slot, ghost dst: Frame) returns (f: Frame)
      requires Ok() && t in st.at && st.at[t] == src && 2 <= level <= 3 && |t.path| + level == 4 && Vacant(st, t, dst)
      modifies `mem, `st, pmm, pmm.bitmap, pmm.refs
      ensures Ok()
      ensures f != 0 ==> Cloned(old(st), t, dst, st) && st.at[Twin(t, dst)] == f
      decreases level, 1
    {
      hide Good, ClonedUpTo, Vacant;
      ghost var s0 := st;
      VacantTwin(st, t, dst);
      f := AllocTable(Twin(t, dst));
      if f == 0 { return; }
      CloneBegins(s0, t, dst, f, EmptyTable);
      for i := 0 to 512
        invariant Ok() && Cloning(s0, t, i, dst, st) && t in st.at && st.at[t] == src && st.at[Twin(t, dst)] == f
      {
        var ok := CloneChild(src, f, i, level, s0, t, dst);
        if !ok { return 0; }
      }
    }

    /** One round of the loop over the children of a table. */
    method CloneChild(src: Frame, f: Frame, i: nat, level: nat, ghost s0: St, ghost t: Slot, ghost dst: Frame) returns (ok: bool)
      requires Ok() && 2 <= level <= 4 && |t.path| + level == 4 && i < Width(t.path)
      requires Cloning(s0, t, i, dst, st) && t in st.at && st.at[t] == src && st.at[Twin(t, dst)] == f
      modifies `mem, `st, pmm, pmm.bitmap, pmm.refs
      ensures Ok()
      ensures ok ==> Cloning(s0, t, i + 1, dst, st) && t in st.at && st.at[t] == src && st.at[Twin(t, dst)] == f
      decreases level, 0
    {
      hide Good, Cloning, Vacant, Cloned;
      ghost var s := st;
      CloningTables(s0, t, i, dst, s);
      var e := mem[src].entries[i];
      if !e.present {
        CloneSkip(s0, t, i, dst, s);
        return true;
      }
      SubtreeReady(s0, t, i, dst, s);
      var child;
      if level == 2 {
        child := ClonePt(e.frame, Down(t, i), dst);
      } else {
        child := CloneUpper(e.frame, level - 1, Down(t, i), dst);
      }
      if child == 0 { return false; }
      ghost var s3 := SubtreeRound(s0, t, i, dst, s, st);
      WriteEntry(f, i, e.(frame := child));
      st := s3;
      ok := true;
    }

    /** Allocates and zeroes a root table: the new address space is named after its frame. */
    method AllocRoot() returns (f: Frame)
      requires Ok() && st.unlinked == {}
      modifies `mem, `st, pmm, pmm.bitmap, pmm.refs
      ensures Ok()
      ensures f == 0 ==> st == old(st)
      ensures f != 0 ==> MayAdd(old(st), Slot(f, []), f, EmptyTable) && st == NewTable(old(st), Slot(f, []), f, EmptyTable)
    {
      hide Good;
      f := TakeFrame();
      if f != 0 {
        NewRoot(st, f);
        NewTableGood(st, Slot(f, []), f, EmptyTable);
        mem := mem[f := Table(EmptyTable)];
        st := NewTable(st, Slot(f, []), f, EmptyTable);
      }
    }

    /** Mirrors the kernel half of the root table. */
    method CopyKernelHalf(f: Frame)
      requires Ok() && Slot(f, []) in st.at && st.at[Slot(f, [])] == f
      modifies `mem, `st
      ensures Ok() && st == old(st).(mem := st.mem) && SameData(old(st), st)
      ensures KernelHalf(st, f, kernel)
    {
      hide Good;
      ghost var s0, t := st, Slot(f, []);
      assert IsTable(st, t) by { GoodTable(st, t); }
      for i := 256 to 512
        invariant Ok() && st == s0.(mem := st.mem) && SameData(s0, st)
        invariant IsTable(st, t) && forall j :: 256 <= j < i ==> mem[f].entries[j] == kernel[j]
      {
        KernelEntryGood(st, t, i, kernel[i]);
        KernelEntryData(s0, st, t, i, kernel[i]);
        WriteEntry(f, i, kernel[i]);
        st := SetEntry(st, t, i, kernel[i]);
      }
    }

    /** vmm_clone_address_space: the child sees the parent's memory, and private pages of both are
        copied on the next store. */
    method CloneAddressSpace(src: Frame) returns (f: Frame)
      requires Valid() && Slot(src, []) in st.at
      modifies `mem, `st, pmm, pmm.bitmap, pmm.refs
      ensures Ok()
      ensures f != 0 ==> Valid() && Slot(src, []) in st.at && Slot(f, []) in st.at && Sees(old(st), Clone(src, f), st)
      ensures f != 0 ==> st.held == old(st).held && st.cache == old(st).cache && st.base == old(st).base
      ensures f != 0 ==> Forked(old(st).leaf, src, f, st.leaf) && KernelHalf(st, f, kernel)
    {
      hide Good, ClonedUpTo, Vacant, Inv, Sees, Forked, KernelHalf;
      ghost var s0, t := st, Slot(src, []);
      RootFrame(st, src);
      f := AllocRoot();
      if f == 0 { return; }
      NewRoot(s0, f);
      assert Twin(t, f) == Slot(f, []);
      CloneBegins(s0, t, f, f, EmptyTable);
      for i := 0 to 256
        invariant Ok() && Cloning(s0, t, i, f, st) && t in st.at && st.at[t] == src && st.at[Slot(f, [])] == f
      {
        var ok := CloneChild(src, f, i, 4, s0, t, f);
        if !ok { return 0; }
      }
      ghost var s1 := st;
      CopyKernelHalf(f);
      CloneSeen(s0, src, f, s1, st);
    }

    // -------------------------------------------------------------- destroying

    /** One round of free_pt_level on a lowest table. */
    method FreeEntry(f: Frame, i: nat, ghost s0: St, ghost t: Slot)
      requires Ok() && i < 512 && FreeingPages(s0, t, f, i, st)
      modifies `st, pmm, pmm.bitmap, pmm.refs
      ensures Ok() && FreeingPages(s0, t, f, i + 1, st)
    {
      hide Good, FreeingPages;
      FreeingTable(s0, t, f, i, st);
      var e := mem[f].entries[i];
      if !e.present { return; }
      FreeingRef(s0, t, f, i, st);
      if e.frame + 1 <= pmm.pages {
        UnrefGood(st, e.frame);
        DropRef(e.frame);
        st := Unref(st, e.frame);
      }
    }

    /** free_pt_level at level 1. */
    method FreePt(f: Frame, ghost t: Slot)
      requires Ok() && Top(st, t) && st.at[t] == f && |t.path| == 3 && Attached(st, t)
      modifies `st, pmm, pmm.bitmap, pmm.refs
      ensures Ok() && Freed(old(st), t, st) && st.held == old(st).held + multiset{f}
    {
      hide Good, Detach, Attached, Freed, FreeingPages;
      ghost var s0 := st;
      assert IsTable(st, t) by { GoodTable(st, t); }
      DetachGood(st, t);
      DetachRest(st, t);
      st := Detach(st, t);
      FreeingBegins(s0, t, f);
      for i := 0 to 512
        invariant Ok() && FreeingPages(s0, t, f, i, st)
      {
        FreeEntry(f, i, s0, t);
      }
      FreeingEnds(s0, t, f, st);
    }

    /** One round of free_pt_level on an upper table, and of vmm_destroy_address_space on a root. */
    method FreeChild(f: Frame, i: nat, level: nat, ghost s0: St, ghost t: Slot)
      requires Ok() && 2 <= level <= 4 && |t.path| + level == 4 && i < Width(t.path) && FreeingTables(s0, t, f, i, st)
      modifies `st, pmm, pmm.bitmap, pmm.refs
      ensures Ok() && FreeingTables(s0, t, f, i + 1, st)
      decreases level, 0
    {
      hide Good, Attached, Freed, FreeingTables;
      ghost var s1 := st;
      FreeingChild(s0, t, f, i, st);
      var e := mem[f].entries[i];
      if !e.present {
        FreedNone(s0, t, f, i, st);
        return;
      }
      if level == 2 {
        FreePt(e.frame, Down(t, i));
      } else {
        FreeUpper(e.frame, level - 1, Down(t, i));
      }
      GoodConserved(st);
      HeldCounted(st, e.frame);
      UnrefGood(st, e.frame);
      FreedOne(s0, t, f, i, s1, st, e.frame);
      DropRef(e.frame);
      st := Unref(st, e.frame);
    }

    /** free_pt_level at levels 2 and 3: the whole subtree goes; the reference of the table itself
        stays with the caller. */
    method FreeUpper(f: Frame, level: nat, ghost t: Slot)
      requires Ok() && Top(st, t) && st.at[t] == f && 2 <= level <= 3 && |t.path| + level == 4 && Attached(st, t)
      modifies `st, pmm, pmm.bitmap, pmm.refs
      ensures Ok() && Freed(old(st), t, st) && st.held == old(st).held + multiset{f}
      decreases level, 1
    {
      hide Good, Detach, Attached, Freed, FreeingTables;
      ghost var s0 := st;
      assert IsTable(st, t) by { GoodTable(st, t); }
      DetachGood(st, t);
      DetachRest(st, t);
      st := Detach(st, t);
      FreeingStarts(s0, t, f);
      for i := 0 to 512
        invariant Ok() && FreeingTables(s0, t, f, i, st)
      {
        FreeChild(f, i, level, s0, t);
      }
      FreeingDone(s0, t, f, st);
    }

    /** vmm_destroy_address_space: every page of the address space is released, nothing else changes. */
    method DestroyAddressSpace(root: Frame)
      requires Valid() && Slot(root, []) in st.at
      modifies `st, pmm, pmm.bitmap, pmm.refs
      ensures Valid() && Sees(old(st), Destroy(root), st) && Freed(old(st), Slot(root, []), st)
      ensures st.held == old(st).held && st.cache == old(st).cache && st.base == old(st).base
    {
      hide Good, Detach, Freed, FreeingTables, Inv, Sees, Tree, Leaves, Conserved;
      ghost var s0, t := st, Slot(root, []);
      RootFrame(st, root);
      assert IsTable(st, t) by { GoodTable(st, t); }
      DetachGood(st, t);
      DetachRest(st, t);
      st := Detach(st, t);
      FreeingStarts(s0, t, root);
      for i := 0 to 256
        invariant Ok() && FreeingTables(s0, t, root, i, st)
      {
        FreeChild(root, i, 4, s0, t);
      }
      FreeingDone(s0, t, root, st);
      GoodConserved(st);
      HeldCounted(st, root);
      UnrefGood(st, root);
      ghost var s2 := st;
      DropRef(root);
      st := Unref(st, root);
      DestroySeen(s0, root, s2, st);
    }

    // -------------------------------------------------------------- walking

    /** One level of get_pte_in: the table below entry i, allocated on demand; ok is false where
        the kernel panics for want of memory, found when there is such a table. */
    method StepDown(f: Frame, i: nat, alloc: bool, user: bool, ghost t: Slot) returns (ok: bool, found: bool, child: Frame)
      requires Ok() && st.unlinked == {} && t in st.at && st.at[t] == f && |t.path| < 3 && i < Width(t.path)
      modifies `mem, `st, pmm, pmm.bitmap, pmm.refs
      ensures Ok() && st.unlinked == {} && Grown(old(st), st)
      ensures ok && found ==> Down(t, i) in st.at && st.at[Down(t, i)] == child
      ensures ok && !found ==> !alloc && Down(t, i) !in st.at
      ensures !alloc ==> ok && st == old(st)
      ensures !ok ==> NoFreePage(st.counts)
    {
      hide Good, Grown, NoFreePage;
      ghost var s0 := st;
      assert IsTable(st, t) by { GoodTable(st, t); }
      GrownSelf(st);
      var e := mem[f].entries[i];
      if e.present {
        ChildFrame(st, t, i);
        return true, true, e.frame;
      }
      NoChild(st, t, i);
      if !alloc { return true, false, 0; }
      child := AllocTable(Down(t, i));
      if child == 0 { return false, false, 0; }
      var link := Pte(true, child, true, user, false, false, false, 0);
      LinkedChild(s0, t, i, child, link);
      WriteEntry(f, i, link);
      st := Link(st, t, i, link);
      ok, found := true, true;
    }

    /** get_pte_in: the lowest table for the page, if there is one. */
    method Walk(root: Frame, path: seq<nat>, alloc: bool, user: bool) returns (ok: bool, found: bool, pt: Frame)
      requires Ok() && st.unlinked == {} && Slot(root, []) in st.at && |path| == 4 && PathOk(path)
      modifies `mem, `st, pmm, pmm.bitmap, pmm.refs
      ensures Ok() && st.unlinked == {} && Grown(old(st), st)
      ensures ok && found ==> Up(Slot(root, path)) in st.at && st.at[Up(Slot(root, path))] == pt
      ensures ok && !found ==> !alloc && Up(Slot(root, path)) !in st.at
      ensures !alloc ==> ok && st == old(st)
      ensures !ok ==> NoFreePage(st.counts)
    {
      hide Good, Grown, NoFreePage;
      ghost var s0, r := st, Slot(root, []);
      RootFrame(st, root);
      ghost var t1, t2, t3 := PathSlots(root, path);
      var pdpt, pd;
      pt := 0;
      ok, found, pdpt := StepDown(root, path[0], alloc, user, r);
      if !ok || !found {
        if ok { NoSubtable(st, t1, t3); }
        return;
      }
      ghost var s1 := st;
      ok, found, pd := StepDown(pdpt, path[1], alloc, user, t1);
      GrownTrans(s0, s1, st);
      if !ok || !found {
        if ok { NoSubtable(st, t2, t3); }
        return;
      }
      ghost var s2 := st;
      ok, found, pt := StepDown(pd, path[2], alloc, user, t2);
      GrownTrans(s0, s2, st);
    }

    /** vmm_map_page_in: the page's entry becomes e, which consumes a reference to e's frame; a
        reference of the entry it replaces is handed back. */
    method MapPage(root: Frame, path: seq<nat>, e: Pte) returns (ok: bool)
      requires Ok() && st.unlinked == {} && Slot(root, []) in st.at && |path| == 4 && PathOk(path)
      requires e.present && IsData(st, e.frame) && e.frame in st.held
      modifies `mem, `st, pmm, pmm.bitmap, pmm.refs
      ensures Ok() && st.unlinked == {}
      ensures ok ==> Mapped(old(st), Slot(root, path), e, st)
      ensures !ok ==> NoFreePage(st.counts)
    {
      hide Good, Grown, Mapped, NoFreePage;
      ghost var s0, x := st, Slot(root, path);
      var found, pt;
      ok, found, pt := Walk(root, path, true, true);
      if !ok { return; }
      ghost var s1 := st;
      ghost var _, _, t3 := PathSlots(root, path);
      assert IsTable(st, t3) by { GoodTable(st, t3); }
      MapStep(s0, s1, x, e);
      WriteEntry(pt, path[3], e);
      st := SetLeaf(st, x, e);
    }

    /** vmm_unmap_page_in: the frame that was mapped, whose reference passes to the caller. */
    method UnmapPage(root: Frame, path: seq<nat>) returns (found: bool, f: Frame)
      requires Ok() && st.unlinked == {} && Slot(root, []) in st.at && |path| == 4 && PathOk(path)
      modifies `mem, `st, pmm, pmm.bitmap, pmm.refs
      ensures Ok() && st.unlinked == {}
      ensures found <==> Slot(root, path) in old(st).leaf
      ensures found ==> f == old(st).leaf[Slot(root, path)].frame && Unmapped(old(st), Slot(root, path), st)
      ensures !found ==> st == old(st)
      ensures found ==> Sees(old(st), Unmap(Slot(root, path)), st)
      ensures old(Valid()) ==> Valid() && (found ==> Shows(old(st), [Unmap(Slot(root, path))], st))
    {
      hide Good, Grown, Unmapped, Sees, Shows, Inv;
      ghost var s0, x := st, Slot(root, path);
      ghost var _, _, t3 := PathSlots(root, path);
      var ok, pt;
      ok, found, pt := Walk(root, path, false, true);
      f := 0;
      if !found {
        NotMapped(st, x);
        return;
      }
      assert IsTable(st, t3) by { GoodTable(st, t3); }
      LeafIs(st, x);
      var e := mem[pt].entries[path[3]];
      if !e.present { return false, 0; }
      f := e.frame;
      UnmapStep(st, x);
      WriteEntry(pt, path[3], Absent);
      st := ClearLeaf(st, x);
      UnmapSeen(s0, x, st);
      if Inv(View(s0)) {
        ShowsOne(s0, Unmap(x), st);
        ShowsInv(s0, [Unmap(x)], st);
      }
    }

    /** vmm_get_pte: the translation of a page is what the flat map says. */
    method GetPte(root: Frame, path: seq<nat>) returns (found: bool, e: Pte)
      requires Ok() && st.unlinked == {} && Slot(root, []) in st.at && |path| == 4 && PathOk(path)
      modifies `mem, `st, pmm, pmm.bitmap, pmm.refs
      ensures Ok() && st == old(st) && mem == old(mem) && pmm.counts == old(pmm.counts)
      ensures found <==> Slot(root, path) in st.leaf
      ensures found ==> e == st.leaf[Slot(root, path)]
    {
      hide Good, Grown;
      ghost var x := Slot(root, path);
      ghost var _, _, t3 := PathSlots(root, path);
      var ok, pt;
      ok, found, pt := Walk(root, path, false, true);
      e := Absent;
      if found {
        assert IsTable(st, t3) by { GoodTable(st, t3); }
        LeafIs(st, x);
        e := mem[pt].entries[path[3]];
        found := e.present;
      } else {
        NotMapped(st, x);
      }
    }

    // -------------------------------------------------------------- page cache

    /** pagecache_lookup on a page that is there: a reference for the caller. */
    method Lookup(key: FileKey) returns (f: Frame)
      requires Ok() && key in st.cache
      modifies `st, pmm, pmm.refs
      ensures Ok() && f == st.cache[key] && f < |old(st).counts| && st == Ref(old(st), f)
    {
      hide Good;
      f := cache[key];
      CachedFrame(st, key);
      RefGood(st, f);
      AddRef(f);
      st := Ref(st, f);
    }

    /** The miss of pagecache_get_or_read: 0 when there is no memory, the file cannot be read or the
        cache has no room for the entry. */
    method ReadPage(key: FileKey, contents: Contents, room: bool) returns (f: Frame)
      requires Ok() && key !in st.cache && FullPage(contents)
      modifies `mem, `st, `cache, pmm, pmm.bitmap, pmm.refs
      ensures Ok()
      ensures f == 0 ==> st == old(st) && (NoFreePage(st.counts) || contents.Failed? || !room)
      ensures f != 0 ==> && contents.Bytes? && f < |old(st).counts| && old(st).counts[f] == 0
                         && st == CacheMiss(old(st), key, f, contents.bytes)
    {
      hide Good, NoFreePage, Pmm.Valid, CacheMiss;
      f := TakeFrame();
      if f == 0 { return; }
      if contents.Failed? || !room {
        GiveBack(f);
        assert pmm.counts == st.counts;
        return 0;
      }
      InsertPage(key, f, contents.bytes);
    }

    /** pagecache_insert of a page just read into frame f, and the reference for the caller. */
    method InsertPage(key: FileKey, f: Frame, bytes: FlatVm.Bytes)
      requires pmm.Valid() && |kernel| == 512 && |pmm.counts| == pmm.pages && st.mem == mem && st.cache == cache && Good(st)
      requires key !in st.cache && f < |st.counts| && st.counts[f] == 0 && pmm.counts == st.counts[f := 1] && |bytes| == 4096
      modifies `mem, `st, `cache, pmm, pmm.refs
      ensures Ok() && f < |old(st).counts| && st == CacheMiss(old(st), key, f, bytes)
    {
      hide Good, Pmm.Valid, CacheMiss;
      CacheMissGood(st, key, f, bytes);
      CacheMissIs(st, key, f, bytes);
      mem := mem[f := Data(bytes)];
      cache := cache[key := f];
      AddRef(f);
      assert pmm.counts == st.counts[f := 2];
      st := CacheMiss(st, key, f, bytes);
    }

    /** pagecache_get_or_read: the frame of a file page with a reference for the caller, 0 when the
        page cannot be had.  contents is what reading the page from the file gives; room tells
        whether the cache entry could be allocated. */
    method GetOrRead(key: FileKey, contents: Contents, room: bool) returns (found: bool, f: Frame, ghost evs: seq<Event>)
      requires Ok() && Inv(View(st)) && FullPage(contents)
      modifies `mem, `st, `cache, pmm, pmm.bitmap, pmm.refs
      ensures Ok() && Shows(old(st), evs, st)
      ensures st == old(st).(mem := st.mem, counts := st.counts, cache := st.cache, owner := st.owner, held := st.held)
      ensures !found ==> evs == [] && st == old(st)
      ensures found ==> f in st.owner && st.held == old(st).held + multiset{f}
      ensures found ==> Fetched(old(st), key, contents, f, st) && evs == Fetch(old(st), key, contents, f)
      ensures !found ==> key !in old(st).cache && (NoFreePage(st.counts) || contents.Failed? || !room)
    {
      hide Good, Inv, Shows, Sees, NoFreePage;
      ghost var s0 := st;
      evs := [];
      if key in cache {
        CachedFrame(st, key);
        f := Lookup(key);
        ShowsNone(s0, st);
        found := true;
      } else {
        f := ReadPage(key, contents, room);
        found := f != 0;
        if found {
          evs := [CacheFill(f, contents.bytes)];
          CacheMissGood(s0, key, f, contents.bytes);
          CacheMissSeen(s0, key, f, contents.bytes);
          FreeUnused(s0, f);
          ShowsOne(s0, evs[0], st);
        } else {
          ShowsNone(s0, st);
        }
      }
    }

    /** Releases a page that was taken from the allocator and not used. */
    method GiveBack(f: Frame)
      requires pmm.Valid() && |pmm.counts| == pmm.pages && f < |pmm.counts| && pmm.counts[f] == 1
      modifies pmm, pmm.bitmap, pmm.refs
      ensures pmm.Valid() && pmm.counts == old(pmm.counts)[f := 0]
    {
      DropRef(f);
    }

    // -------------------------------------------------------------- faults

    /** Case 1 of vmm_handle_page_fault: a store to a present copy-on-write page. */
    method HandleCow(root: Frame, path: seq<nat>) returns (applies: bool, handled: bool, ghost evs: seq<Event>)
      requires Valid() && Slot(root, []) in st.at && |path| == 4 && PathOk(path)
      modifies `mem, `st, pmm, pmm.bitmap, pmm.refs
      ensures Valid() && (applies <==> CowPage(old(st), Slot(root, path)))
      ensures !handled ==> st == old(st) && (applies ==> NoFreePage(st.counts))
      ensures handled ==> && applies && Shows(old(st), evs, st) && OwnsCopy(st, Slot(root, path))
                          && evs == [CowFault(Slot(root, path), st.leaf[Slot(root, path)].frame)]
                          && Undisturbed(old(st), Slot(root, path), st) && st.cache == old(st).cache
                          && st.leaf[Slot(root, path)] == old(st).leaf[Slot(root, path)].(
                               frame := st.leaf[Slot(root, path)].frame, write := true, cow := false)
    {
      hide Good, Inv, Shows, Undisturbed, NoFreePage;
      handled, evs := false, [];
      var found, e;
      found, e := GetPte(root, path);
      applies := found && e.cow;
      if applies {
        handled, evs := CopyPage(root, path, e);
      }
    }

    /** Gives the process its own copy of a page; false when there is no memory. */
    method CopyPage(root: Frame, path: seq<nat>, e: Pte) returns (handled: bool, ghost evs: seq<Event>)
      requires Valid() && Slot(root, []) in st.at && |path| == 4 && PathOk(path)
      requires CowPage(st, Slot(root, path)) && e == st.leaf[Slot(root, path)]
      modifies `mem, `st, pmm, pmm.bitmap, pmm.refs
      ensures Valid()
      ensures !handled ==> st == old(st) && NoFreePage(st.counts)
      ensures handled ==> && Shows(old(st), evs, st) && OwnsCopy(st, Slot(root, path))
                          && evs == [CowFault(Slot(root, path), st.leaf[Slot(root, path)].frame)]
                          && Undisturbed(old(st), Slot(root, path), st) && st.cache == old(st).cache
                          && st.leaf[Slot(root, path)] == old(st).leaf[Slot(root, path)].(
                               frame := st.leaf[Slot(root, path)].frame, write := true, cow := false)
    {
      hide Good, Inv, Shows, Undisturbed, Sees, Pmm.Valid, Copied, NoFreePage;
      handled, evs := false, [];
      ghost var x := Slot(root, path);
      var pt := LowestTable(root, path);
      var f := TakeFrame();
      if f == 0 { return; }
      ghost var s' := CowRound(st, x, f);
      mem := mem[f := mem[e.frame]];
      WriteEntry(pt, path[3], Copied(e, f));
      DropRef(e.frame);
      st := s';
      evs := [CowFault(x, f)];
      handled := true;
    }

    /** The table get_pte_in ends at, for a mapped page. */
    method LowestTable(root: Frame, path: seq<nat>) returns (pt: Frame)
      requires |path| == 4 && PathOk(path) && st.mem == mem && Good(st) && st.unlinked == {}
      requires Slot(root, []) in st.at && Slot(root, path) in st.leaf
      ensures Up(Slot(root, path)) in st.at && pt == st.at[Up(Slot(root, path))]
    {
      ghost var t1, t2, t3 := PathSlots(root, path);
      WalkDown(st, root, path, t1, t2, t3);
      var pdpt := mem[root].entries[path[0]].frame;
      var pd := mem[pdpt].entries[path[1]].frame;
      pt := mem[pd].entries[path[2]].frame;
    }

    /** A page from the allocator with the given bytes; 0 when there is none. */
    method TakeData(bytes: FlatVm.Bytes) returns (f: Frame)
      requires Ok() && |bytes| == 4096
      modifies `mem, `st, pmm, pmm.bitmap, pmm.refs
      ensures Ok()
      ensures f == 0 ==> st == old(st) && NoFreePage(st.counts)
      ensures f != 0 ==> f < |old(st).counts| && old(st).counts[f] == 0 && st == NewData(old(st), f, bytes)
    {
      hide Good, Pmm.Valid, NoFreePage;
      f := TakeFrame();
      if f == 0 { return; }
      NewDataGood(st, f, bytes);
      mem := mem[f := Data(bytes)];
      st := NewData(st, f, bytes);
    }

    method Release(f: Frame)
      requires Ok() && f in st.held
      modifies `st, pmm, pmm.bitmap, pmm.refs
      ensures Ok() && f < |old(st).counts| && old(st).counts[f] > 0 && st == Unref(old(st), f)
    {
      hide Good, Pmm.Valid;
      GoodConserved(st);
      HeldCounted(st, f);
      UnrefGood(st, f);
      DropRef(f);
      st := Unref(st, f);
    }

    /** Demand paging of a page without file contents: a zeroed page.  ok is false where the kernel
        panics. */
    method DemandZeroPage(root: Frame, path: seq<nat>, flags: Pte) returns (ok: bool, handled: bool, ghost evs: seq<Event>)
      requires Valid() && Slot(root, []) in st.at && |path| == 4 && PathOk(path) && Slot(root, path) !in st.leaf && NewEntry(flags)
      modifies `mem, `st, pmm, pmm.bitmap, pmm.refs
      ensures Ok()
      ensures (handled ==> ok) && (!handled ==> NoFreePage(st.counts))
      ensures ok && !handled ==> st == old(st) && Valid()
      ensures ok && handled ==> Valid() && Filled(old(st), Slot(root, path), flags, st) && Shows(old(st), evs, st)
      ensures ok && handled ==> evs == [DemandZero(Slot(root, path), st.leaf[Slot(root, path)])] && st.cache == old(st).cache
    {
      hide Good, Inv, Shows, Pmm.Valid, Mapped, Filled, NoFreePage;
      ghost var s0, x := st, Slot(root, path);
      evs := [];
      var f := TakeData(ZeroPage());
      if f == 0 { return true, false, []; }
      var e := flags.(frame := f);
      TakenHeld(s0, f, ZeroPage());
      ok := MapPage(root, path, e);
      handled := ok;
      if ok {
        ZeroRound(s0, x, e, st);
        FilledFlags(s0, x, flags, f, st);
        evs := [DemandZero(x, e)];
      }
    }

    /** A shared file mapping uses the page of the cache; the caller's reference goes into the entry. */
    method SharePage(root: Frame, path: seq<nat>, flags: Pte, cf: Frame, ghost s0: St, ghost evs: seq<Event>) returns (ok: bool, ghost evs': seq<Event>)
      requires Ok() && st.unlinked == {} && Slot(root, []) in st.at && |path| == 4 && PathOk(path) && Slot(root, path) !in st.leaf
      requires NewEntry(flags) && Shows(s0, evs, st) && OnlyCache(s0, st, cf) && cf in st.owner
      modifies `mem, `st, pmm, pmm.bitmap, pmm.refs
      ensures Ok()
      ensures ok ==> Valid() && Filled(s0, Slot(root, path), flags, st) && Shows(s0, evs', st) && st.cache == old(st).cache && st.owner == old(st).owner
      ensures ok ==> st.leaf[Slot(root, path)].frame == cf && evs' == evs + [DemandShare(Slot(root, path), st.leaf[Slot(root, path)])]
      ensures !ok ==> NoFreePage(st.counts)
    {
      hide Good, Inv, Shows, Pmm.Valid, Filled, NoFreePage;
      ghost var s1, x := st, Slot(root, path);
      var e := flags.(frame := cf);
      CachedHeld(s1, cf);
      ok := MapPage(root, path, e);
      evs' := evs + [DemandShare(x, e)];
      if ok {
        ShareRound(s0, evs, s1, x, e, st);
        FilledFlags(s0, x, flags, cf, st);
      }
    }

    /** A private file mapping copies the page of the cache and gives the cache's page back. */
    method CopyFilePage(root: Frame, path: seq<nat>, flags: Pte, cf: Frame, ghost s0: St, ghost evs: seq<Event>)
      returns (ok: bool, handled: bool, ghost evs': seq<Event>)
      requires Ok() && st.unlinked == {} && Slot(root, []) in st.at && |path| == 4 && PathOk(path) && Slot(root, path) !in st.leaf
      requires NewEntry(flags) && Shows(s0, evs, st) && OnlyCache(s0, st, cf) && cf in st.owner
      modifies `mem, `st, pmm, pmm.bitmap, pmm.refs
      ensures Ok()
      ensures ok && !handled ==> Valid() && st.leaf == s0.leaf && st.held == s0.held && st.base == s0.base && Shows(s0, evs, st)
      ensures ok && !handled ==> evs' == evs && st.cache == old(st).cache
      ensures ok && handled ==> Valid() && Filled(s0, Slot(root, path), flags, st) && Shows(s0, evs', st) && st.cache == old(st).cache
      ensures ok && handled ==> st.leaf[Slot(root, path)].frame !in st.owner
      ensures ok && handled ==> evs' == evs + [DemandCopy(Slot(root, path), st.leaf[Slot(root, path)], cf)]
      ensures (handled ==> ok) && (!handled ==> NoFreePage(st.counts))
    {
      hide Good, Inv, Shows, Pmm.Valid, Filled, NoFreePage;
      ghost var s1, x := st, Slot(root, path);
      CachedHeld(s1, cf);
      var f := TakeData(mem[cf].bytes);
      if f == 0 {
        Release(cf);
        DropRound(s0, evs, s1, st);
        assert evs + [] == evs;
        assert s1.held - multiset{cf} == s0.held;
        StillNoFree(s1, cf, st);
        return true, false, evs;
      }
      SwapUnref(s1, f, s1.mem[cf].bytes, cf);
      Release(cf);
      var e := flags.(frame := f);
      CopyHeld(s0, evs, s1, cf, f);
      ok := MapPage(root, path, e);
      handled := ok;
      evs' := evs + [DemandCopy(x, e, cf)];
      if ok {
        CopyRound(s0, evs, s1, cf, x, e, st);
        FilledFlags(s0, x, flags, f, st);
      }
    }

    /** Demand paging of a page with file contents. */
    method DemandFilePage(root: Frame, path: seq<nat>, flags: Pte, shared: bool, key: FileKey, contents: Contents, room: bool)
      returns (ok: bool, handled: bool, ghost evs: seq<Event>)
      requires Valid() && Slot(root, []) in st.at && |path| == 4 && PathOk(path) && Slot(root, path) !in st.leaf && NewEntry(flags) && FullPage(contents)
      modifies `mem, `st, `cache, pmm, pmm.bitmap, pmm.refs
      ensures Ok()
      ensures ok && !handled ==> Valid() && st.leaf == old(st).leaf && st.held == old(st).held && st.base == old(st).base && Shows(old(st), evs, st)
      ensures ok && !handled ==> (st == old(st) && evs == []) || (key in st.cache && Fetched(old(st), key, contents, st.cache[key], st)
                                                   && evs == Fetch(old(st), key, contents, st.cache[key]))
      ensures ok && handled ==> Valid() && Filled(old(st), Slot(root, path), flags, st) && Shows(old(st), evs, st)
      ensures ok && handled ==> key in st.cache && Fetched(old(st), key, contents, st.cache[key], st)
      ensures ok && handled && shared ==> st.leaf[Slot(root, path)].frame == st.cache[key] && st.cache[key] in st.owner
      ensures ok && handled && !shared ==> st.leaf[Slot(root, path)].frame !in st.owner
      ensures ok && handled ==> evs == Fetch(old(st), key, contents, st.cache[key])
                                + [if shared then DemandShare(Slot(root, path), st.leaf[Slot(root, path)])
                                   else DemandCopy(Slot(root, path), st.leaf[Slot(root, path)], st.cache[key])]
      ensures !ok ==> !handled && NoFreePage(st.counts)
      ensures ok && !handled ==> NoFreePage(st.counts) || (key !in old(st).cache && (contents.Failed? || !room))
    {
      hide Good, Inv, Shows, Pmm.Valid, Filled, Fetch, NoFreePage;
      ghost var s0 := st;
      var found, cf;
      found, cf, evs := GetOrRead(key, contents, room);
      if !found { return true, false, evs; }
      if shared {
        ok, evs := SharePage(root, path, flags, cf, s0, evs);
        handled := ok;
      } else {
        ok, handled, evs := CopyFilePage(root, path, flags, cf, s0, evs);
      }
    }

    /** find_vma_for: the first region that covers the address. */
    method FindVma(vmas: seq<Vma>, va: nat) returns (found: bool, v: Vma)
      ensures found ==> RegionOf(vmas, va, v)
      ensures !found ==> forall i :: 0 <= i < |vmas| ==> !Covers(vmas[i], va)
    {
      for i := 0 to |vmas|
        invariant forall j :: 0 <= j < i ==> !Covers(vmas[j], va)
      {
        if vmas[i].start <= va && va < vmas[i].end { return true, vmas[i]; }
      }
      found, v := false, Vma(0, 0, false, false, false, Anonymous);
    }

    /** Case 2 of vmm_handle_page_fault, for the region of the page. */
    method DemandPage(root: Frame, va: nat, v: Vma, read: FileKey -> Contents, room: bool, ghost file: Files)
      returns (ok: bool, handled: bool, ghost evs: seq<Event>)
      requires Valid() && Slot(root, []) in st.at && va < USER_SPACE_END && Slot(root, PathOf(va)) !in st.leaf
      requires Covers(v, va) && v.start % 4096 == 0 && forall k :: FullPage(read(k))
      modifies `mem, `st, `cache, pmm, pmm.bitmap, pmm.refs
      ensures Ok()
      ensures ok ==> Valid() && Shows(old(st), evs, st)
      ensures ok && !handled ==> st.leaf == old(st).leaf && st.held == old(st).held && st.base == old(st).base && NoPage(old(st), st)
      ensures ok && !handled ==> evs == [] || (FromFile(v, va) && KeyOf(v, va) in st.cache
                                               && evs == Fetch(old(st), KeyOf(v, va), read(KeyOf(v, va)), st.cache[KeyOf(v, va)]))
      ensures ok && handled ==> Brought(old(st), Slot(root, PathOf(va)), v, va, ContentsFor(read, v, va), evs, st)
      ensures ok && handled && FromFile(v, va) && !v.shared ==> st.leaf[Slot(root, PathOf(va))].frame !in st.owner
      ensures ok && handled && CacheHolds(file, old(st)) && ReadsFiles(file, read) ==> ShowsFile(file, v, va, Slot(root, PathOf(va)), st)
      ensures ok && CacheHolds(file, old(st)) && ReadsFiles(file, read) ==> CacheHolds(file, st)
      ensures !ok ==> !handled && NoFreePage(st.counts)
      ensures ok && !handled ==> NoFreePage(st.counts) || Unreadable(old(st), v, va, ContentsFor(read, v, va), room)
    {
      hide Good, Inv, Shows, Pmm.Valid, Undisturbed, PathOf, Fetch, NoFreePage, NoPage, OnlyPage, ShowsFile, CacheHolds, ReadsFiles;
      PathOfOk(va);
      PathOfFour(va);
      ghost var s0, x := st, Slot(root, PathOf(va));
      var pageAddr := va / 4096 * 4096;
      var flags := Pte(true, 0, v.write, true, false, false, !v.exec, 0);
      if v.backing.File? && pageAddr - v.start < v.backing.size {
        var foff := v.backing.offset + (pageAddr - v.start);
        var key := (v.backing.vnode, foff / 4096 * 4096);
        ok, handled, evs := DemandFilePage(root, PathOf(va), flags, v.shared, key, read(key), room);
        if ok && handled { FileBrought(s0, x, v, va, read(key), evs, st); }
        if ok && !handled { FileRefused(s0, key, read(key), evs, st); }
      } else {
        ok, handled, evs := DemandZeroPage(root, PathOf(va), flags);
        if ok && !handled { ShowsNone(st, st); NoneMeans(st, st); evs := []; }
        if ok && handled { ZeroMeans(s0, x, st.leaf[x], st); }
      }
      if ok && CacheHolds(file, s0) && ReadsFiles(file, read) {
        if handled { FaultShowsFile(file, read, s0, x, v, va, evs, st); }
        DemandCache(file, read, s0, x, v, va, evs, handled, st);
      }
    }

    /** vmm_handle_page_fault, for a fault the processor raised on a user address: write tells a
        store from a load, and the page was present exactly when it was mapped.  ok is false where
        the kernel panics. */
    method HandlePageFault(root: Frame, va: nat, write: bool, present: bool, vmas: seq<Vma>, read: FileKey -> Contents,
                           room: bool, ghost file: Files)
      returns (ok: bool, handled: bool, ghost evs: seq<Event>)
      requires Valid() && Slot(root, []) in st.at && va < USER_SPACE_END && (present <==> Slot(root, PathOf(va)) in st.leaf)
      requires (forall k :: FullPage(read(k))) && forall i :: 0 <= i < |vmas| ==> vmas[i].start % 4096 == 0
      modifies `mem, `st, `cache, pmm, pmm.bitmap, pmm.refs
      ensures Ok()
      ensures ok ==> Valid() && Shows(old(st), evs, st) && st.held == old(st).held && st.base == old(st).base
      ensures ok && handled ==> Slot(root, PathOf(va)) in st.leaf && Undisturbed(old(st), Slot(root, PathOf(va)), st)
      ensures ok && handled && present ==> write && CopyMade(old(st), Slot(root, PathOf(va)), evs, st)
      ensures ok && handled && !present ==>
                exists v :: RegionOf(vmas, va, v) && v.start <= va < v.end
                            && Brought(old(st), Slot(root, PathOf(va)), v, va, ContentsFor(read, v, va), evs, st)
      ensures ok && handled && !present && CacheHolds(file, old(st)) && ReadsFiles(file, read) ==>
                exists v :: RegionOf(vmas, va, v) && ShowsFile(file, v, va, Slot(root, PathOf(va)), st)
      ensures ok && CacheHolds(file, old(st)) && ReadsFiles(file, read) ==> CacheHolds(file, st)
      ensures ok && !handled ==> st.leaf == old(st).leaf && NoPage(old(st), st)
      ensures ok && !handled && present ==> st == old(st) && evs == []
      ensures ok && !handled && present && write && CowPage(old(st), Slot(root, PathOf(va))) ==> NoFreePage(st.counts)
      ensures ok && !handled && !present ==>
                || (st == old(st) && evs == [] && forall i :: 0 <= i < |vmas| ==> !Covers(vmas[i], va))
                || exists v :: RegionOf(vmas, va, v) && Refused(old(st), v, va, ContentsFor(read, v, va), room, evs, st)
      ensures !ok ==> !handled && NoFreePage(st.counts)
    {
      hide Good, Inv, Shows, Pmm.Valid, PathOf, Fetch, NoFreePage, NoPage, OnlyPage, ShowsFile, CacheHolds, ReadsFiles;
      PathOfOk(va);
      PathOfFour(va);
      ok := true;
      ShowsNone(st, st);
      NoneMeans(st, st);
      if write {
        var applies;
        ghost var s0, x := st, Slot(root, PathOf(va));
        applies, handled, evs := HandleCow(root, PathOf(va));
        if applies {
          if handled { CowMeans(s0, x, st.leaf[x].frame, st); CowCache(file, s0, x, evs, st); } else { evs := []; }
          return;
        }
      }
      handled, evs := false, [];
      if !present {
        var found, v := FindVma(vmas, va);
        if !found { return; }
        ok, handled, evs := DemandPage(root, va, v, read, room, file);
      }
    }

    // -------------------------------------------------------------- the rest

    /** vmm_create_address_space */
    method CreateAddressSpace() returns (f: Frame)
      requires Valid()
      modifies `mem, `st, pmm, pmm.bitmap, pmm.refs
      ensures Ok()
      ensures f != 0 ==> Valid() && Slot(f, []) in st.at && st.leaf == old(st).leaf && st.held == old(st).held && st.base == old(st).base && Shows(old(st), [], st)
      ensures f != 0 ==> EmptySpace(st.leaf, f) && KernelHalf(st, f, kernel)
    {
      hide Good, Inv, Shows, Pmm.Valid, KernelHalf;
      ghost var s0 := st;
      f := AllocRoot();
      if f == 0 { return; }
      NewRoot(s0, f);
      CopyKernelHalf(f);
      RootUnseen(s0, f, EmptyTable, st);
      NewSpaceEmpty(s0, f);
    }

    /** A store the processor lets through: the page is mapped and writable. */
    method Store(root: Frame, va: nat, b: FlatVm.byte)
      requires Valid() && Slot(root, []) in st.at && va < USER_SPACE_END
      requires Slot(root, PathOf(va)) in st.leaf && st.leaf[Slot(root, PathOf(va))].write
      modifies `mem, `st, pmm, pmm.bitmap, pmm.refs
      ensures Valid() && Shows(old(st), [Write(Slot(root, PathOf(va)), va % 4096, b)], st)
      ensures st.held == old(st).held && st.base == old(st).base && st.at == old(st).at
    {
      hide Good, Inv, Shows, Pmm.Valid, PathOf, Poke;
      PathOfOk(va);
      PathOfFour(va);
      var found, e := GetPte(root, PathOf(va));
      CowPageData(st, Slot(root, PathOf(va)));
      StoreSeen(st, Slot(root, PathOf(va)), va % 4096, b);
      mem := mem[e.frame := Data(Poke(mem[e.frame].bytes, va % 4096, b))];
      st := Fill(st, e.frame, Poke(st.mem[e.frame].bytes, va % 4096, b));
    }

    /** Fork, and then a store by the parent or the child to a page the parent had: the fault is handled
        unless no page is free, and the store shows in the process that made it and not in the other. */
    method ForkAndStore(src: Frame, va: nat, b: FlatVm.byte, byChild: bool) returns (child: Frame, ok: bool, handled: bool)
      requires Valid() && Slot(src, []) in st.at && va < USER_SPACE_END && Slot(src, PathOf(va)) in st.leaf
      modifies `mem, `st, `cache, pmm, pmm.bitmap, pmm.refs
      ensures Ok() && (child != 0 && ok ==> Valid())
      ensures child != 0 && !handled ==> NoFreePage(st.counts)
      ensures child != 0 && ok && handled ==>
                StoredApart(old(st), Slot(src, PathOf(va)), st, Slot(if byChild then child else src, PathOf(va)),
                            Slot(if byChild then src else child, PathOf(va)), va % 4096, b)
    {
      hide Good, Inv, Shows, Pmm.Valid, PathOf, NoFreePage, Sees, StoredApart, OnlyPage, KernelHalf;
      ghost var s0 := st;
      ok, handled := true, false;
      child := CloneAddressSpace(src);
      if child == 0 { return; }
      ghost var s1 := st;
      var root := if byChild then child else src;
      ghost var x, z := Slot(root, PathOf(va)), Slot(if byChild then src else child, PathOf(va));
      ghost var evs;
      ok, handled, evs := HandlePageFault(root, va, true, true, [], _ => Failed, true, (_, _) => 0);
      if !ok || !handled { return; }
      ghost var s2 := st;
      Store(root, va, b);
      ForkFaultStore(s0, src, child, s1, x, z, evs, s2, va % 4096, b, st);
    }
  }

  /** How many of the first n pages the page cache owns and the rest of the kernel does not use. */
  function CacheOnly(s: St, n: nat): nat
    requires n <= |s.base|
  {
    if n == 0 then 0 else CacheOnly(s, n - 1) + Bit(n - 1 in s.owner && s.base[n - 1] == 0)
  }

  lemma {:induction false} FreeAmongRestored(s: St, n: nat)
    requires |s.base| == |s.counts| && n <= |s.counts|
    requires forall f :: 0 <= f < |s.counts| ==> s.counts[f] == s.base[f] + Bit(f in s.owner)
    ensures FreeAmong(s.counts, n) + CacheOnly(s, n) == FreeAmong(s.base, n)
  {
    if n > 0 { FreeAmongRestored(s, n - 1); }
  }

  /** Destroying every address space restores the free count, less the pages the cache still owns. */
  lemma FreeCountRestored(s: St)
    requires Good(s) && s.at == map[] && s.held == multiset{}
    ensures |s.base| == |s.counts|
    ensures FreeAmong(s.counts, |s.counts|) + CacheOnly(s, |s.counts|) == FreeAmong(s.base, |s.counts|)
  {
    hide Tree, Leaves, DataOk;
    forall f | 0 <= f < |s.counts| ensures s.counts[f] == s.base[f] + Bit(f in s.owner) { AllDestroyed(s, f); }
    FreeAmongRestored(s, |s.counts|);
  }
}
