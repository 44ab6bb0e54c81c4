/** The steps of mm/vmm.c as transformations of the state: what each keeps and what it shows to the
    processes. */
module VmSteps {
  import opened FlatVm
  import opened VmState
  import opened VmUpdates
  import opened VmSubtree

  /** What the processes of s see: the frames in use, without the tables. */
  function View(s: St): Vm {
    Vm(s.leaf, map f | f in s.mem && f < |s.counts| && s.counts[f] > 0 && s.mem[f].Data? :: s.mem[f].bytes, s.owner.Keys)
  }

  /** s' is s after event ev, as far as any process can see. */
  predicate Sees(s: St, ev: Event, s': St) {
    Guard(View(s), ev) && SameSight(Apply(View(s), ev), View(s'))
  }

  const EmptyTable := seq(512, i => Absent)

  /** Page x is mapped by e, no other page changed, and one reference moved into the entry. */
  ghost predicate Mapped(s: St, x: Slot, e: Pte, s': St) {
    && s' == s.(mem := s'.mem, counts := s'.counts, at := s'.at, pos := s'.pos, leaf := s.leaf[x := e],
               held := s.held - multiset{e.frame} + GivenUp(s, x))
    && |s'.counts| == |s.counts|
    && (forall f {:trigger DataKept(s, s', f)} :: f in s.mem ==> DataKept(s, s', f))
    && (forall t :: t in s.at ==> t in s'.at && s'.at[t] == s.at[t])
  }

  ghost predicate Unmapped(s: St, x: Slot, s': St) {
    && s' == s.(mem := s'.mem, leaf := s.leaf - {x}, held := s.held + GivenUp(s, x))
    && (forall f {:trigger DataKept(s, s', f)} :: f in s.mem ==> DataKept(s, s', f))
  }

  lemma MapStep(s0: St, s1: St, x: Slot, e: Pte)
    requires Grown(s0, s1) && Good(s1) && Good(s0) && |x.path| == 4 && PathOk(x.path) && Up(x) in s1.at && IsTable(s1, Up(x))
    requires e.present && IsData(s0, e.frame) && e.frame in s0.held
    ensures LeafPlace(s1, x) && Good(SetLeaf(s1, x, e)) && Mapped(s0, x, e, SetLeaf(s1, x, e))
  {
    hide Tree, Leaves, DataOk, Owed;
    HeldCounted(s0, e.frame);
    assert DataKept(s0, s1, e.frame);
    SetLeafGood(s1, x, e);
    var s2 := SetLeaf(s1, x, e);
    forall f | f in s0.mem ensures DataKept(s0, s2, f) { assert DataKept(s0, s1, f); }
  }

  lemma UnmapStep(s: St, x: Slot)
    requires Good(s) && |x.path| == 4 && PathOk(x.path) && Up(x) in s.at && IsTable(s, Up(x)) && x in s.leaf
    ensures LeafPlace(s, x) && Good(ClearLeaf(s, x)) && Unmapped(s, x, ClearLeaf(s, x))
  {
    hide Tree, Leaves, DataOk, Conserved;
    ClearLeafGood(s, x);
    forall f | f in s.mem ensures DataKept(s, ClearLeaf(s, x), f) {}
  }

  lemma LeafIs(s: St, x: Slot)
    requires Good(s) && |x.path| == 4 && PathOk(x.path) && Up(x) in s.at && IsTable(s, Up(x))
    ensures x in s.leaf <==> Entry(s, Up(x), Last(x)).present
    ensures x in s.leaf ==> s.leaf[x] == Entry(s, Up(x), Last(x))
  {
    hide Children, Parents, Conserved, Distinct, DataOk;
    DownUp(x);
    assert LeafBelow(s, Up(x), Last(x));
    assert x in s.leaf ==> LeafOk(s, x);
  }

  lemma NotMapped(s: St, x: Slot)
    requires Good(s) && |x.path| == 4 && Up(x) !in s.at
    ensures x !in s.leaf
  {
    hide Children, Parents, Conserved, Distinct, DataOk;
    assert x in s.leaf ==> LeafOk(s, x);
  }

  /** The four positions a page address passes through. */
  lemma PathSlots(root: Frame, path: seq<nat>) returns (t1: Slot, t2: Slot, t3: Slot)
    requires |path| == 4 && PathOk(path)
    ensures t1 == Down(Slot(root, []), path[0]) && t2 == Down(t1, path[1]) && t3 == Down(t2, path[2])
    ensures t3 == Up(Slot(root, path)) && Under(t1, t3) && Under(t2, t3)
    ensures PathOk(t1.path) && PathOk(t2.path) && |t1.path| == 1 && |t2.path| == 2 && |t3.path| == 3
    ensures path[0] < 256 && path[1] < 512 && path[2] < 512 && path[3] < 512
  {
    t1 := Down(Slot(root, []), path[0]);
    t2 := Down(t1, path[1]);
    t3 := Down(t2, path[2]);
    assert [] + [path[0]] + [path[1]] + [path[2]] == path[..3];
  }

  /** s' has everything s has, and perhaps more tables. */
  ghost predicate Grown(s: St, s': St) {
    && s' == s.(mem := s'.mem, counts := s'.counts, at := s'.at, pos := s'.pos)
    && |s'.counts| == |s.counts|
    && (forall t :: t in s.at ==> t in s'.at && s'.at[t] == s.at[t])
    && (forall f {:trigger DataKept(s, s', f)} :: f in s.mem ==> DataKept(s, s', f))
  }

  lemma GrownSelf(s: St)
    ensures Grown(s, s)
  {
  }

  lemma GrownTrans(s: St, s1: St, s2: St)
    requires Grown(s, s1) && Grown(s1, s2)
    ensures Grown(s, s2)
  {
    forall f | f in s.mem ensures DataKept(s, s2, f) {
      assert DataKept(s, s1, f);
      assert f in s1.mem ==> DataKept(s1, s2, f);
    }
  }

  lemma ChildFrame(s: St, t: Slot, i: nat)
    requires Good(s) && t in s.at && |t.path| < 3 && i < Width(t.path) && IsTable(s, t) && Entry(s, t, i).present
    ensures Down(t, i) in s.at && s.at[Down(t, i)] == Entry(s, t, i).frame
  {
    hide Parents, Leaves, Conserved, Distinct, DataOk;
    assert ChildOk(s, t, i);
  }

  lemma NoChild(s: St, t: Slot, i: nat)
    requires Good(s) && s.unlinked == {} && t in s.at && |t.path| < 3 && i < Width(t.path) && IsTable(s, t)
    requires !Entry(s, t, i).present
    ensures Down(t, i) !in s.at && PathOk(Down(t, i).path) && 1 <= |Down(t, i).path| <= 3
  {
    hide Leaves, Conserved, DataOk;
    AbsentBelow(s, t, i);
  }

  lemma NoSubtable(s: St, t: Slot, u: Slot)
    requires Good(s) && s.unlinked == {} && t !in s.at && Under(t, u)
    ensures u !in s.at
  {
    hide Leaves, Conserved, DataOk;
    NothingBelow(s, t, u);
  }

  /** A new table hung below entry i. */
  lemma LinkedChild(s0: St, t: Slot, i: nat, child: Frame, e: Pte)
    requires Good(s0) && s0.unlinked == {} && t in s0.at && |t.path| < 3 && i < Width(t.path) && i < 512
    requires MayAdd(s0, Down(t, i), child, EmptyTable) && e.present && !e.huge && e.frame == child
    ensures var s1 := NewTable(s0, Down(t, i), child, EmptyTable);
            && IsTable(s1, t) && Good(Link(s1, t, i, e)) && Link(s1, t, i, e).unlinked == {}
            && Grown(s0, Link(s1, t, i, e)) && s1.at[t] == s0.at[t] && Down(t, i) in s1.at && s1.at[Down(t, i)] == child
  {
    hide Children, Parents, Leaves, Conserved, Distinct, DataOk;
    var s1 := NewTable(s0, Down(t, i), child, EmptyTable);
    NewTableGood(s0, Down(t, i), child, EmptyTable);
    assert Down(t, i) != t;
    LinkGood(s1, t, i, e);
    var s2 := Link(s1, t, i, e);
    assert child != s0.at[t] by { FreshChild(s0, t, child); }
    forall f | f in s0.mem ensures DataKept(s0, s2, f) {}
  }

  lemma FreshChild(s: St, t: Slot, f: Frame)
    requires Good(s) && t in s.at && f < |s.counts| && s.counts[f] == 0
    ensures s.at[t] != f
  {
    FreeFrame(s, f);
  }

  lemma DetachRest(s: St, t: Slot)
    requires IsTable(s, t)
    ensures var s' := Detach(s, t); s'.mem == s.mem && s'.counts == s.counts && s'.cache == s.cache
  {
  }

  lemma UnrefFreed(s0: St, root: Frame, s2: St, s: St)
    requires Freed(s0, Slot(root, []), s2) && root < |s2.counts| && s2.counts[root] > 0 && s == Unref(s2, root)
    ensures Freed(s0, Slot(root, []), s)
  {
  }

  lemma DestroyLeaves(s0: St, root: Frame, s: St)
    requires Freed(s0, Slot(root, []), s)
    ensures View(s).leaf == Apply(View(s0), Destroy(root)).leaf && View(s).cached == Apply(View(s0), Destroy(root)).cached
  {
    forall x ensures x in s.leaf <==> x in Dropped(s0.leaf, root) {}
  }

  lemma DestroyBytes(s0: St, root: Frame, s: St, x: Slot)
    requires Good(s0) && Good(s) && Freed(s0, Slot(root, []), s) && x in Apply(View(s0), Destroy(root)).leaf
    ensures SameBytes(Apply(View(s0), Destroy(root)), View(s), Apply(View(s0), Destroy(root)).leaf[x].frame)
  {
    hide Tree, Leaves, Conserved;
    MappedCounted(s0, x);
    MappedCounted(s, x);
  }

  lemma DestroyCached(s0: St, root: Frame, s: St, g: Frame)
    requires Good(s0) && Good(s) && Freed(s0, Slot(root, []), s) && g in Apply(View(s0), Destroy(root)).cached
    ensures SameBytes(Apply(View(s0), Destroy(root)), View(s), g)
  {
    hide Tree, Leaves, Conserved;
    OwnedCounted(s0, g);
    OwnedCounted(s, g);
  }

  lemma DestroySeen(s0: St, root: Frame, s2: St, s: St)
    requires Good(s0) && Inv(View(s0)) && s0.unlinked == {} && Freed(s0, Slot(root, []), s2) && Good(s)
    requires root < |s2.counts| && s2.counts[root] > 0 && s == Unref(s2, root) && s2.held == s0.held + multiset{root}
    ensures Sees(s0, Destroy(root), s) && Inv(View(s)) && s.unlinked == {} && Freed(s0, Slot(root, []), s)
    ensures s.held == s0.held && s.cache == s0.cache && s.base == s0.base
  {
    hide Good, Inv, View, SameBytes;
    assert s.held == s0.held;
    UnrefFreed(s0, root, s2, s);
    var v, w := Apply(View(s0), Destroy(root)), View(s);
    assert w.leaf == v.leaf && v.cached == w.cached by { DestroyLeaves(s0, root, s); }
    forall x | x in v.leaf ensures SameBytes(v, w, v.leaf[x].frame) {
      DestroyBytes(s0, root, s, x);
    }
    forall g | g in v.cached ensures SameBytes(v, w, g) {
      DestroyCached(s0, root, s, g);
    }
    SeesRefines(s0, Destroy(root), s);
  }

  /** Table t has been detached and the entries before i released. */
  ghost predicate FreeingPages(s0: St, t: Slot, f: Frame, i: nat, s: St) {
    && Good(s0) && Top(s0, t) && |t.path| == 3 && IsTable(s0, t) && s0.at[t] == f && Attached(s0, t)
    && s == Detach(s0, t).(counts := s.counts, held := s0.held + multiset{f} + Frames(s0.mem[f].entries, i))
    && |s.counts| == |s0.counts|
  }

  lemma FreeingBegins(s0: St, t: Slot, f: Frame)
    requires Good(s0) && Top(s0, t) && |t.path| == 3 && IsTable(s0, t) && s0.at[t] == f && Attached(s0, t)
    ensures FreeingPages(s0, t, f, 0, Detach(s0, t))
  {
  }

  lemma FreeingTable(s0: St, t: Slot, f: Frame, i: nat, s: St)
    requires FreeingPages(s0, t, f, i, s) && i < 512
    ensures f in s.mem && s.mem[f].Table? && |s.mem[f].entries| == 512
    ensures !s.mem[f].entries[i].present ==> FreeingPages(s0, t, f, i + 1, s)
  {
    hide Good;
  }

  lemma FreeingRef(s0: St, t: Slot, f: Frame, i: nat, s: St)
    requires FreeingPages(s0, t, f, i, s) && i < 512 && Good(s)
    requires f in s.mem && s.mem[f].Table? && |s.mem[f].entries| == 512 && s.mem[f].entries[i].present
    ensures var e := s.mem[f].entries[i];
            && e.frame in s.held && e.frame < |s.counts| && s.counts[e.frame] > 0
            && FreeingPages(s0, t, f, i + 1, Unref(s, e.frame))
  {
    hide Tree, Leaves, DataOk, Owed, Attached;
    var e := s.mem[f].entries[i];
    var es := s0.mem[f].entries;
    assert Frames(es, i) == multiset{e.frame} + Frames(es, i + 1);
    HeldCounted(s, e.frame);
    assert s0.held + multiset{f} + Frames(es, i) - multiset{e.frame} == s0.held + multiset{f} + Frames(es, i + 1);
  }

  lemma FreeingEnds(s0: St, t: Slot, f: Frame, s: St)
    requires FreeingPages(s0, t, f, 512, s)
    ensures Freed(s0, t, s) && s.held == s0.held + multiset{f}
  {
    hide Good;
    DetachFreesLowest(s0, t);
  }

  lemma GoodConserved(s: St)
    requires Good(s)
    ensures Conserved(s)
  {
  }

  /** Table t has been detached and the subtrees below entries before i freed. */
  ghost predicate FreeingTables(s0: St, t: Slot, f: Frame, i: nat, s: St) {
    && Good(s0) && Top(s0, t) && |t.path| < 3 && IsTable(s0, t) && s0.at[t] == f && Attached(s0, t)
    && FreedUpTo(s0, t, i, s) && s.held == s0.held + multiset{f}
  }

  lemma FreeingStarts(s0: St, t: Slot, f: Frame)
    requires Good(s0) && Top(s0, t) && |t.path| < 3 && IsTable(s0, t) && s0.at[t] == f && Attached(s0, t)
    ensures FreeingTables(s0, t, f, 0, Detach(s0, t))
  {
    DetachFreesTop(s0, t);
  }

  lemma FreeingChild(s0: St, t: Slot, f: Frame, i: nat, s: St)
    requires FreeingTables(s0, t, f, i, s) && i < Width(t.path)
    ensures f in s.mem && s.mem[f].Table? && |s.mem[f].entries| == 512
    ensures var e := s.mem[f].entries[i];
            e.present ==> Top(s, Down(t, i)) && s.at[Down(t, i)] == e.frame && Attached(s, Down(t, i))
  {
    hide Parents, Leaves, Conserved, Distinct, DataOk;
    var v := Down(t, i);
    assert ChildOk(s0, t, i);
    UnderDown(t, i, v);
    UpDown(t, i);
    forall u | u in s.unlinked && Under(v, u) ensures u == v {
      UnderDown(t, i, u);
      if LeafOf(t, u) { LeafOfUnder(t, u); }
    }
  }

  lemma FreedOne(s0: St, t: Slot, f: Frame, i: nat, s1: St, s2: St, c: Frame)
    requires FreeingTables(s0, t, f, i, s1) && Freed(s1, Down(t, i), s2) && s2.held == s1.held + multiset{c}
    requires c < |s2.counts| && s2.counts[c] > 0
    ensures FreeingTables(s0, t, f, i + 1, Unref(s2, c))
  {
    hide Good, Freed;
    FreedNext(s0, t, i, s1, s2);
    assert s2.held - multiset{c} == s1.held;
  }

  lemma FreedNone(s0: St, t: Slot, f: Frame, i: nat, s: St)
    requires FreeingTables(s0, t, f, i, s) && i < Width(t.path) && i < 512 && f in s.mem && s.mem[f].Table? && |s.mem[f].entries| == 512
    requires !s.mem[f].entries[i].present
    ensures FreeingTables(s0, t, f, i + 1, s)
  {
    hide Good;
    FreedSkip(s0, t, i, s);
  }

  lemma FreeingDone(s0: St, t: Slot, f: Frame, s: St)
    requires FreeingTables(s0, t, f, Width(t.path), s)
    ensures Freed(s0, t, s) && s.held == s0.held + multiset{f}
  {
    hide Good;
    FreedAll(s0, t, s);
  }

  /** What a step shows to the processes is what it does to separate memories. */
  lemma SeesRefines(s: St, ev: Event, s': St)
    requires Inv(View(s)) && Sees(s, ev, s')
    ensures Inv(View(s')) && Sensible(Abs(View(s)), ev) && Abs(View(s')) == Do(Abs(View(s)), ev)
  {
    hide OneWriter, View, Guard, Apply, Do, Sensible;
    StepRefines(View(s), ev);
    SightSuffices(Apply(View(s), ev), View(s'));
  }

  lemma CloneLeavesAre(s0: St, src: Frame, f: Frame, s1: St, x: Slot)
    requires Cloning(s0, Slot(src, []), 256, f, s1) && EmptySpace(s0.leaf, f)
    ensures x in s1.leaf <==> x in CloneLeaves(s0.leaf, src, f)
    ensures x in s1.leaf ==> s1.leaf[x] == CloneLeaves(s0.leaf, src, f)[x]
  {
    hide Good;
    var t := Slot(src, []);
    hide CloneLeaves;
    CloneKeys(s0.leaf, src, f, x);
    if x.root == f && Slot(src, x.path) in s0.leaf {
      RootGone(s0, src, Slot(src, x.path));
      assert CopiedTo(s1, Slot(src, x.path), f);
    }
    if x in s0.leaf {
      RootGone(s0, src, x);
      assert Kept(s0, s1, x, Gone(t, 256, x));
    } else if x in s1.leaf {
      assert CopyFrom(s0, s1, t, 256, f, x);
    }
  }

  lemma RootGone(s: St, src: Frame, x: Slot)
    requires Good(s) && x in s.leaf
    ensures Gone(Slot(src, []), 256, x) <==> x.root == src
  {
    hide Children, Parents, Conserved, Distinct, DataOk;
    assert LeafOk(s, x);
    LeafPathOk(s, x);
  }

  lemma CloneSeen(s0: St, src: Frame, f: Frame, s1: St, s: St)
    requires Cloning(s0, Slot(src, []), 256, f, s1) && Good(s) && s == s1.(mem := s.mem) && SameData(s1, s)
    requires s0.unlinked == {} && Inv(View(s0))
    ensures Sees(s0, Clone(src, f), s) && Inv(View(s)) && s.unlinked == {}
    ensures s.held == s0.held && s.cache == s0.cache && s.base == s0.base
    ensures Forked(s0.leaf, src, f, s.leaf)
  {
    hide Good, ClonedUpTo, Inv, Vacant, CloneLeaves, SameData, Forked;
    CloneKeepsRest(s0, src, f, s1);
    VacantSpace(s0, src, f);
    var v, w := Apply(View(s0), Clone(src, f)), View(s);
    forall x ensures x in s.leaf <==> x in v.leaf
             ensures x in s.leaf ==> s.leaf[x] == v.leaf[x]
    {
      CloneLeavesAre(s0, src, f, s1, x);
    }
    assert s.leaf == v.leaf;
    forall x | x in v.leaf ensures SameBytes(v, w, v.leaf[x].frame) {
      CloneKeys(s0.leaf, src, f, x);
      MappedCounted(s0, if x in s0.leaf then x else Slot(src, x.path));
      CloneBytes(s0, src, f, s1, s, v.leaf[x].frame);
    }
    forall g | g in v.cached ensures SameBytes(v, w, g) {
      OwnedCounted(s0, g);
      CloneBytes(s0, src, f, s1, s, g);
    }
    SeesRefines(s0, Clone(src, f), s);
    ForkedLeaves(s0, src, f, s);
  }

  /** What a fork leaves in the tables: every page of src is shared copy-on-write between src and dst,
      and no other page changes. */
  ghost predicate Forked(leaf: map<Slot, Pte>, src: Frame, dst: Frame, leaf': map<Slot, Pte>) {
    && (forall y :: y in leaf && y.root == src ==>
          y in leaf' && Slot(dst, y.path) in leaf' && SharedEntry(leaf[y], leaf'[y]) && SharedEntry(leaf[y], leaf'[Slot(dst, y.path)]))
    && (forall y :: y in leaf && y.root != src ==> y in leaf' && leaf'[y] == leaf[y])
    && (forall y :: y in leaf' ==> y in leaf || (y.root == dst && Slot(src, y.path) in leaf))
  }

  lemma ClonedShares(s: St, t: Slot, dst: Frame, s': St)
    requires Cloned(s, t, dst, s') && Vacant(s, t, dst)
    ensures forall y :: y in s.leaf && Gone(t, 512, y) ==>
              && y in s'.leaf && SharedEntry(s.leaf[y], s'.leaf[y])
              && Twin(y, dst) in s'.leaf && SharedEntry(s.leaf[y], s'.leaf[Twin(y, dst)])
  {
    forall y | y in s.leaf && Gone(t, 512, y)
      ensures y in s'.leaf && SharedEntry(s.leaf[y], s'.leaf[y])
      ensures Twin(y, dst) in s'.leaf && SharedEntry(s.leaf[y], s'.leaf[Twin(y, dst)])
    {
      assert Kept(s, s', y, true);
      assert CopiedTo(s', y, dst);
      assert Under(Twin(t, dst), Twin(y, dst));
      assert CopyFrom(s, s', t, 512, dst, Twin(y, dst));
    }
  }

  lemma ForkedLeaves(s0: St, src: Frame, f: Frame, s: St)
    requires Sees(s0, Clone(src, f), s)
    ensures Forked(s0.leaf, src, f, s.leaf)
  {
    hide CloneLeaves;
    assert s.leaf == CloneLeaves(s0.leaf, src, f);
    forall y ensures y in s0.leaf && y.root == src ==>
                       && y in s.leaf && SharedEntry(s0.leaf[y], s.leaf[y])
                       && Slot(f, y.path) in s.leaf && SharedEntry(s0.leaf[y], s.leaf[Slot(f, y.path)])
             ensures y in s0.leaf && y.root != src ==> y in s.leaf && s.leaf[y] == s0.leaf[y]
             ensures y in s.leaf ==> y in s0.leaf || (y.root == f && Slot(src, y.path) in s0.leaf)
    {
      CloneKeys(s0.leaf, src, f, y);
      CloneKeys(s0.leaf, src, f, Slot(f, y.path));
    }
  }

  /** Entries 256 to 511 of the root table f are the kernel's. */
  predicate KernelHalf(s: St, f: Frame, kernel: seq<Pte>) {
    && |kernel| == 512 && f in s.mem && s.mem[f].Table? && |s.mem[f].entries| == 512
    && s.mem[f].entries[256..] == kernel[256..]
  }

  lemma CloneKeepsRest(s0: St, src: Frame, f: Frame, s1: St)
    requires Cloning(s0, Slot(src, []), 256, f, s1)
    ensures s1.held == s0.held && s1.cache == s0.cache && s1.base == s0.base && s1.owner == s0.owner && s1.unlinked == s0.unlinked
  {
    hide Good;
  }

  lemma CloneBytes(s0: St, src: Frame, f: Frame, s1: St, s: St, g: Frame)
    requires Cloning(s0, Slot(src, []), 256, f, s1) && s == s1.(mem := s.mem) && SameData(s1, s)
    requires g < |s0.counts| && s0.counts[g] > 0 && (g in s0.owner || exists x :: x in s0.leaf && s0.leaf[x].frame == g)
    ensures SameBytes(View(s0), View(s), g)
  {
    hide Tree, Leaves, Conserved, Vacant;
    assert DataKept(s0, s1, g);
  }

  lemma VacantSpace(s: St, src: Frame, f: Frame)
    requires Vacant(s, Slot(src, []), f)
    ensures EmptySpace(s.leaf, f) && src != f
  {
  }

  lemma OwnedCounted(s: St, f: Frame)
    requires Good(s) && f in s.owner
    ensures IsData(s, f) && s.counts[f] > 0
  {
    hide Tree, Leaves;
    assert s.counts[f] == Owed(s, f);
  }

  /** Data pages are untouched. */
  ghost predicate SameData(s: St, s': St) {
    forall g :: IsData(s, g) ==> IsData(s', g) && s'.mem[g] == s.mem[g]
  }

  lemma KernelEntryData(s0: St, s: St, t: Slot, i: nat, e: Pte)
    requires Good(s) && t in s.at && i < 512 && SameData(s0, s)
    ensures IsTable(s, t) && SameData(s0, SetEntry(s, t, i, e))
  {
    hide Children, Parents, Leaves, Conserved, Distinct;
  }

  lemma RootFrame(s: St, src: Frame)
    requires Good(s) && Slot(src, []) in s.at
    ensures s.at[Slot(src, [])] == src
  {
  }

  /** Every table and page belongs to an address space whose root table exists. */
  lemma {:induction false} RootsExist(s: St, u: Slot)
    requires Tree(s) && s.unlinked == {} && u in s.at
    ensures Slot(u.root, []) in s.at
    decreases |u.path|
  {
    if u.path != [] {
      assert ParentOk(s, u);
      RootsExist(s, Up(u));
    }
  }

  lemma NewRoot(s: St, f: Frame)
    requires Good(s) && s.unlinked == {} && f < |s.counts| && s.counts[f] == 0
    ensures MayAdd(s, Slot(f, []), f, EmptyTable)
    ensures forall src :: Slot(src, []) in s.at ==> Vacant(s, Slot(src, []), f)
  {
    FreeFrame(s, f);
    hide Children, Conserved, Parents;
    forall u | u in s.at ensures u.root != f {
      RootsExist(s, u);
      assert s.at[Slot(u.root, [])] == u.root;
    }
    forall x | x in s.leaf ensures x.root != f { assert LeafOk(s, x); }
  }

  /** The state after a child table has been cloned and linked. */
  lemma SubtreeRound(s0: St, t: Slot, i: nat, dst: Frame, s: St, s2: St) returns (s3: St)
    requires Cloning(s0, t, i, dst, s) && |t.path| < 3 && i < Width(t.path) && IsTable(s, t) && IsTable(s, Twin(t, dst))
    requires Entry(s, t, i).present && Down(t, i) in s.at && Good(s2) && Cloned(s, Down(t, i), dst, s2)
    ensures var u := Twin(t, dst);
            && t in s2.at && s2.at[t] == s.at[t] && u in s2.at && s2.at[u] == s.at[u] && IsTable(s2, u)
            && Twin(Down(t, i), dst) in s2.at
            && s3 == s2.(mem := s2.mem[s2.at[u] := Table(s2.mem[s2.at[u]].entries[i := Entry(s, t, i).(frame := s2.at[Twin(Down(t, i), dst)])])],
                         unlinked := s3.unlinked)
            && Good(s3) && Cloning(s0, t, i + 1, dst, s3)
  {
    hide Good, Cloning, Cloned, ClonedUpTo, IsTable, MayLink;
    var u := Twin(t, dst);
    var e := ChildReady(s0, t, i, dst, s, s2);
    s3 := Link(s2, u, i, e);
    LinkGood(s2, u, i, e);
    SubtreeCloned(s0, t, i, dst, s, s2, e, s3);
    assert s3.unlinked == s.unlinked;
    RoundCloning(s0, t, i, dst, s, s3);
  }

  /** The cloned child can be linked into the copy of its parent. */
  lemma ChildReady(s0: St, t: Slot, i: nat, dst: Frame, s: St, s2: St) returns (e: Pte)
    requires Cloning(s0, t, i, dst, s) && |t.path| < 3 && i < Width(t.path) && IsTable(s, t) && IsTable(s, Twin(t, dst))
    requires Entry(s, t, i).present && Down(t, i) in s.at && Good(s2) && Cloned(s, Down(t, i), dst, s2)
    ensures var u := Twin(t, dst);
            && t in s2.at && s2.at[t] == s.at[t] && u in s2.at && s2.at[u] == s.at[u] && IsTable(s2, u) && i < 512
            && Twin(Down(t, i), dst) == Down(u, i) && Down(u, i) in s2.at && e == Entry(s, t, i).(frame := s2.at[Down(u, i)])
            && MayLink(s2, u, i, e) && Down(u, i) !in s.unlinked && s2.unlinked == s.unlinked + {Down(u, i)}
  {
    hide Good, Cloning, Vacant;
    var u := Twin(t, dst);
    CloningGood(s0, t, i, dst, s);
    GoodTable(s2, u);
    NotHuge(s, t, i);
    NotUnlinkedYet(s0, t, i, dst, s);
    e := Entry(s, t, i).(frame := s2.at[Twin(Down(t, i), dst)]);
  }

  lemma CloningGood(s0: St, t: Slot, i: nat, dst: Frame, s: St)
    requires Cloning(s0, t, i, dst, s)
    ensures Good(s)
  {
  }

  lemma RoundCloning(s0: St, t: Slot, i: nat, dst: Frame, s: St, s3: St)
    requires Cloning(s0, t, i, dst, s) && Good(s3) && ClonedUpTo(s0, t, i + 1, dst, s3)
    requires s3.unlinked == s.unlinked && Twin(t, dst) in s3.at
    ensures Cloning(s0, t, i + 1, dst, s3)
  {
    hide Good, ClonedUpTo, Vacant;
  }

  lemma NotHuge(s: St, t: Slot, i: nat)
    requires Good(s) && t in s.at && |t.path| < 3 && i < Width(t.path) && Entry(s, t, i).present
    ensures !Entry(s, t, i).huge
  {
    hide Parents, Leaves, Conserved, Distinct, DataOk;
    assert ChildOk(s, t, i);
  }

  lemma NotUnlinkedYet(s0: St, t: Slot, i: nat, dst: Frame, s: St)
    requires Cloning(s0, t, i, dst, s)
    ensures Down(Twin(t, dst), i) !in s.unlinked
  {
    hide Good;
    UnderDown(Twin(t, dst), i, Down(Twin(t, dst), i));
  }

  lemma GoodTable(s: St, t: Slot)
    requires Good(s) && t in s.at
    ensures IsTable(s, t) && PathOk(t.path) && |t.path| <= 3
  {
  }

  lemma CloningTables(s0: St, t: Slot, i: nat, dst: Frame, s: St)
    requires Cloning(s0, t, i, dst, s)
    ensures IsTable(s, t) && IsTable(s, Twin(t, dst)) && t.root != dst && s.at[t] != s.at[Twin(t, dst)] && Good(s)
  {
    hide Children, Parents, Leaves, Conserved;
  }

  /** The state after one round of clone_pt on a present entry. */
  lemma PageRound(s0: St, t: Slot, i: nat, dst: Frame, s: St) returns (s': St)
    requires Cloning(s0, t, i, dst, s) && |t.path| == 3 && i < 512 && IsTable(s, t) && IsTable(s, Twin(t, dst)) && Entry(s, t, i).present
    ensures var e := Entry(s, t, i);
            var m1 := s.mem[s.at[t] := Table(s.mem[s.at[t]].entries[i := CowMark(e)])];
            && e.frame < |s.counts| && s.counts[e.frame] > 0
            && s.at[Twin(t, dst)] in m1 && m1[s.at[Twin(t, dst)]].Table? && |m1[s.at[Twin(t, dst)]].entries| == 512
            && s'.mem == m1[s.at[Twin(t, dst)] := Table(m1[s.at[Twin(t, dst)]].entries[i := CowMark(e)])]
            && s'.counts == s.counts[e.frame := s.counts[e.frame] + 1]
            && s'.cache == s.cache && s'.at == s.at
            && Good(s') && Cloning(s0, t, i + 1, dst, s')
  {
    hide Good, ClonedUpTo, Vacant;
    CloningTables(s0, t, i, dst, s);
    var x := Down(t, i);
    PageStep(s0, t, i, dst, s);
    UpDown(t, i);
    UpDown(Twin(t, dst), i);
    assert Twin(x, dst) == Down(Twin(t, dst), i);
    MappedCounted(s, x);
    ClonePageGood(s, x, dst);
    ClonePageIs(s, x, dst);
    s' := ClonePage(s, x, dst);
    PageCloned(s0, t, i, dst, s, s');
  }

  lemma VacantTwin(s: St, t: Slot, dst: Frame)
    requires Good(s) && t in s.at && Vacant(s, t, dst)
    ensures Twin(t, dst) !in s.at && PathOk(Twin(t, dst).path)
  {
  }

  lemma MappedCounted(s: St, x: Slot)
    requires Good(s) && x in s.leaf
    ensures s.leaf[x].frame < |s.counts| && s.counts[s.leaf[x].frame] > 0
  {
    hide Tree, Leaves;
    var f := s.leaf[x].frame;
    assert x in Mappers(s.leaf, f);
    assert s.counts[f] == Owed(s, f);
  }

  lemma EmptyGood(s: St)
    requires s == St(map[], s.counts, map[], map[], map[], {}, map[], map[], s.counts, multiset{})
    ensures Good(s) && Inv(View(s))
  {
    forall f | 0 <= f < |s.counts| ensures s.counts[f] == Owed(s, f) {
      assert Mappers(s.leaf, f) == {};
    }
  }
}
