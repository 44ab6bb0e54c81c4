/** The elementary updates of page tables and reference counts, each keeping the invariant. */
module VmUpdates {
  import opened FlatVm
  import opened VmState

  // ---------------------------------------------------------------- counting mappers

  lemma MappersAdd(leaf: map<Slot, Pte>, x: Slot, e: Pte, f: Frame)
    requires x !in leaf
    ensures |Mappers(leaf[x := e], f)| == |Mappers(leaf, f)| + Bit(e.frame == f)
  {
    var m := Mappers(leaf, f);
    if e.frame == f {
      assert Mappers(leaf[x := e], f) == m + {x};
    } else {
      assert Mappers(leaf[x := e], f) == m;
    }
  }

  lemma MappersRemove(leaf: map<Slot, Pte>, x: Slot, f: Frame)
    requires x in leaf
    ensures |Mappers(leaf - {x}, f)| == |Mappers(leaf, f)| - Bit(leaf[x].frame == f)
  {
    var m := Mappers(leaf, f);
    if leaf[x].frame == f {
      assert m == Mappers(leaf - {x}, f) + {x};
    } else {
      assert Mappers(leaf - {x}, f) == m;
    }
  }

  lemma MappersReplace(leaf: map<Slot, Pte>, x: Slot, e: Pte, f: Frame)
    requires x in leaf
    ensures |Mappers(leaf[x := e], f)| == |Mappers(leaf, f)| - Bit(leaf[x].frame == f) + Bit(e.frame == f)
  {
    MappersRemove(leaf, x, f);
    MappersAdd(leaf - {x}, x, e, f);
    assert leaf[x := e] == (leaf - {x})[x := e];
  }

  /** A page without references is in nobody's hands. */
  lemma FreeFrame(s: St, f: Frame)
    requires Conserved(s) && f < |s.counts| && s.counts[f] == 0
    ensures f !in s.pos && f !in s.owner && s.held[f] == 0
    ensures forall x :: x in s.leaf ==> s.leaf[x].frame != f
  {
    assert s.counts[f] == Owed(s, f);
    assert Mappers(s.leaf, f) == {};
    forall x | x in s.leaf ensures s.leaf[x].frame != f {
      assert x !in Mappers(s.leaf, f);
    }
  }

  // ---------------------------------------------------------------- a new table

  predicate FreshEntries(es: seq<Pte>, p: seq<nat>) {
    |es| == 512 && forall i :: 0 <= i < Width(p) ==> !es[i].present
  }

  predicate MayAdd(s: St, t: Slot, f: Frame, es: seq<Pte>) {
    && f < |s.counts| && s.counts[f] == 0
    && t !in s.at && |t.path| <= 3 && PathOk(t.path) && (t.path == [] ==> f == t.root)
    && FreshEntries(es, t.path)
  }

  /** vmm_alloc_page_table: frame f becomes an empty table at position t. */
  function NewTable(s: St, t: Slot, f: Frame, es: seq<Pte>): St
    requires f < |s.counts|
  {
    s.(mem := s.mem[f := Table(es)], counts := s.counts[f := 1], at := s.at[t := f], pos := s.pos[f := t],
    unlinked := if t.path == [] then s.unlinked else s.unlinked + {t})
  }

  /** The tables of s are in s' as they were. */
  predicate KeepsTables(s: St, s': St) {
    && |s'.counts| == |s.counts|
    && (forall t :: t in s.at ==> t in s'.at && s'.at[t] == s.at[t])
    && (forall t :: t in s.at && IsTable(s, t) ==> s.at[t] in s'.mem && s'.mem[s.at[t]] == s.mem[s.at[t]])
  }

  lemma KeptEntry(s: St, s': St, t: Slot, i: nat)
    requires KeepsTables(s, s') && IsTable(s, t) && i < 512
    ensures IsTable(s', t) && Entry(s', t, i) == Entry(s, t, i)
  {
  }

  lemma KeptChildren(s: St, s': St, t: Slot, i: nat)
    requires TablesOk(s) && Children(s) && KeepsTables(s, s') && t in s.at && |t.path| < 3 && i < Width(t.path)
    requires forall u :: u in s.at && u !in s.unlinked ==> u !in s'.unlinked
    ensures IsTable(s', t) && ChildOk(s', t, i)
  {
    assert ChildOk(s, t, i);
    KeptEntry(s, s', t, i);
  }

  lemma KeptParents(s: St, s': St, t: Slot)
    requires TablesOk(s) && TablesOk(s') && Parents(s) && KeepsTables(s, s')
    requires t in s.at && t.path != [] && t !in s.unlinked
    ensures ParentOk(s', t)
  {
    assert ParentOk(s, t);
    KeptEntry(s, s', Up(t), Last(t));
  }

  lemma KeptLeaves(s: St, s': St)
    requires TablesOk(s) && TablesOk(s') && Leaves(s) && KeepsTables(s, s') && s'.leaf == s.leaf
    requires forall t, i :: t in s'.at && t !in s.at && 0 <= i < 512 && |t.path| == 3 ==> !Entry(s', t, i).present
    ensures Leaves(s')
  {
    forall t, i | t in s'.at && |t.path| == 3 && 0 <= i < 512 ensures LeafBelow(s', t, i) {
      if t in s.at {
        assert LeafBelow(s, t, i);
        KeptEntry(s, s', t, i);
      }
    }
    forall x | x in s.leaf ensures LeafOk(s', x) {
      assert LeafOk(s, x);
      KeptEntry(s, s', Up(x), Last(x));
    }
  }

  /** Nothing but data pages and counts changed. */
  lemma FrameTables(s: St, s': St)
    requires Tree(s) && Leaves(s) && KeepsTables(s, s')
    requires s'.at == s.at && s'.pos == s.pos && s'.unlinked == s.unlinked && s'.leaf == s.leaf
    ensures Tree(s') && Leaves(s')
  {
    forall t, i | t in s.at && |t.path| < 3 && 0 <= i < Width(t.path) ensures ChildOk(s', t, i) {
      KeptChildren(s, s', t, i);
    }
    forall t | t in s.at && t.path != [] && t !in s.unlinked ensures ParentOk(s', t) {
      KeptParents(s, s', t);
    }
    KeptLeaves(s, s');
  }

  lemma NewTableKeeps(s: St, t: Slot, f: Frame, es: seq<Pte>)
    requires Good(s) && MayAdd(s, t, f, es)
    ensures KeepsTables(s, NewTable(s, t, f, es)) && TablesOk(NewTable(s, t, f, es)) && Distinct(NewTable(s, t, f, es))
  {
    FreeFrame(s, f);
  }

  lemma NewTableTree(s: St, t: Slot, f: Frame, es: seq<Pte>)
    requires Good(s) && MayAdd(s, t, f, es)
    ensures Tree(NewTable(s, t, f, es)) && Leaves(NewTable(s, t, f, es))
  {
    hide Conserved, DataOk;
    var s' := NewTable(s, t, f, es);
    NewTableKeeps(s, t, f, es);
    forall u, i | u in s'.at && |u.path| < 3 && 0 <= i < Width(u.path) ensures ChildOk(s', u, i) {
      if u != t { KeptChildren(s, s', u, i); }
    }
    forall u | u in s'.at && u.path != [] && u !in s'.unlinked ensures ParentOk(s', u) {
      KeptParents(s, s', u);
    }
    KeptLeaves(s, s');
  }

  lemma NewTableGood(s: St, t: Slot, f: Frame, es: seq<Pte>)
    requires Good(s) && MayAdd(s, t, f, es)
    ensures Good(NewTable(s, t, f, es))
  {
    hide Tree, Leaves, Mappers;
    NewTableTree(s, t, f, es);
    FreeFrame(s, f);
    var s' := NewTable(s, t, f, es);
    forall g | 0 <= g < |s.counts| ensures s'.counts[g] == Owed(s', g) {
      assert s.counts[g] == Owed(s, g);
    }
  }

  // ---------------------------------------------------------------- writing one entry

  function SetEntry(s: St, t: Slot, i: nat, e: Pte): St
    requires IsTable(s, t) && i < 512
  {
    s.(mem := s.mem[s.at[t] := Table(s.mem[s.at[t]].entries[i := e])])
  }

  lemma SetEntryOk(s: St, t: Slot, i: nat, e: Pte)
    requires TablesOk(s) && Distinct(s) && t in s.at && i < 512
    ensures TablesOk(SetEntry(s, t, i, e)) && Distinct(SetEntry(s, t, i, e))
  {
  }

  /** Distinct pages never share an entry: a write to one entry leaves all others. */
  lemma SetEntryIs(s: St, t: Slot, i: nat, e: Pte, u: Slot, j: nat)
    requires TablesOk(s) && Distinct(s) && t in s.at && i < 512 && u in s.at && j < 512
    ensures IsTable(SetEntry(s, t, i, e), u)
    ensures Entry(SetEntry(s, t, i, e), u, j) == if u == t && j == i then e else Entry(s, u, j)
  {
  }

  /** Entries that are not part of the tree of tables: leaf entries and the kernel half of a root. */
  lemma SetEntryTree(s: St, t: Slot, i: nat, e: Pte)
    requires Tree(s) && t in s.at && i < 512 && (|t.path| == 3 || i >= Width(t.path))
    ensures Tree(SetEntry(s, t, i, e))
  {
    var s' := SetEntry(s, t, i, e);
    SetEntryOk(s, t, i, e);
    forall u, j | u in s.at && |u.path| < 3 && 0 <= j < Width(u.path) ensures ChildOk(s', u, j) {
      assert ChildOk(s, u, j);
      SetEntryIs(s, t, i, e, u, j);
    }
    forall u | u in s.at && u.path != [] && u !in s.unlinked ensures ParentOk(s', u) {
      assert ParentOk(s, u);
      SetEntryIs(s, t, i, e, Up(u), Last(u));
    }
  }

  /** The kernel half of a root table, copied from the kernel's own. */
  lemma KernelEntryGood(s: St, t: Slot, i: nat, e: Pte)
    requires Good(s) && t in s.at && t.path == [] && 256 <= i < 512
    ensures Good(SetEntry(s, t, i, e))
  {
    hide Conserved, Distinct, Children, Parents, Leaves;
    var s' := SetEntry(s, t, i, e);
    SetEntryTree(s, t, i, e);
    assert Leaves(s') by { KernelEntryLeaves(s, t, i, e); }
    assert Conserved(s') by { SameCounts(s, s'); }
    TablesAreNotData(s, t);
  }

  lemma KernelEntryLeaves(s: St, t: Slot, i: nat, e: Pte)
    requires Tree(s) && Leaves(s) && t in s.at && t.path == [] && 256 <= i < 512 && Tree(SetEntry(s, t, i, e))
    ensures Leaves(SetEntry(s, t, i, e))
  {
    var s' := SetEntry(s, t, i, e);
    forall u, j | u in s.at && |u.path| == 3 && 0 <= j < 512 ensures LeafBelow(s', u, j) {
      assert LeafBelow(s, u, j);
      SetEntryIs(s, t, i, e, u, j);
    }
    forall x | x in s.leaf ensures LeafOk(s', x) {
      assert LeafOk(s, x);
      SetEntryIs(s, t, i, e, Up(x), Last(x));
    }
  }

  lemma SameCounts(s: St, s': St)
    requires Conserved(s) && s' == s.(mem := s'.mem, at := s'.at, unlinked := s'.unlinked)
    ensures Conserved(s')
  {
    forall f | 0 <= f < |s.counts| ensures s'.counts[f] == Owed(s', f) {
      assert s.counts[f] == Owed(s, f);
    }
  }

  lemma TablesAreNotData(s: St, t: Slot)
    requires Good(s) && t in s.at
    ensures (forall x :: x in s.leaf ==> s.leaf[x].frame != s.at[t]) && s.at[t] !in s.owner
  {
    assert IsTable(s, t);
  }

  // ---------------------------------------------------------------- linking a table

  predicate MayLink(s: St, t: Slot, i: nat, e: Pte) {
    && t in s.at && |t.path| < 3 && i < Width(t.path) && Down(t, i) in s.unlinked && Down(t, i) in s.at
    && e.present && !e.huge && e.frame == s.at[Down(t, i)]
  }

  function Link(s: St, t: Slot, i: nat, e: Pte): St
    requires IsTable(s, t) && i < 512
  {
    SetEntry(s, t, i, e).(unlinked := s.unlinked - {Down(t, i)})
  }

  lemma LinkTree(s: St, t: Slot, i: nat, e: Pte)
    requires Tree(s) && MayLink(s, t, i, e)
    ensures Tree(Link(s, t, i, e))
  {
    var s' := Link(s, t, i, e);
    SetEntryOk(s, t, i, e);
    forall u, j | u in s.at && |u.path| < 3 && 0 <= j < Width(u.path) ensures ChildOk(s', u, j) {
      assert ChildOk(s, u, j);
      SetEntryIs(s, t, i, e, u, j);
    }
    forall u | u in s.at && u.path != [] && u !in s'.unlinked ensures ParentOk(s', u) {
      if u == Down(t, i) {
        UpDown(t, i);
      } else {
        assert ParentOk(s, u);
      }
      SetEntryIs(s, t, i, e, Up(u), Last(u));
    }
  }

  lemma LinkLeaves(s: St, t: Slot, i: nat, e: Pte)
    requires Tree(s) && Leaves(s) && MayLink(s, t, i, e) && Tree(Link(s, t, i, e))
    ensures Leaves(Link(s, t, i, e))
  {
    var s' := Link(s, t, i, e);
    forall u, j | u in s.at && |u.path| == 3 && 0 <= j < 512 ensures LeafBelow(s', u, j) {
      assert LeafBelow(s, u, j);
      SetEntryIs(s, t, i, e, u, j);
    }
    forall x | x in s.leaf ensures LeafOk(s', x) {
      assert LeafOk(s, x);
      SetEntryIs(s, t, i, e, Up(x), Last(x));
    }
  }

  lemma LinkGood(s: St, t: Slot, i: nat, e: Pte)
    requires Good(s) && MayLink(s, t, i, e)
    ensures Good(Link(s, t, i, e))
  {
    hide Conserved, Distinct, Children, Parents, Leaves;
    LinkTree(s, t, i, e);
    LinkLeaves(s, t, i, e);
    SameCounts(s, Link(s, t, i, e));
    TablesAreNotData(s, t);
  }

  // ---------------------------------------------------------------- leaf entries

  predicate LeafPlace(s: St, x: Slot) {
    |x.path| == 4 && Last(x) < 512 && Up(x) in s.at
  }

  /** The reference a present entry gives up when it is overwritten. */
  function GivenUp(s: St, x: Slot): multiset<Frame> {
    if x in s.leaf then multiset{s.leaf[x].frame} else multiset{}
  }

  /** Storing entry e for page x consumes a held reference to its frame and hands back the one the
      old entry had. */
  function SetLeaf(s: St, x: Slot, e: Pte): St
    requires LeafPlace(s, x) && IsTable(s, Up(x))
  {
    SetEntry(s, Up(x), Last(x), e).(leaf := s.leaf[x := e], held := s.held - multiset{e.frame} + GivenUp(s, x))
  }

  function ClearLeaf(s: St, x: Slot): St
    requires LeafPlace(s, x) && IsTable(s, Up(x))
  {
    SetEntry(s, Up(x), Last(x), Absent).(leaf := s.leaf - {x}, held := s.held + GivenUp(s, x))
  }

  /** New flags for a page that stays mapped to the same frame. */
  function Remark(s: St, x: Slot, e: Pte): St
    requires LeafPlace(s, x) && IsTable(s, Up(x))
  {
    SetEntry(s, Up(x), Last(x), e).(leaf := s.leaf[x := e])
  }

  lemma LeafTree(s: St, x: Slot, e: Pte)
    requires Tree(s) && Leaves(s) && LeafPlace(s, x)
    ensures Tree(SetEntry(s, Up(x), Last(x), e))
    ensures var s' := SetEntry(s, Up(x), Last(x), e).(leaf := if e.present then s.leaf[x := e] else s.leaf - {x});
            Tree(s') && Leaves(s')
  {
    var t, i := Up(x), Last(x);
    SetEntryTree(s, t, i, e);
    var s0 := SetEntry(s, t, i, e);
    var s' := s0.(leaf := if e.present then s.leaf[x := e] else s.leaf - {x});
    SameTree(s0, s');
    forall u, j | u in s.at && |u.path| == 3 && 0 <= j < 512 ensures LeafBelow(s', u, j) {
      assert LeafBelow(s, u, j);
      SetEntryIs(s, t, i, e, u, j);
      DownUp(x);
      DownInjective(u, j, t, i);
    }
    forall y | y in s'.leaf ensures LeafOk(s', y) {
      if y in s.leaf { assert LeafOk(s, y); }
      SetEntryIs(s, t, i, e, Up(y), Last(y));
      DownUp(x);
      DownUp(y);
    }
  }

  lemma SameTree(s: St, s': St)
    requires Tree(s) && s'.mem == s.mem && s'.at == s.at && s'.pos == s.pos && s'.unlinked == s.unlinked
    requires |s'.counts| == |s.counts|
    ensures Tree(s')
  {
    forall u, j | u in s.at && |u.path| < 3 && 0 <= j < Width(u.path) ensures ChildOk(s', u, j) {
      assert ChildOk(s, u, j);
    }
    forall u | u in s.at && u.path != [] && u !in s.unlinked ensures ParentOk(s', u) {
      assert ParentOk(s, u);
    }
  }

  lemma SetLeafCounts(s: St, x: Slot, e: Pte)
    requires Conserved(s) && LeafPlace(s, x) && IsTable(s, Up(x)) && e.frame in s.held
    requires x in s.leaf ==> s.leaf[x].frame < |s.counts|
    ensures Conserved(SetLeaf(s, x, e))
  {
    hide Mappers;
    var s' := SetLeaf(s, x, e);
    forall f | 0 <= f < |s.counts| ensures s'.counts[f] == Owed(s', f) {
      assert s.counts[f] == Owed(s, f);
      if x in s.leaf { MappersReplace(s.leaf, x, e, f); } else { MappersAdd(s.leaf, x, e, f); }
    }
  }

  lemma SetLeafGood(s: St, x: Slot, e: Pte)
    requires Good(s) && LeafPlace(s, x) && e.present && IsData(s, e.frame) && e.frame in s.held
    ensures Good(SetLeaf(s, x, e))
  {
    hide Distinct, Children, Parents, Leaves, Conserved;
    var s' := SetLeaf(s, x, e);
    LeafTree(s, x, e);
    SameTables(SetEntry(s, Up(x), Last(x), e).(leaf := s.leaf[x := e]), s');
    TablesAreNotData(s, Up(x));
    SetLeafCounts(s, x, e);
  }

  lemma SameTables(s: St, s': St)
    requires Tree(s) && Leaves(s) && s' == s.(held := s'.held, counts := s'.counts, cache := s'.cache, owner := s'.owner)
    requires |s'.counts| == |s.counts|
    ensures Tree(s') && Leaves(s')
  {
    SameTree(s, s');
    hide Distinct, Children, Parents;
    forall u, j | u in s.at && |u.path| == 3 && 0 <= j < 512 ensures LeafBelow(s', u, j) {
      assert LeafBelow(s, u, j);
    }
    forall y | y in s'.leaf ensures LeafOk(s', y) { assert LeafOk(s, y); }
  }

  lemma ClearLeafGood(s: St, x: Slot)
    requires Good(s) && LeafPlace(s, x) && x in s.leaf
    ensures Good(ClearLeaf(s, x))
  {
    hide Distinct, Children, Parents, Leaves, Mappers;
    var s' := ClearLeaf(s, x);
    LeafTree(s, x, Absent);
    assert Tree(s') && Leaves(s') by {
      SameTables(SetEntry(s, Up(x), Last(x), Absent).(leaf := s.leaf - {x}), s');
    }
    TablesAreNotData(s, Up(x));
    forall f | 0 <= f < |s.counts| ensures s'.counts[f] == Owed(s', f) {
      assert s.counts[f] == Owed(s, f);
      MappersRemove(s.leaf, x, f);
    }
  }

  lemma RemarkGood(s: St, x: Slot, e: Pte)
    requires Good(s) && LeafPlace(s, x) && x in s.leaf && e.present && e.frame == s.leaf[x].frame
    ensures Good(Remark(s, x, e))
  {
    hide Distinct, Children, Parents, Leaves, Mappers;
    var s' := Remark(s, x, e);
    LeafTree(s, x, e);
    TablesAreNotData(s, Up(x));
    forall f | 0 <= f < |s.counts| ensures s'.counts[f] == Owed(s', f) {
      assert s.counts[f] == Owed(s, f);
      MappersReplace(s.leaf, x, e, f);
    }
  }

  // ---------------------------------------------------------------- references and data pages

  /** pmm_page_ref on a page in use. */
  function Ref(s: St, f: Frame): St
    requires f < |s.counts|
  {
    s.(counts := s.counts[f := s.counts[f] + 1], held := s.held + multiset{f})
  }

  lemma RefGood(s: St, f: Frame)
    requires Good(s) && f < |s.counts|
    ensures Good(Ref(s, f))
  {
    hide Tree, Leaves, Mappers;
    SameTables(s, Ref(s, f));
    forall g | 0 <= g < |s.counts| ensures Ref(s, f).counts[g] == Owed(Ref(s, f), g) {
      assert s.counts[g] == Owed(s, g);
    }
  }

  /** pmm_page_unref of a held reference. */
  function Unref(s: St, f: Frame): St
    requires f < |s.counts| && s.counts[f] > 0
  {
    s.(counts := s.counts[f := s.counts[f] - 1], held := s.held - multiset{f})
  }

  lemma HeldCounted(s: St, f: Frame)
    requires Conserved(s) && f in s.held
    ensures f < |s.counts| && s.counts[f] > 0
  {
    assert s.counts[f] == Owed(s, f);
  }

  lemma UnrefGood(s: St, f: Frame)
    requires Good(s) && f in s.held && f < |s.counts| && s.counts[f] > 0
    ensures Good(Unref(s, f))
  {
    hide Tree, Leaves, Mappers;
    SameTables(s, Unref(s, f));
    forall g | 0 <= g < |s.counts| ensures Unref(s, f).counts[g] == Owed(Unref(s, f), g) {
      assert s.counts[g] == Owed(s, g);
    }
  }

  /** A page from the allocator, filled with bytes. */
  function NewData(s: St, f: Frame, bytes: Bytes): St
    requires f < |s.counts|
  {
    s.(mem := s.mem[f := Data(bytes)], counts := s.counts[f := 1], held := s.held + multiset{f})
  }

  lemma NewDataGood(s: St, f: Frame, bytes: Bytes)
    requires Good(s) && f < |s.counts| && s.counts[f] == 0 && |bytes| == 4096
    ensures Good(NewData(s, f, bytes)) && IsData(NewData(s, f, bytes), f)
  {
    hide Children, Parents, Leaves, Mappers;
    var s' := NewData(s, f, bytes);
    FreeFrame(s, f);
    FrameTables(s, s');
    forall g | 0 <= g < |s.counts| ensures s'.counts[g] == Owed(s', g) {
      assert s.counts[g] == Owed(s, g);
    }
  }

  /** The processor writes into a data page. */
  function Fill(s: St, f: Frame, bytes: Bytes): St {
    s.(mem := s.mem[f := Data(bytes)])
  }

  lemma FillGood(s: St, f: Frame, bytes: Bytes)
    requires Good(s) && IsData(s, f) && |bytes| == 4096
    ensures Good(Fill(s, f, bytes))
  {
    hide Children, Parents, Leaves, Mappers;
    FrameTables(s, Fill(s, f, bytes));
    SameCounts(s, Fill(s, f, bytes));
  }

  /** pagecache_insert of a new key: the cache takes over the reference. */
  function Insert(s: St, k: FileKey, f: Frame): St {
    s.(cache := s.cache[k := f], owner := s.owner[f := k], held := s.held - multiset{f})
  }

  lemma InsertCounts(s: St, k: FileKey, f: Frame)
    requires Conserved(s) && f !in s.owner && f in s.held
    ensures Conserved(Insert(s, k, f))
  {
    hide Mappers;
    forall g | 0 <= g < |s.counts| ensures Insert(s, k, f).counts[g] == Owed(Insert(s, k, f), g) {
      assert s.counts[g] == Owed(s, g);
    }
  }

  lemma InsertGood(s: St, k: FileKey, f: Frame)
    requires Good(s) && k !in s.cache && f !in s.owner && IsData(s, f) && f in s.held
    ensures Good(Insert(s, k, f))
  {
    hide Tree, Leaves, Conserved;
    SameTables(s, Insert(s, k, f));
    InsertCounts(s, k, f);
  }
}
