/** Page faults and the page cache: each handled fault is one event of the flat machine. */
module VmFaults {
  import opened FlatVm
  import opened VmState
  import opened VmUpdates
  import opened VmSubtree
  import opened VmSteps
  import opened PhysicalMemory

  // ---------------------------------------------------------------- from addresses to positions

  const USER_SPACE_END := 0x7FFF_FFFF_F000

  /** The four table indices of a virtual address. */
  function PathOf(va: nat): seq<nat> {
    [(va / 0x80_0000_0000) % 512, (va / 0x4000_0000) % 512, (va / 0x20_0000) % 512, (va / 4096) % 512]
  }

  lemma PathOfOk(va: nat)
    requires va < USER_SPACE_END
    ensures PathOk(PathOf(va))
  {
  }

  lemma PathOfFour(va: nat)
    ensures |PathOf(va)| == 4
  {
  }

  /** The number of the entry among all that four levels of tables hold. */
  function EntryOf(va: nat): nat { va / 4096 % 0x10_0000_0000 }

  lemma EntryOfPath(va: nat)
    ensures var p := PathOf(va); EntryOf(va) == ((p[0] * 512 + p[1]) * 512 + p[2]) * 512 + p[3]
  {
    SamePagePath(va);
    SplitIndex(va / 4096);
  }

  lemma SplitIndex(n: nat)
    ensures n % 0x10_0000_0000 == ((n / 512 / 512 / 512 % 512 * 512 + n / 512 / 512 % 512) * 512 + n / 512 % 512) * 512 + n % 512
  {
    var a := n / 512;
    var b := a / 512;
    var c := b / 512;
    var d := c / 512;
    Remainder(n, d, ((c % 512 * 512 + b % 512) * 512 + a % 512) * 512 + n % 512);
  }

  lemma Remainder(n: nat, d: nat, r: nat)
    requires n == 0x10_0000_0000 * d + r && r < 0x10_0000_0000
    ensures n % 0x10_0000_0000 == r
  {
  }

  /** The path of an address depends on its page, and the entry on the path: addresses share an entry
      exactly when their pages agree in the 36 bits the tables look at. */
  lemma PathsSeparateEntries(va: nat, vb: nat)
    ensures PathOf(va) == PathOf(vb) <==> EntryOf(va) == EntryOf(vb)
  {
    EntryOfPath(va);
    EntryOfPath(vb);
    if EntryOf(va) == EntryOf(vb) {
      IndicesAgree(PathOf(va), PathOf(vb));
    }
  }

  lemma IndicesAgree(p: seq<nat>, q: seq<nat>)
    requires |p| == |q| == 4 && (forall i :: 0 <= i < 4 ==> p[i] < 512) && (forall i :: 0 <= i < 4 ==> q[i] < 512)
    requires ((p[0] * 512 + p[1]) * 512 + p[2]) * 512 + p[3] == ((q[0] * 512 + q[1]) * 512 + q[2]) * 512 + q[3]
    ensures p == q
  {
    LastDigit((p[0] * 512 + p[1]) * 512 + p[2], p[3], (q[0] * 512 + q[1]) * 512 + q[2], q[3]);
    LastDigit(p[0] * 512 + p[1], p[2], q[0] * 512 + q[1], q[2]);
    LastDigit(p[0], p[1], q[0], q[1]);
  }

  lemma LastDigit(x: nat, a: nat, y: nat, b: nat)
    requires a < 512 && b < 512 && x * 512 + a == y * 512 + b
    ensures x == y && a == b
  {
  }

  /** Two user addresses use the same entry exactly when they lie in the same page. */
  lemma PathsSeparatePages(va: nat, vb: nat)
    requires va < USER_SPACE_END && vb < USER_SPACE_END
    ensures PathOf(va) == PathOf(vb) <==> va / 4096 == vb / 4096
  {
    hide PathOf;
    PathsSeparateEntries(va, vb);
  }

  lemma SamePagePath(va: nat)
    ensures var n := va / 4096; PathOf(va) == [n / 512 / 512 / 512 % 512, n / 512 / 512 % 512, n / 512 % 512, n % 512]
  {
    Shift21(va);
    Shift30(va);
    Shift39(va);
  }

  lemma Shift21(va: nat)
    ensures va / 0x20_0000 == va / 4096 / 512
  {
  }

  lemma Shift30(va: nat)
    ensures va / 0x4000_0000 == va / 4096 / 512 / 512
  {
    Shift21(va);
  }

  lemma Shift39(va: nat)
    ensures va / 0x80_0000_0000 == va / 4096 / 512 / 512 / 512
  {
    Shift30(va);
  }

  /** The tables of the user half are those an address below 2^47 leads to. */
  lemma UserHalf(va: nat)
    ensures PathOf(va)[0] < 256 <==> EntryOf(va) < 0x8_0000_0000
  {
    EntryOfPath(va);
  }

  // ---------------------------------------------------------------- showing a state

  /** Frame f of the flat machine is the data page f of the state. */
  predicate Holds(v: Vm, s: St, f: Frame) {
    f in v.data && f in s.mem && s.mem[f] == Data(v.data[f])
  }

  lemma SightFrom(v: Vm, s: St)
    requires Good(s) && v.leaf == s.leaf && v.cached == s.owner.Keys
    requires forall x :: x in s.leaf ==> Holds(v, s, s.leaf[x].frame)
    requires forall f :: f in s.owner ==> Holds(v, s, f)
    ensures SameSight(v, View(s))
  {
    hide Tree, Leaves, Conserved;
    forall x | x in v.leaf ensures SameBytes(v, View(s), v.leaf[x].frame) { MappedCounted(s, x); }
    forall f | f in v.cached ensures SameBytes(v, View(s), f) { OwnedCounted(s, f); }
  }

  lemma InView(s: St, f: Frame)
    requires Good(s) && (f in s.owner || exists x :: x in s.leaf && s.leaf[x].frame == f)
    ensures IsData(s, f) && s.counts[f] > 0 && Holds(View(s), s, f)
  {
    hide Tree, Leaves, Conserved;
    if f in s.owner { OwnedCounted(s, f); } else { var x :| x in s.leaf && s.leaf[x].frame == f; MappedCounted(s, x); }
  }

  lemma FreeUnused(s: St, f: Frame)
    requires Good(s) && f < |s.counts| && s.counts[f] == 0
    ensures Unused(View(s), f)
  {
    hide Tree, Leaves;
    FreeFrame(s, f);
  }

  // ---------------------------------------------------------------- copy on write

  /** Case 1 of vmm_handle_page_fault on a present copy-on-write page: a private copy, the old frame
      released. */
  function CowStep(s: St, x: Slot, f: Frame): St
    requires LeafPlace(s, x) && IsTable(s, Up(x)) && x in s.leaf && IsData(s, s.leaf[x].frame) && f < |s.counts| && f != s.at[Up(x)]
    requires s.counts[s.leaf[x].frame] > 0 && f != s.leaf[x].frame
  {
    Unref(SetLeaf(NewData(s, f, s.mem[s.leaf[x].frame].bytes), x, Copied(s.leaf[x], f)), s.leaf[x].frame)
  }

  lemma CowReady(s: St, x: Slot, f: Frame)
    requires Good(s) && x in s.leaf && f < |s.counts| && s.counts[f] == 0
    ensures LeafPlace(s, x) && IsTable(s, Up(x)) && IsData(s, s.leaf[x].frame) && f != s.at[Up(x)]
    ensures s.counts[s.leaf[x].frame] > 0 && f != s.leaf[x].frame
  {
    hide Children, Parents, Distinct, Conserved;
    MappedCounted(s, x);
    assert LeafOk(s, x);
    FreshChild(s, Up(x), f);
  }

  lemma CowGood(s: St, x: Slot, f: Frame)
    requires Good(s) && x in s.leaf && f < |s.counts| && s.counts[f] == 0
    requires LeafPlace(s, x) && IsTable(s, Up(x)) && IsData(s, s.leaf[x].frame) && f != s.at[Up(x)]
    requires s.counts[s.leaf[x].frame] > 0 && f != s.leaf[x].frame
    ensures Good(CowStep(s, x, f)) && CowStep(s, x, f).held == s.held
  {
    hide Tree, Leaves, Conserved;
    var old_ := s.leaf[x].frame;
    var s1 := NewData(s, f, s.mem[old_].bytes);
    NewDataGood(s, f, s.mem[old_].bytes);
    var s2 := SetLeaf(s1, x, Copied(s.leaf[x], f));
    SetLeafGood(s1, x, Copied(s.leaf[x], f));
    assert s2.held == s.held + multiset{old_};
    UnrefGood(s2, old_);
  }

  lemma CowSeen(s: St, x: Slot, f: Frame)
    requires Good(s) && x in s.leaf && s.leaf[x].cow && f < |s.counts| && s.counts[f] == 0
    requires LeafPlace(s, x) && IsTable(s, Up(x)) && IsData(s, s.leaf[x].frame) && f != s.at[Up(x)]
    requires s.counts[s.leaf[x].frame] > 0 && f != s.leaf[x].frame && Good(CowStep(s, x, f))
    ensures Sees(s, CowFault(x, f), CowStep(s, x, f))
  {
    hide Tree, Leaves, Conserved;
    var s', ev := CowStep(s, x, f), CowFault(x, f);
    FreeUnused(s, f);
    InView(s, s.leaf[x].frame);
    var v := Apply(View(s), ev);
    forall y | y in s'.leaf ensures Holds(v, s', s'.leaf[y].frame) {
      if y != x { InView(s, s.leaf[y].frame); NotThatTable(s, x, s.leaf[y].frame); }
    }
    forall g | g in s'.owner ensures Holds(v, s', g) { InView(s, g); NotThatTable(s, x, g); }
    SightFrom(v, s');
  }

  lemma NotThatTable(s: St, x: Slot, f: Frame)
    requires x.path != [] && IsTable(s, Up(x)) && IsData(s, f)
    ensures f != s.at[Up(x)]
  {
  }

  // ---------------------------------------------------------------- demand paging

  lemma KeptBytes(s: St, s': St, f: Frame)
    requires Good(s) && (forall g {:trigger DataKept(s, s', g)} :: g in s.mem ==> DataKept(s, s', g))
    requires f in s.owner || exists x :: x in s.leaf && s.leaf[x].frame == f
    ensures Holds(View(s), s', f)
  {
    hide Good;
    InView(s, f);
    assert DataKept(s, s', f);
  }

  /** A new private page with the given bytes appears at x. */
  lemma DemandSeen(s: St, x: Slot, e: Pte, bytes: Bytes, ev: Event, s': St)
    requires Good(s) && x !in s.leaf && e.frame < |s.counts| && s.counts[e.frame] == 0 && NewEntry(e) && Good(s') && |bytes| == 4096
    requires Mapped(NewData(s, e.frame, bytes), x, e, s')
    requires Guard(View(s), ev) && Apply(View(s), ev) == View(s).(leaf := s.leaf[x := e], data := View(s).data[e.frame := bytes])
    ensures Sees(s, ev, s') && s'.held == s.held && s'.cache == s.cache && s'.base == s.base
  {
    hide Tree, Leaves, Conserved, View, Guard, Apply;
    var s1 := NewData(s, e.frame, bytes);
    var v := Apply(View(s), ev);
    assert View(s).cached == s.owner.Keys by { ViewIs(s); }
    assert s'.held == s.held;
    forall y | y in s'.leaf ensures Holds(v, s', s'.leaf[y].frame) {
      if y == x { assert DataKept(s1, s', e.frame); } else { DemandKeeps(s, e.frame, bytes, s', s.leaf[y].frame); }
    }
    forall g | g in s'.owner ensures Holds(v, s', g) { DemandKeeps(s, e.frame, bytes, s', g); }
    SightFrom(v, s');
  }

  lemma ViewIs(s: St)
    ensures View(s).leaf == s.leaf && View(s).cached == s.owner.Keys
  {
  }

  lemma DemandKeeps(s: St, f: Frame, bytes: Bytes, s': St, g: Frame)
    requires Good(s) && f < |s.counts| && s.counts[f] == 0 && |bytes| == 4096
    requires var s1 := NewData(s, f, bytes); forall h {:trigger DataKept(s1, s', h)} :: h in s1.mem ==> DataKept(s1, s', h)
    requires g in s.owner || exists x :: x in s.leaf && s.leaf[x].frame == g
    ensures g != f && Holds(View(s), s', g)
  {
    hide Good;
    InView(s, g);
    assert DataKept(NewData(s, f, bytes), s', g);
  }

  /** A page of the page cache appears at x. */
  lemma ShareSeen(s: St, x: Slot, e: Pte, s': St)
    requires Good(s) && x !in s.leaf && e.frame in s.owner && NewEntry(e) && Good(s') && Mapped(s, x, e, s')
    ensures Sees(s, DemandShare(x, e), s') && s'.held == s.held - multiset{e.frame}
  {
    hide Tree, Leaves, Conserved;
    var v := Apply(View(s), DemandShare(x, e));
    forall y | y in s'.leaf ensures Holds(v, s', s'.leaf[y].frame) {
      KeptBytes(s, s', if y == x then e.frame else s.leaf[y].frame);
    }
    forall g | g in s'.owner ensures Holds(v, s', g) { KeptBytes(s, s', g); }
    SightFrom(v, s');
  }

  // ---------------------------------------------------------------- page cache

  /** A miss of pagecache_get_or_read: a page is read, owned by the cache, and referenced once more
      for the caller. */
  function CacheMiss(s: St, k: FileKey, f: Frame, bytes: Bytes): St
    requires f < |s.counts|
  {
    Ref(Insert(NewData(s, f, bytes), k, f), f)
  }

  lemma CacheMissGood(s: St, k: FileKey, f: Frame, bytes: Bytes)
    requires Good(s) && k !in s.cache && f < |s.counts| && s.counts[f] == 0 && |bytes| == 4096
    ensures Good(CacheMiss(s, k, f, bytes)) && CacheMiss(s, k, f, bytes).held == s.held + multiset{f}
  {
    hide Tree, Leaves, Mappers;
    FreeFrame(s, f);
    var s1 := NewData(s, f, bytes);
    NewDataGood(s, f, bytes);
    InsertGood(s1, k, f);
    RefGood(Insert(s1, k, f), f);
    assert CacheMiss(s, k, f, bytes).held == s.held + multiset{f};
  }

  lemma CacheMissSeen(s: St, k: FileKey, f: Frame, bytes: Bytes)
    requires Good(s) && k !in s.cache && f < |s.counts| && s.counts[f] == 0 && |bytes| == 4096 && Good(CacheMiss(s, k, f, bytes))
    ensures Sees(s, CacheFill(f, bytes), CacheMiss(s, k, f, bytes))
  {
    hide Good, View, Ref, Insert, NewData;
    var s' := CacheMiss(s, k, f, bytes);
    FreeUnused(s, f);
    ViewIs(s);
    CacheMissIs(s, k, f, bytes);
    var v := Apply(View(s), CacheFill(f, bytes));
    forall y | y in s'.leaf ensures Holds(v, s', s'.leaf[y].frame) { InView(s, s.leaf[y].frame); }
    forall g | g in s'.owner ensures Holds(v, s', g) { if g != f { InView(s, g); } }
    SightFrom(v, s');
  }

  lemma CacheMissIs(s: St, k: FileKey, f: Frame, bytes: Bytes)
    requires f < |s.counts|
    ensures var s' := CacheMiss(s, k, f, bytes);
            && s'.leaf == s.leaf && s'.owner == s.owner[f := k] && s'.mem == s.mem[f := Data(bytes)]
            && s'.cache == s.cache[k := f] && s'.counts == s.counts[f := 2]
  {
  }

  lemma CachedFrame(s: St, k: FileKey)
    requires Good(s) && k in s.cache
    ensures s.cache[k] in s.owner && s.cache[k] < |s.counts| && s.counts[s.cache[k]] > 0
  {
    hide Tree, Leaves, Conserved;
    OwnedCounted(s, s.cache[k]);
  }

  /** Counts and held references are nothing a process sees. */
  lemma RefsUnseen(s: St, s': St)
    requires Good(s) && Good(s') && s' == s.(counts := s'.counts, held := s'.held)
    ensures SameSight(View(s), View(s')) && (Inv(View(s)) ==> Inv(View(s')) && Abs(View(s')) == Abs(View(s)))
  {
    hide Tree, Leaves, Conserved, Inv;
    forall y | y in s'.leaf ensures Holds(View(s), s', s'.leaf[y].frame) { InView(s, s.leaf[y].frame); }
    forall g | g in s'.owner ensures Holds(View(s), s', g) { InView(s, g); }
    SightFrom(View(s), s');
    if Inv(View(s)) { SightSuffices(View(s), View(s')); }
  }

  /** A page filled with bytes and mapped at x while a reference to cf is given back. */
  lemma SwapUnref(s: St, f: Frame, bytes: Bytes, cf: Frame)
    requires f < |s.counts| && s.counts[f] == 0 && cf < |s.counts| && s.counts[cf] > 0 && cf in s.held
    ensures f != cf && NewData(s, f, bytes).counts[cf] > 0
    ensures Unref(NewData(s, f, bytes), cf) == NewData(Unref(s, cf), f, bytes)
  {
    assert s.counts[f := 1][cf := s.counts[cf] - 1] == s.counts[cf := s.counts[cf] - 1][f := 1];
    assert s.held + multiset{f} - multiset{cf} == s.held - multiset{cf} + multiset{f};
  }

  // ---------------------------------------------------------------- sequences of events

  /** From s to s' the processes see evs happen to their separate memories. */
  ghost predicate Shows(s: St, evs: seq<Event>, s': St) {
    && Inv(View(s)) && Inv(View(s'))
    && AllSensible(Abs(View(s)), evs) && Abs(View(s')) == RunSeparate(Abs(View(s)), evs)
  }

  lemma ShowsOne(s: St, ev: Event, s': St)
    requires Inv(View(s)) && Sees(s, ev, s')
    ensures Shows(s, [ev], s')
  {
    hide View, OneWriter, Sees, Do, Sensible;
    SeesRefines(s, ev, s');
    var m := Abs(View(s));
    assert [ev][1..] == [];
    assert AllSensible(Do(m, ev), []);
    assert AllSensible(m, [ev]);
    assert RunSeparate(m, [ev]) == RunSeparate(Do(m, ev), []);
  }

  lemma ShowsNone(s: St, s': St)
    requires Inv(View(s)) && Good(s) && Good(s') && s' == s.(counts := s'.counts, held := s'.held)
    ensures Shows(s, [], s')
  {
    RefsUnseen(s, s');
  }

  lemma {:induction false} RunConcat(m: Separate, evs: seq<Event>, more: seq<Event>)
    requires AllSensible(m, evs) && AllSensible(RunSeparate(m, evs), more)
    ensures AllSensible(m, evs + more) && RunSeparate(m, evs + more) == RunSeparate(RunSeparate(m, evs), more)
    decreases |evs|
  {
    hide Do, Sensible;
    if evs == [] {
      assert evs + more == more;
    } else {
      assert (evs + more)[1..] == evs[1..] + more;
      RunConcat(Do(m, evs[0]), evs[1..], more);
    }
  }

  lemma ShowsConcat(s: St, evs: seq<Event>, s1: St, more: seq<Event>, s2: St)
    requires Shows(s, evs, s1) && Shows(s1, more, s2)
    ensures Shows(s, evs + more, s2)
  {
    hide View, OneWriter, AllSensible, RunSeparate;
    RunConcat(Abs(View(s)), evs, more);
  }

  // ---------------------------------------------------------------- what a fault leaves

  predicate CowPage(s: St, x: Slot) {
    x in s.leaf && s.leaf[x].cow
  }

  /** Page x may be written and nobody else maps its frame. */
  ghost predicate OwnsCopy(s: St, x: Slot) {
    x in s.leaf && s.leaf[x].write && !s.leaf[x].cow && forall y :: y in s.leaf && y != x ==> s.leaf[y].frame != s.leaf[x].frame
  }

  /** Nothing but page x, the tables and the reference counts differs. */
  ghost predicate Undisturbed(s: St, x: Slot, s': St) {
    && s'.held == s.held && s'.base == s.base && s'.unlinked == s.unlinked
    && (forall y :: y != x ==> (y in s'.leaf <==> y in s.leaf))
    && (forall y :: y in s.leaf && y != x ==> s'.leaf[y] == s.leaf[y])
    && (forall t :: t in s.at ==> t in s'.at && s'.at[t] == s.at[t])
  }

  /** The state after a handled copy-on-write fault. */
  lemma CowRound(s: St, x: Slot, f: Frame) returns (s': St)
    requires Good(s) && Inv(View(s)) && CowPage(s, x) && f < |s.counts| && s.counts[f] == 0
    ensures var old_ := s.leaf[x].frame;
            && LeafPlace(s, x) && IsTable(s, Up(x)) && old_ in s.mem && old_ < |s.counts| && s.counts[old_] > 0 && f != old_ && f != s.at[Up(x)]
            && s'.counts == s.counts[f := 1][old_ := s.counts[old_] - 1] && s'.cache == s.cache && s'.unlinked == s.unlinked
            && s'.mem == s.mem[f := s.mem[old_]][s.at[Up(x)] := Table(s.mem[s.at[Up(x)]].entries[Last(x) := Copied(s.leaf[x], f)])]
    ensures Good(s') && Inv(View(s')) && Shows(s, [CowFault(x, f)], s')
    ensures OwnsCopy(s', x) && s'.leaf[x].frame == f && Undisturbed(s, x, s')
    ensures s'.leaf[x] == s.leaf[x].(frame := f, write := true, cow := false)
  {
    hide Good, Inv, Shows, Sees;
    CowReady(s, x, f);
    CowGood(s, x, f);
    CowSeen(s, x, f);
    s' := CowStep(s, x, f);
    ShowsOne(s, CowFault(x, f), s');
    assert Inv(View(s')) by { ShowsInv(s, [CowFault(x, f)], s'); }
    assert Unused(View(s), f) by { FreeUnused(s, f); }
  }

  lemma ShowsInv(s: St, evs: seq<Event>, s': St)
    requires Shows(s, evs, s')
    ensures Inv(View(s'))
  {
  }

  /** The three entries on the way to a mapped page. */
  lemma WalkDown(s: St, root: Frame, path: seq<nat>, t1: Slot, t2: Slot, t3: Slot)
    requires Good(s) && s.unlinked == {} && |path| == 4 && PathOk(path) && Slot(root, []) in s.at && Slot(root, path) in s.leaf
    requires t1 == Down(Slot(root, []), path[0]) && t2 == Down(t1, path[1]) && t3 == Down(t2, path[2]) && t3 == Up(Slot(root, path))
    requires path[0] < 256 && path[1] < 512 && path[2] < 512
    ensures t3 in s.at && t2 in s.at && t1 in s.at && IsTable(s, Slot(root, [])) && IsTable(s, t1) && IsTable(s, t2)
    ensures s.at[Slot(root, [])] == root
    ensures s.mem[root].entries[path[0]].frame == s.at[t1]
    ensures s.mem[s.at[t1]].entries[path[1]].frame == s.at[t2]
    ensures s.mem[s.at[t2]].entries[path[2]].frame == s.at[t3]
  {
    hide Good, IsTable;
    LeafTable(s, Slot(root, path));
    LevelUp(s, t2, path[2]);
    LevelUp(s, t1, path[1]);
    LevelUp(s, Slot(root, []), path[0]);
    RootAt(s, Slot(root, []));
  }

  /** A linked table hangs from the entry of the table above it. */
  lemma LevelUp(s: St, t: Slot, i: nat)
    requires Good(s) && s.unlinked == {} && Down(t, i) in s.at && i < Width(t.path) && |t.path| < 3
    ensures t in s.at && IsTable(s, t) && s.mem[s.at[t]].entries[i].frame == s.at[Down(t, i)]
  {
    hide Conserved, DataOk, Leaves, Distinct;
    UpDown(t, i);
    assert ParentOk(s, Down(t, i));
    assert ChildOk(s, t, i);
  }

  lemma LeafTable(s: St, x: Slot)
    requires Good(s) && x in s.leaf && x.path != []
    ensures Up(x) in s.at
  {
    hide Conserved, DataOk, Distinct, Children, Parents;
    assert LeafOk(s, x);
  }

  lemma RootAt(s: St, t: Slot)
    requires Good(s) && t in s.at && t.path == []
    ensures s.at[t] == t.root
  {
    hide Conserved, DataOk, Distinct, Children, Parents, Leaves;
  }

  // ---------------------------------------------------------------- filling a page

  /** Page x, absent before, is now mapped with the given flags; nothing else moved. */
  ghost predicate Filled(s: St, x: Slot, flags: Pte, s': St) {
    && x in s'.leaf && s'.leaf[x] == flags.(frame := s'.leaf[x].frame) && Undisturbed(s, x, s')
  }

  lemma FilledFlags(s: St, x: Slot, flags: Pte, f: Frame, s': St)
    requires Filled(s, x, flags.(frame := f), s')
    ensures Filled(s, x, flags, s')
  {
  }

  lemma TakenHeld(s: St, f: Frame, bytes: Bytes)
    requires f < |s.counts| && |bytes| == 4096
    ensures IsData(NewData(s, f, bytes), f) && f in NewData(s, f, bytes).held
  {
  }

  lemma ZeroRound(s0: St, x: Slot, e: Pte, s: St)
    requires Good(s0) && Inv(View(s0)) && x !in s0.leaf && NewEntry(e) && e.frame < |s0.counts| && s0.counts[e.frame] == 0
    requires Mapped(NewData(s0, e.frame, ZeroPage()), x, e, s) && Good(s)
    ensures Shows(s0, [DemandZero(x, e)], s) && Inv(View(s)) && Filled(s0, x, e, s) && s.leaf[x] == e
  {
    hide Good, Inv, View, Sees;
    FreeUnused(s0, e.frame);
    ViewIs(s0);
    DemandSeen(s0, x, e, ZeroPage(), DemandZero(x, e), s);
    ShowsOne(s0, DemandZero(x, e), s);
    ShowsInv(s0, [DemandZero(x, e)], s);
  }

  lemma CachedHeld(s: St, f: Frame)
    requires Good(s) && f in s.owner
    ensures IsData(s, f) && s.counts[f] > 0
  {
    hide Tree, Leaves, Conserved;
    OwnedCounted(s, f);
  }

  lemma DropRound(s0: St, evs: seq<Event>, s1: St, s: St)
    requires Shows(s0, evs, s1) && Good(s1) && Good(s) && s == s1.(counts := s.counts, held := s.held)
    ensures Shows(s0, evs + [], s) && Inv(View(s))
  {
    hide Good, Inv, View;
    ShowsInv(s0, evs, s1);
    ShowsNone(s1, s);
    ShowsConcat(s0, evs, s1, [], s);
    ShowsInv(s1, [], s);
  }

  ghost predicate OnlyCache(s0: St, s1: St, cf: Frame) {
    && s1 == s0.(mem := s1.mem, counts := s1.counts, cache := s1.cache, owner := s1.owner, held := s0.held + multiset{cf})
  }

  lemma ShareRound(s0: St, evs: seq<Event>, s1: St, x: Slot, e: Pte, s: St)
    requires Shows(s0, evs, s1) && Good(s1) && OnlyCache(s0, s1, e.frame) && e.frame in s1.owner && x !in s0.leaf && NewEntry(e)
    requires Mapped(s1, x, e, s) && Good(s)
    ensures Shows(s0, evs + [DemandShare(x, e)], s) && Inv(View(s)) && Filled(s0, x, e, s) && s.leaf[x] == e
  {
    hide Good, Inv, View, Sees, Shows;
    ShowsInv(s0, evs, s1);
    ShareSeen(s1, x, e, s);
    ShowsOne(s1, DemandShare(x, e), s);
    ShowsConcat(s0, evs, s1, [DemandShare(x, e)], s);
    ShowsInv(s1, [DemandShare(x, e)], s);
    assert s.held == s0.held;
  }

  lemma CopyHeld(s0: St, evs: seq<Event>, s1: St, cf: Frame, f: Frame)
    requires f < |s1.counts| && s1.counts[f] == 0 && cf < |s1.counts| && s1.counts[cf] > 0 && f != cf && IsData(s1, cf)
    ensures var s2 := NewData(Unref(s1, cf), f, s1.mem[cf].bytes); IsData(s2, f) && f in s2.held
  {
  }

  lemma CopyRound(s0: St, evs: seq<Event>, s1: St, cf: Frame, x: Slot, e: Pte, s: St)
    requires Shows(s0, evs, s1) && Good(s1) && OnlyCache(s0, s1, cf) && cf in s1.owner && IsData(s1, cf) && s1.counts[cf] > 0
    requires x !in s0.leaf && NewEntry(e) && e.frame < |s1.counts| && s1.counts[e.frame] == 0 && Good(s)
    requires Mapped(NewData(Unref(s1, cf), e.frame, s1.mem[cf].bytes), x, e, s)
    ensures Shows(s0, evs + [DemandCopy(x, e, cf)], s) && Inv(View(s)) && Filled(s0, x, e, s) && s.leaf[x] == e && e.frame !in s.owner
  {
    hide Good, Inv, View, Sees, Shows, Mapped;
    var u := Unref(s1, cf);
    var ev := DemandCopy(x, e, cf);
    UnrefGood(s1, cf);
    DropRound(s0, evs, s1, u);
    assert evs + [] == evs;
    CopyGuard(u, x, e, cf);
    DemandSeen(u, x, e, s1.mem[cf].bytes, ev, s);
    ShowsOne(u, ev, s);
    ShowsConcat(s0, evs, u, [ev], s);
    ShowsInv(u, [ev], s);
    assert u.held == s0.held;
    CopyFilled(s0, u, x, e, s1.mem[cf].bytes, s);
  }

  lemma CopyGuard(u: St, x: Slot, e: Pte, cf: Frame)
    requires Good(u) && x !in u.leaf && NewEntry(e) && e.frame < |u.counts| && u.counts[e.frame] == 0 && cf in u.owner && IsData(u, cf)
    ensures var ev := DemandCopy(x, e, cf);
            Guard(View(u), ev) && Apply(View(u), ev) == View(u).(leaf := u.leaf[x := e], data := View(u).data[e.frame := u.mem[cf].bytes])
  {
    hide Tree, Leaves, Conserved;
    FreeUnused(u, e.frame);
    InView(u, cf);
  }

  lemma CopyFilled(s0: St, u: St, x: Slot, e: Pte, bytes: Bytes, s: St)
    requires u == s0.(mem := u.mem, counts := u.counts, cache := u.cache, owner := u.owner)
    requires e.frame < |u.counts| && u.counts[e.frame] == 0 && Good(u) && x !in u.leaf && Mapped(NewData(u, e.frame, bytes), x, e, s)
    ensures Filled(s0, x, e, s) && s.leaf[x] == e && e.frame !in s.owner
  {
    hide Tree, Leaves;
    FreeFrame(u, e.frame);
    assert s.held == u.held;
  }

  // ---------------------------------------------------------------- regions of a process

  datatype Backing = Anonymous | File(vnode: nat, offset: nat, size: nat)

  datatype Vma = Vma(start: nat, end: nat, write: bool, exec: bool, shared: bool, backing: Backing)

  predicate Covers(v: Vma, va: nat) { v.start <= va < v.end }

  /** The flags of a page brought in for region v: PRESENT | USER, WRITE if writable, NX unless executable. */
  function FaultFlags(v: Vma): Pte {
    Pte(true, 0, v.write, true, false, false, !v.exec, 0)
  }

  /** The page of va has file contents: it starts before the end of the backed part. */
  predicate FromFile(v: Vma, va: nat) {
    v.backing.File? && va / 4096 * 4096 >= v.start && va / 4096 * 4096 - v.start < v.backing.size
  }

  function KeyOf(v: Vma, va: nat): FileKey
    requires FromFile(v, va)
  {
    (v.backing.vnode, (v.backing.offset + (va / 4096 * 4096 - v.start)) / 4096 * 4096)
  }

  /** v is the first of the regions that covers va. */
  ghost predicate RegionOf(vmas: seq<Vma>, va: nat, v: Vma) {
    exists i :: 0 <= i < |vmas| && vmas[i] == v && Covers(v, va) && forall j :: 0 <= j < i ==> !Covers(vmas[j], va)
  }

  // ---------------------------------------------------------------- what a demand fault brings

  /** What reading a page of a file gives: the page zeroed and filled, or an error. */
  datatype Contents = Failed | Bytes(bytes: FlatVm.Bytes)

  predicate FullPage(c: Contents) { c.Bytes? ==> |c.bytes| == 4096 }

  /** What the processes see happen when the cache is asked for a file page, which ends up in frame cf. */
  function Fetch(s: St, key: FileKey, contents: Contents, cf: Frame): seq<Event> {
    if key in s.cache || contents.Failed? then [] else [CacheFill(cf, contents.bytes)]
  }

  /** Frame cf holds the file page for s': the frame it had in s, or one that was not in the cache. */
  ghost predicate Fetched(s: St, key: FileKey, contents: Contents, cf: Frame, s': St) {
    && s'.cache == s.cache[key := cf]
    && (if key in s.cache then s.cache[key] == cf else contents.Bytes? && cf !in s.owner)
  }

  /** The contents of a file page: what the cache has, otherwise what the file has. */
  function FileBytes(s: St, key: FileKey, contents: Contents): FlatVm.Bytes {
    if key in s.cache && IsData(s, s.cache[key]) then s.mem[s.cache[key]].bytes
    else if contents.Bytes? then contents.bytes else []
  }

  /** The frame in which the page cache has the page of va, if the page comes from a file. */
  function CacheFrame(s: St, v: Vma, va: nat): Frame {
    if FromFile(v, va) && KeyOf(v, va) in s.cache then s.cache[KeyOf(v, va)] else 0
  }

  /** What the processes see happen when the page of va is brought in at x as entry e. */
  function Arrival(s: St, x: Slot, v: Vma, va: nat, contents: Contents, e: Pte, cf: Frame): seq<Event> {
    if !FromFile(v, va) then [DemandZero(x, e)]
    else Fetch(s, KeyOf(v, va), contents, cf) + [if v.shared then DemandShare(x, e) else DemandCopy(x, e, cf)]
  }

  /** What the page of va is, once it is there: zeros, the file page itself, or a private copy of it. */
  function PageFor(s: St, v: Vma, va: nat, contents: Contents, cf: Frame): Cell {
    if !FromFile(v, va) then Private(ZeroPage())
    else if v.shared then OfFile(cf)
    else Private(FileBytes(s, KeyOf(v, va), contents))
  }

  /** File pages that were in the cache are there as they were. */
  ghost predicate FilesKept(s: St, s': St) {
    && Backed(View(s)) && Backed(View(s'))
    && forall f :: f in Abs(View(s)).files ==> f in Abs(View(s')).files && Abs(View(s')).files[f] == Abs(View(s)).files[f]
  }

  /** Of all pages of all processes only x differs: it is c now. */
  ghost predicate OnlyPage(s: St, x: Slot, c: Cell, s': St) {
    FilesKept(s, s') && Abs(View(s')).cells == Abs(View(s)).cells[x := c]
  }

  /** No page of any process differs. */
  ghost predicate NoPage(s: St, s': St) {
    FilesKept(s, s') && Abs(View(s')).cells == Abs(View(s)).cells
  }

  /** The entry lets the process do with the page what its region allows. */
  predicate FlagsFor(v: Vma, e: Pte) {
    e.present && e.user && !e.cow && !e.huge && e.write == v.write && e.nx == !v.exec
  }

  /** The page of va is in place: its entry, its bytes, and nothing else. */
  ghost predicate Brought(s: St, x: Slot, v: Vma, va: nat, contents: Contents, evs: seq<Event>, s': St) {
    var cf := CacheFrame(s', v, va);
    && Filled(s, x, FaultFlags(v), s') && FlagsFor(v, s'.leaf[x])
    && evs == Arrival(s, x, v, va, contents, s'.leaf[x], cf)
    && OnlyPage(s, x, PageFor(s, v, va, contents, cf), s')
    && (FromFile(v, va) ==>
          && s'.cache == s.cache[KeyOf(v, va) := cf] && cf in Abs(View(s')).files
          && (KeyOf(v, va) in s.cache || contents.Bytes?)
          && Abs(View(s')).files[cf] == FileBytes(s, KeyOf(v, va), contents))
    && (!FromFile(v, va) ==> s'.cache == s.cache)
  }

  lemma RunOne(m: Separate, ev: Event)
    requires AllSensible(m, [ev])
    ensures Sensible(m, ev) && RunSeparate(m, [ev]) == Do(m, ev)
  {
    hide Do, Sensible;
    assert [ev][1..] == [];
  }

  lemma RunTwo(m: Separate, ev: Event, ew: Event)
    requires AllSensible(m, [ev] + [ew])
    ensures Sensible(m, ev) && Sensible(Do(m, ev), ew) && RunSeparate(m, [ev] + [ew]) == Do(Do(m, ev), ew)
  {
    hide Do, Sensible;
    assert ([ev] + [ew])[1..] == [ew];
    RunOne(Do(m, ev), ew);
  }

  lemma FilesAre(s: St, f: Frame)
    requires Good(s) && Backed(View(s))
    ensures f in Abs(View(s)).files <==> f in s.owner
    ensures f in s.owner ==> IsData(s, f) && Abs(View(s)).files[f] == s.mem[f].bytes
  {
    hide Tree, Leaves, Conserved;
    if f in s.owner { InView(s, f); }
  }

  lemma ZeroMeans(s: St, x: Slot, e: Pte, s': St)
    requires Shows(s, [DemandZero(x, e)], s')
    ensures OnlyPage(s, x, Private(ZeroPage()), s')
  {
    hide OneWriter, View;
    RunOne(Abs(View(s)), DemandZero(x, e));
  }

  lemma NoneMeans(s: St, s': St)
    requires Shows(s, [], s')
    ensures NoPage(s, s')
  {
    hide OneWriter, View;
  }

  lemma CowCell(v: Vm, x: Slot, f: Frame)
    requires Backed(v) && x in v.leaf && Sensible(Abs(v), CowFault(x, f))
    ensures Do(Abs(v), CowFault(x, f)).cells == Abs(v).cells[x := Private(v.data[v.leaf[x].frame])]
    ensures Do(Abs(v), CowFault(x, f)).files == Abs(v).files
  {
    assert Abs(v).cells[x] == CellOf(v, x);
  }

  lemma CowMeans(s: St, x: Slot, f: Frame, s': St)
    requires Good(s) && x in s.leaf && Shows(s, [CowFault(x, f)], s')
    ensures IsData(s, s.leaf[x].frame) && OnlyPage(s, x, Private(s.mem[s.leaf[x].frame].bytes), s')
  {
    hide OneWriter, Good, View, Abs, Do;
    RunOne(Abs(View(s)), CowFault(x, f));
    InView(s, s.leaf[x].frame);
    ViewIs(s);
    CowCell(View(s), x, f);
  }

  lemma FillMeans(s: St, f: Frame, bytes: FlatVm.Bytes, s': St)
    requires Good(s) && f !in s.owner && Shows(s, [CacheFill(f, bytes)], s')
    ensures NoPage(s, s') && Abs(View(s')).files == Abs(View(s)).files[f := bytes]
  {
    hide OneWriter, View;
    RunOne(Abs(View(s)), CacheFill(f, bytes));
    FilesAre(s, f);
  }

  /** What is seen of the page cache once it has been asked for a page. */
  lemma FetchMeans(s: St, key: FileKey, contents: Contents, cf: Frame, s': St, s1: St)
    requires Good(s) && Fetched(s, key, contents, cf, s') && Shows(s, Fetch(s, key, contents, cf), s1)
    ensures NoPage(s, s1) && cf in Abs(View(s1)).files && Abs(View(s1)).files[cf] == FileBytes(s, key, contents)
  {
    hide OneWriter, View, Good;
    if key in s.cache {
      CachedFrame(s, key);
      NoneMeans(s, s1);
      FilesAre(s, cf);
    } else {
      FillMeans(s, cf, contents.bytes, s1);
    }
  }

  /** One event after the fetch. */
  lemma FetchThen(s: St, key: FileKey, contents: Contents, cf: Frame, s': St, ev: Event)
    requires Good(s) && Fetched(s, key, contents, cf, s') && (ev.DemandShare? || (ev.DemandCopy? && ev.from == cf))
    requires Shows(s, Fetch(s, key, contents, cf) + [ev], s')
    ensures OnlyPage(s, ev.s, if ev.DemandShare? then OfFile(ev.e.frame) else Private(FileBytes(s, key, contents)), s')
    ensures cf in Abs(View(s')).files && Abs(View(s')).files[cf] == FileBytes(s, key, contents)
  {
    hide OneWriter, View, Good;
    var m := Abs(View(s));
    FilesAre(s, cf);
    if key in s.cache {
      CachedFrame(s, key);
      assert [] + [ev] == [ev];
      RunOne(m, ev);
    } else {
      RunTwo(m, CacheFill(cf, contents.bytes), ev);
    }
  }

  lemma FileBrought(s: St, x: Slot, v: Vma, va: nat, contents: Contents, evs: seq<Event>, s': St)
    requires FromFile(v, va) && Good(s)
    requires var key := KeyOf(v, va);
             && Filled(s, x, FaultFlags(v), s') && Shows(s, evs, s') && key in s'.cache && Fetched(s, key, contents, s'.cache[key], s')
             && (v.shared ==> s'.leaf[x].frame == s'.cache[key])
             && evs == Fetch(s, key, contents, s'.cache[key])
                       + [if v.shared then DemandShare(x, s'.leaf[x]) else DemandCopy(x, s'.leaf[x], s'.cache[key])]
    ensures Brought(s, x, v, va, contents, evs, s')
  {
    hide Good, Shows, Undisturbed, Fetch, FileBytes, KeyOf, FromFile, FilesKept;
    var key := KeyOf(v, va);
    var ev := if v.shared then DemandShare(x, s'.leaf[x]) else DemandCopy(x, s'.leaf[x], s'.cache[key]);
    FetchThen(s, key, contents, s'.cache[key], s', ev);
  }

  /** The cache of s' is that of s and the page for key, which has the bytes of the file. */
  ghost predicate CacheGains(s: St, key: FileKey, contents: Contents, s': St) {
    && key in s'.cache && s'.cache == s.cache[key := s'.cache[key]] && (key in s.cache || contents.Bytes?)
    && Backed(View(s')) && s'.cache[key] in Abs(View(s')).files && Abs(View(s')).files[s'.cache[key]] == FileBytes(s, key, contents)
  }

  lemma FileRefused(s: St, key: FileKey, contents: Contents, evs: seq<Event>, s': St)
    requires Good(s) && Shows(s, evs, s')
    requires || s' == s
             || (key in s'.cache && Fetched(s, key, contents, s'.cache[key], s') && evs == Fetch(s, key, contents, s'.cache[key]))
    ensures NoPage(s, s') && (s' == s || CacheGains(s, key, contents, s'))
  {
    hide Good, OneWriter, View, Fetch, Abs;
    if key in s'.cache && Fetched(s, key, contents, s'.cache[key], s') && evs == Fetch(s, key, contents, s'.cache[key]) {
      FetchMeans(s, key, contents, s'.cache[key], s', s');
    }
  }

  /** The file page of va can be had neither from the cache nor by reading the file into it. */
  predicate Unreadable(s: St, v: Vma, va: nat, contents: Contents, room: bool) {
    FromFile(v, va) && KeyOf(v, va) !in s.cache && (contents.Failed? || !room)
  }

  /** A demand fault that fails: there is no memory or no file contents; at most the cache has
      read the page. */
  ghost predicate Refused(s: St, v: Vma, va: nat, contents: Contents, room: bool, evs: seq<Event>, s': St) {
    && (NoFreePage(s'.counts) || Unreadable(s, v, va, contents, room))
    && (evs == [] || (FromFile(v, va) && KeyOf(v, va) in s'.cache
                      && evs == Fetch(s, KeyOf(v, va), contents, s'.cache[KeyOf(v, va)])))
  }

  /** The copy-on-write page at x is the process's own, with the bytes it had. */
  ghost predicate CopyMade(s: St, x: Slot, evs: seq<Event>, s': St) {
    && CowPage(s, x) && OwnsCopy(s', x) && evs == [CowFault(x, s'.leaf[x].frame)]
    && s'.leaf[x] == s.leaf[x].(frame := s'.leaf[x].frame, write := true, cow := false) && s'.cache == s.cache
    && IsData(s, s.leaf[x].frame) && OnlyPage(s, x, Private(s.mem[s.leaf[x].frame].bytes), s')
  }

  lemma StillNoFree(s: St, cf: Frame, s': St)
    requires NoFreePage(s.counts) && cf < |s.counts| && s.counts[cf] > 0 && s' == Unref(s, cf) && Good(s') && cf in s'.owner
    ensures NoFreePage(s'.counts)
  {
    hide Good;
    CachedHeld(s', cf);
  }

  lemma UnmapSeen(s: St, x: Slot, s': St)
    requires Good(s) && Good(s') && x in s.leaf && Unmapped(s, x, s')
    ensures Sees(s, Unmap(x), s')
  {
    hide Tree, Leaves, Conserved;
    var v := Apply(View(s), Unmap(x));
    forall y | y in s'.leaf ensures Holds(v, s', s'.leaf[y].frame) { KeptBytes(s, s', s.leaf[y].frame); }
    forall g | g in s'.owner ensures Holds(v, s', g) { KeptBytes(s, s', g); }
    SightFrom(v, s');
  }

  // ---------------------------------------------------------------- files behind pages

  /** The contents of every file by vnode and position. */
  type Files = (nat, int) -> byte

  ghost predicate PageOfFile(file: Files, k: FileKey, bytes: FlatVm.Bytes) {
    |bytes| == 4096 && forall i :: 0 <= i < 4096 ==> bytes[i] == file(k.0, k.1 + i)
  }

  ghost predicate CachedPage(file: Files, s: St, k: FileKey)
    requires k in s.cache
  {
    IsData(s, s.cache[k]) && PageOfFile(file, k, s.mem[s.cache[k]].bytes)
  }

  /** Every page of the cache has the bytes of its place in its file. */
  ghost predicate CacheHolds(file: Files, s: St) {
    forall k :: k in s.cache ==> CachedPage(file, s, k)
  }

  /** What reading gives is what the files have. */
  ghost predicate ReadsFiles(file: Files, read: FileKey -> Contents) {
    forall k :: read(k).Bytes? ==> PageOfFile(file, k, read(k).bytes)
  }

  /** What reading the page behind va gives, if there is one. */
  function ContentsFor(read: FileKey -> Contents, v: Vma, va: nat): Contents {
    if FromFile(v, va) then read(KeyOf(v, va)) else Failed
  }

  /** The process finds byte b at offset off of page x. */
  ghost predicate ByteSeen(s: St, x: Slot, off: nat, b: byte) {
    && Backed(View(s)) && x in Abs(View(s)).cells
    && match Abs(View(s)).cells[x]
       case Private(bytes) => off < |bytes| && bytes[off] == b
       case OfFile(f) => f in Abs(View(s)).files && off < |Abs(View(s)).files[f]| && Abs(View(s)).files[f][off] == b
  }

  /** At va the process finds the byte of the file that its region puts there, and zero beyond the part
      of the region that the file backs.  The file is mapped by whole pages: an offset inside a page
      counts from the start of that page. */
  ghost predicate ShowsFile(file: Files, v: Vma, va: nat, x: Slot, s: St) {
    var within := va / 4096 * 4096 - v.start;
    if v.backing.File? && within < v.backing.size then
      && ByteSeen(s, x, va % 4096, file(v.backing.vnode, (v.backing.offset + within) / 4096 * 4096 + va % 4096))
      && (v.backing.offset % 4096 == 0 ==> ByteSeen(s, x, va % 4096, file(v.backing.vnode, v.backing.offset + (va - v.start))))
    else ByteSeen(s, x, va % 4096, 0)
  }

  lemma AlignedPlace(offset: nat, start: nat, va: nat)
    requires start <= va && start % 4096 == 0 && offset % 4096 == 0
    ensures (offset + (va / 4096 * 4096 - start)) / 4096 * 4096 + va % 4096 == offset + (va - start)
  {
  }

  lemma KeyIs(v: Vma, va: nat)
    requires Covers(v, va) && v.start % 4096 == 0
    ensures FromFile(v, va) <==> v.backing.File? && va / 4096 * 4096 - v.start < v.backing.size
    ensures FromFile(v, va) ==> KeyOf(v, va) == (v.backing.vnode, (v.backing.offset + (va / 4096 * 4096 - v.start)) / 4096 * 4096)
  {
  }

  lemma FileBytesAre(file: Files, read: FileKey -> Contents, s: St, k: FileKey)
    requires CacheHolds(file, s) && ReadsFiles(file, read) && (k in s.cache || read(k).Bytes?)
    ensures PageOfFile(file, k, FileBytes(s, k, read(k)))
  {
    hide PageOfFile;
    if k in s.cache { assert CachedPage(file, s, k); }
  }

  /** Faults keep the cache true to the files. */
  lemma CacheStays(file: Files, read: FileKey -> Contents, s: St, key: FileKey, s': St)
    requires Good(s) && Good(s') && FilesKept(s, s') && CacheHolds(file, s) && ReadsFiles(file, read)
    requires s'.cache == s.cache || CacheGains(s, key, read(key), s')
    ensures CacheHolds(file, s')
  {
    hide Good, View, Abs, PageOfFile, ReadsFiles, FileBytes;
    forall k | k in s'.cache ensures CachedPage(file, s', k) {
      CachedFrame(s', k);
      FilesAre(s', s'.cache[k]);
      if k in s.cache && s'.cache[k] == s.cache[k] {
        assert CachedPage(file, s, k);
        CachedFrame(s, k);
        FilesAre(s, s.cache[k]);
      } else {
        FileBytesAre(file, read, s, k);
      }
    }
  }

  /** What a handled demand fault shows at the faulting address. */
  lemma FaultShowsFile(file: Files, read: FileKey -> Contents, s: St, x: Slot, v: Vma, va: nat, evs: seq<Event>, s': St)
    requires Brought(s, x, v, va, ContentsFor(read, v, va), evs, s') && Covers(v, va) && v.start % 4096 == 0
    requires CacheHolds(file, s) && ReadsFiles(file, read)
    ensures ShowsFile(file, v, va, x, s')
  {
    hide View, OneWriter, Abs, Filled, Arrival, CacheHolds, ReadsFiles, FromFile, KeyOf, FileBytes;
    KeyIs(v, va);
    if FromFile(v, va) {
      var k := KeyOf(v, va);
      FileBytesAre(file, read, s, k);
      assert FileBytes(s, k, read(k))[va % 4096] == file(k.0, k.1 + va % 4096);
      assert ByteSeen(s', x, va % 4096, file(k.0, k.1 + va % 4096));
      if v.backing.offset % 4096 == 0 { AlignedPlace(v.backing.offset, v.start, va); }
    }
  }

  lemma DemandCache(file: Files, read: FileKey -> Contents, s: St, x: Slot, v: Vma, va: nat, evs: seq<Event>, handled: bool, s': St)
    requires Good(s) && Good(s') && CacheHolds(file, s) && ReadsFiles(file, read)
    requires handled ==> Brought(s, x, v, va, ContentsFor(read, v, va), evs, s')
    requires !handled ==> NoPage(s, s') && (s' == s || (FromFile(v, va) && CacheGains(s, KeyOf(v, va), read(KeyOf(v, va)), s')))
    ensures CacheHolds(file, s')
  {
    hide Good, View, Abs, CacheHolds, ReadsFiles, FromFile, KeyOf, FileBytes, Filled, Arrival, OneWriter;
    if FromFile(v, va) {
      CacheStays(file, read, s, KeyOf(v, va), s');
    } else {
      CacheStays(file, read, s, (0, 0), s');
    }
  }

  lemma CowCache(file: Files, s: St, x: Slot, evs: seq<Event>, s': St)
    requires Good(s) && Good(s') && CopyMade(s, x, evs, s')
    ensures CacheHolds(file, s) ==> CacheHolds(file, s')
  {
    hide Good, View, Abs, CacheHolds, FilesKept;
    if CacheHolds(file, s) { CacheStays(file, _ => Failed, s, (0, 0), s'); }
  }

  // ---------------------------------------------------------------- other operations

  /** A store by the processor to a page it may write. */
  lemma StoreSeen(s: St, x: Slot, off: nat, b: byte)
    requires Good(s) && Inv(View(s)) && x in s.leaf && s.leaf[x].write && off < 4096
    requires IsData(s, s.leaf[x].frame)
    ensures var f := s.leaf[x].frame;
            var s' := Fill(s, f, Poke(s.mem[f].bytes, off, b));
            Good(s') && Shows(s, [Write(x, off, b)], s') && Inv(View(s'))
  {
    hide Tree, Leaves, Conserved, Inv, Shows;
    var f := s.leaf[x].frame;
    var s' := Fill(s, f, Poke(s.mem[f].bytes, off, b));
    FillGood(s, f, Poke(s.mem[f].bytes, off, b));
    InView(s, f);
    var ev := Write(x, off, b);
    var v := Apply(View(s), ev);
    forall y | y in s'.leaf ensures Holds(v, s', s'.leaf[y].frame) { InView(s, s.leaf[y].frame); }
    forall g | g in s'.owner ensures Holds(v, s', g) { InView(s, g); }
    SightFrom(v, s');
    ShowsOne(s, ev, s');
    ShowsInv(s, [ev], s');
  }

  /** A new, empty address space is nothing any process sees. */
  lemma RootUnseen(s: St, f: Frame, es: seq<Pte>, s': St)
    requires Good(s) && Inv(View(s)) && MayAdd(s, Slot(f, []), f, es) && Good(s')
    requires s' == NewTable(s, Slot(f, []), f, es).(mem := s'.mem) && SameData(NewTable(s, Slot(f, []), f, es), s')
    ensures Shows(s, [], s') && Inv(View(s'))
  {
    hide Tree, Leaves, Conserved, Inv;
    FreeUnused(s, f);
    forall y | y in s'.leaf ensures Holds(View(s), s', s'.leaf[y].frame) { RootKeeps(s, f, es, s', s.leaf[y].frame); }
    forall g | g in s'.owner ensures Holds(View(s), s', g) { RootKeeps(s, f, es, s', g); }
    SightFrom(View(s), s');
    SightSuffices(View(s), View(s'));
  }

  lemma RootKeeps(s: St, f: Frame, es: seq<Pte>, s': St, g: Frame)
    requires Good(s) && f < |s.counts| && s.counts[f] == 0 && SameData(NewTable(s, Slot(f, []), f, es), s')
    requires g in s.owner || exists x :: x in s.leaf && s.leaf[x].frame == g
    ensures Holds(View(s), s', g)
  {
    hide Good;
    InView(s, g);
    assert IsData(NewTable(s, Slot(f, []), f, es), g);
  }

  lemma CowPageData(s: St, x: Slot)
    requires Good(s) && x in s.leaf
    ensures IsData(s, s.leaf[x].frame)
  {
  }

  lemma NewSpaceEmpty(s: St, f: Frame)
    requires Good(s) && s.unlinked == {} && f < |s.counts| && s.counts[f] == 0
    ensures EmptySpace(s.leaf, f)
  {
    hide Children, Conserved, Parents;
    forall x | x in s.leaf ensures x.root != f {
      assert LeafOk(s, x);
      RootsExist(s, Up(x));
      FreshChild(s, Slot(x.root, []), f);
    }
  }

  // ---------------------------------------------------------------- a store after a fork

  /** The bytes of a page. */
  function CellBytes(m: Separate, c: Cell): FlatVm.Bytes {
    match c
    case Private(bytes) => bytes
    case OfFile(f) => if f in m.files then m.files[f] else []
  }

  /** Page x of s' has the bytes of page y of s but for b at off, and page z those of y. */
  ghost predicate StoredApart(s: St, y: Slot, s': St, x: Slot, z: Slot, off: nat, b: byte) {
    && Backed(View(s)) && Backed(View(s')) && y in s.leaf && x in s'.leaf && z in s'.leaf
    && var old_ := CellBytes(Abs(View(s)), Abs(View(s)).cells[y]);
    && off < |old_| && CellBytes(Abs(View(s')), Abs(View(s')).cells[x]) == old_[off := b]
    && CellBytes(Abs(View(s')), Abs(View(s')).cells[z]) == old_
  }

  /** After a fork both processes have the pages of the first. */
  lemma ForkedCells(m: Separate, src: Frame, dst: Frame, path: seq<nat>)
    requires src != dst && Slot(src, path) in m.cells
    ensures var m' := Do(m, Clone(src, dst));
            && Slot(src, path) in m'.cells && Slot(dst, path) in m'.cells && m'.files == m.files
            && m'.cells[Slot(src, path)] == m.cells[Slot(src, path)] && m'.cells[Slot(dst, path)] == m.cells[Slot(src, path)]
  {
  }

  lemma StoreAfterCopy(m: Separate, x: Slot, z: Slot, bytes: FlatVm.Bytes, m': Separate, off: nat, b: byte)
    requires z in m.cells && x != z && off < |bytes| && m'.cells == m.cells[x := Private(bytes)]
    requires m.cells[z].OfFile? ==> m.cells[z].f in m.files && m.cells[z].f in m'.files && m'.files[m.cells[z].f] == m.files[m.cells[z].f]
    ensures Sensible(m', Write(x, off, b))
    ensures var w := Do(m', Write(x, off, b));
            && x in w.cells && z in w.cells && w.cells[x] == Private(bytes[off := b])
            && CellBytes(w, w.cells[z]) == CellBytes(m, m.cells[z])
  {
    PokeIs(bytes, off, b);
  }

  /** Fork, fault and store: the store shows in the process that made it and not in the other. */
  lemma ForkFaultStore(s0: St, src: Frame, f: Frame, s1: St, x: Slot, z: Slot, evs: seq<Event>, s2: St, off: nat, b: byte, s3: St)
    requires Good(s0) && Good(s1) && Inv(View(s0)) && Sees(s0, Clone(src, f), s1)
    requires Slot(src, x.path) in s0.leaf && z.path == x.path && {x.root, z.root} == {src, f}
    requires CopyMade(s1, x, evs, s2) && Shows(s2, [Write(x, off, b)], s3) && off < 4096
    ensures StoredApart(s0, Slot(src, x.path), s3, x, z, off, b)
  {
    hide Good, View, OneWriter, Abs, Do, Sensible, Sees;
    var y := Slot(src, x.path);
    var m0, m1, m2 := Abs(View(s0)), Abs(View(s1)), Abs(View(s2));
    SeesRefines(s0, Clone(src, f), s1);
    CloneApart(s0, src, f, s1);
    CellKeys(s0); CellKeys(s1); CellKeys(s3);
    ForkedCells(m0, src, f, x.path);
    CowBytes(s1, x);
    assert x != z && z in m1.cells && m1.cells[x] == m1.cells[z] == m0.cells[y];
    if m1.cells[z].OfFile? { FilesThere(s1, z); }
    StoreAfterCopy(m1, x, z, s1.mem[s1.leaf[x].frame].bytes, m2, off, b);
    RunOne(m2, Write(x, off, b));
  }

  lemma CloneApart(s0: St, src: Frame, f: Frame, s1: St)
    requires Sees(s0, Clone(src, f), s1)
    ensures src != f
  {
  }

  lemma CellKeys(s: St)
    requires Backed(View(s))
    ensures Abs(View(s)).cells.Keys == s.leaf.Keys
  {
  }

  lemma PokeIs(bytes: FlatVm.Bytes, off: nat, b: byte)
    requires off < |bytes|
    ensures Poke(bytes, off, b) == bytes[off := b]
  {
  }

  lemma CowBytes(s: St, x: Slot)
    requires Good(s) && Backed(View(s)) && x in s.leaf
    ensures IsData(s, s.leaf[x].frame) && |s.mem[s.leaf[x].frame].bytes| == 4096
    ensures CellBytes(Abs(View(s)), Abs(View(s)).cells[x]) == s.mem[s.leaf[x].frame].bytes
  {
    hide Tree, Leaves, Conserved;
    InView(s, s.leaf[x].frame);
  }

  lemma FilesThere(s: St, z: Slot)
    requires Good(s) && Backed(View(s)) && z in s.leaf && Abs(View(s)).cells[z].OfFile?
    ensures Abs(View(s)).cells[z].f in Abs(View(s)).files
  {
    hide Good;
  }

  // ---------------------------------------------------------------- conservation

  /** No mapped page, table or cached file page is ever free. */
  lemma NothingInUseIsFree(s: St, f: Frame)
    requires Good(s) && f < |s.counts| && s.counts[f] == 0
    ensures f !in s.owner && (forall t :: t in s.at ==> s.at[t] != f) && (forall x :: x in s.leaf ==> s.leaf[x].frame != f)
  {
    hide Leaves, Children, Parents, DataOk;
    FreeFrame(s, f);
  }

  /** When every address space is gone and no operation is under way, a page is in use exactly when
      the rest of the kernel or the page cache holds it. */
  lemma AllDestroyed(s: St, f: Frame)
    requires Good(s) && s.at == map[] && s.held == multiset{} && f < |s.counts|
    ensures s.counts[f] == s.base[f] + Bit(f in s.owner)
  {
    hide Children, Parents;
    assert s.counts[f] == Owed(s, f);
    assert f !in s.pos;
    forall x ensures x !in s.leaf { assert x in s.leaf ==> LeafOk(s, x); }
    assert Mappers(s.leaf, f) == {};
  }
}
