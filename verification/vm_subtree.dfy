/** Whole subtrees of tables: taking them out when an address space is destroyed, copying them when
    it is cloned. */
module VmSubtree {
  import opened FlatVm
  import opened VmState
  import opened VmUpdates

  // ---------------------------------------------------------------- positions under a table

  predicate Under(t: Slot, u: Slot) {
    u.root == t.root && t.path <= u.path
  }

  /** u is t itself or lies under one of the first i entries of t. */
  predicate Gone(t: Slot, i: nat, u: Slot) {
    Under(t, u) && (|u.path| == |t.path| || u.path[|t.path|] < i)
  }

  lemma UnderDown(t: Slot, i: nat, u: Slot)
    ensures Under(Down(t, i), u) <==> Under(t, u) && |u.path| > |t.path| && u.path[|t.path|] == i
  {
    if Under(t, u) && |u.path| > |t.path| && u.path[|t.path|] == i {
      assert t.path + [i] == u.path[..|t.path| + 1];
    }
    if Under(Down(t, i), u) {
      assert u.path[..|t.path|] == t.path;
    }
  }

  lemma GoneNext(t: Slot, i: nat, u: Slot)
    ensures Gone(t, i + 1, u) <==> Gone(t, i, u) || Under(Down(t, i), u)
  {
    UnderDown(t, i, u);
  }

  lemma GoneAll(t: Slot, u: Slot)
    requires PathOk(u.path)
    ensures Gone(t, Width(t.path), u) <==> Under(t, u)
  {
  }

  lemma UnderUp(t: Slot, u: Slot)
    requires Under(t, u) && u != t
    ensures u.path != [] && Under(t, Up(u))
  {
    assert u.path[..|t.path|] == t.path;
  }

  /** Below an absent table there is nothing, unless something there is unlinked. */
  lemma {:induction false} NothingBelow(s: St, v: Slot, u: Slot)
    requires Tree(s) && v !in s.at && Under(v, u) && (forall w :: w in s.unlinked ==> !Under(v, w))
    ensures u !in s.at
    decreases |u.path|
  {
    if u != v && u in s.at {
      hide Children, Distinct;
      assert ParentOk(s, u);
      UnderUp(v, u);
      NothingBelow(s, v, Up(u));
    }
  }

  lemma NoLeafBelow(s: St, v: Slot, x: Slot)
    requires Tree(s) && Leaves(s) && v !in s.at && |v.path| <= 3 && Under(v, x) && (forall w :: w in s.unlinked ==> !Under(v, w))
    ensures x !in s.leaf
  {
    if x in s.leaf {
      hide Children, Distinct, Parents;
      assert LeafOk(s, x);
      UnderUp(v, x);
      NothingBelow(s, v, Up(x));
    }
  }

  // ---------------------------------------------------------------- taking a table out

  /** Frames of the present entries of es from index i on. */
  function Frames(es: seq<Pte>, i: nat): multiset<Frame>
    decreases |es| - i
  {
    if i >= |es| then multiset{}
    else (if es[i].present then multiset{es[i].frame} else multiset{}) + Frames(es, i + 1)
  }

  predicate LeafOf(t: Slot, x: Slot) {
    x.path != [] && Up(x) == t
  }

  function WithoutFrom(leaf: map<Slot, Pte>, t: Slot, i: nat): map<Slot, Pte> {
    map x | x in leaf && !(LeafOf(t, x) && Last(x) >= i) :: leaf[x]
  }

  /** Dropping a lowest table removes one mapper per present entry. */
  lemma {:induction false} FramesCounted(s: St, t: Slot, i: nat, f: Frame)
    requires TablesOk(s) && Leaves(s) && t in s.at && |t.path| == 3 && i <= 512
    ensures |Mappers(s.leaf, f)| == |Mappers(WithoutFrom(s.leaf, t, i), f)| + Frames(s.mem[s.at[t]].entries, i)[f]
    decreases 512 - i
  {
    var w := WithoutFrom(s.leaf, t, i);
    if i == 512 {
      forall x | x in s.leaf ensures x in w { assert LeafOk(s, x); }
      assert w == s.leaf;
    } else {
      FramesCounted(s, t, i + 1, f);
      FrameCounted(s, t, i, f);
    }
  }

  lemma FrameCounted(s: St, t: Slot, i: nat, f: Frame)
    requires TablesOk(s) && Leaves(s) && t in s.at && |t.path| == 3 && i < 512
    ensures |Mappers(WithoutFrom(s.leaf, t, i + 1), f)| ==
            |Mappers(WithoutFrom(s.leaf, t, i), f)| + Bit(Entry(s, t, i).present && Entry(s, t, i).frame == f)
  {
    hide Mappers;
    var w, w1, x := WithoutFrom(s.leaf, t, i), WithoutFrom(s.leaf, t, i + 1), Down(t, i);
    UpDown(t, i);
    OnlyOneSlot(s.leaf, t, i);
    if Entry(s, t, i).present {
      assert LeafBelow(s, t, i);
      assert LeafOk(s, x);
      assert x in w1;
      assert w == w1 - {x};
      MappersRemove(w1, x, f);
    } else {
      NotALeaf(s, t, i);
      assert w == w1;
    }
  }

  lemma NotALeaf(s: St, t: Slot, i: nat)
    requires TablesOk(s) && Leaves(s) && t in s.at && i < 512 && !Entry(s, t, i).present
    ensures Down(t, i) !in s.leaf
  {
    UpDown(t, i);
    assert Down(t, i) in s.leaf ==> LeafOk(s, Down(t, i));
  }

  lemma OnlyOneSlot(leaf: map<Slot, Pte>, t: Slot, i: nat)
    ensures WithoutFrom(leaf, t, i) == WithoutFrom(leaf, t, i + 1) - {Down(t, i)}
  {
    UpDown(t, i);
    forall x | x in leaf && LeafOf(t, x) && Last(x) == i ensures x == Down(t, i) { DownUp(x); }
  }

  /** The tables directly below t that hang from it. */
  function Kids(s: St, t: Slot): set<Slot> {
    set u | u in s.at && u.path != [] && u !in s.unlinked && Up(u) == t
  }

  function LeafFrames(s: St, t: Slot): multiset<Frame>
    requires IsTable(s, t)
  {
    if |t.path| == 3 then Frames(s.mem[s.at[t]].entries, 0) else multiset{}
  }

  /** Table t leaves the tree: its reference and those of its leaf entries pass to the operation
      that frees it, and the tables below it are on their own. */
  function Detach(s: St, t: Slot): St
    requires IsTable(s, t)
  {
    s.(at := s.at - {t}, pos := s.pos - {s.at[t]}, unlinked := s.unlinked - {t} + Kids(s, t),
    leaf := WithoutFrom(s.leaf, t, 0), held := s.held + multiset{s.at[t]} + LeafFrames(s, t))
  }

  predicate Top(s: St, t: Slot) {
    t in s.at && (t.path == [] || t in s.unlinked)
  }

  lemma DetachTree(s: St, t: Slot)
    requires Tree(s) && Top(s, t)
    ensures Tree(Detach(s, t))
  {
    var s' := Detach(s, t);
    assert TablesOk(s') && Distinct(s');
    forall u, i | u in s'.at && |u.path| < 3 && 0 <= i < Width(u.path) ensures ChildOk(s', u, i) {
      assert ChildOk(s, u, i);
      UpDown(u, i);
    }
    forall u | u in s'.at && u.path != [] && u !in s'.unlinked ensures ParentOk(s', u) {
      assert ParentOk(s, u);
    }
  }

  lemma DetachLeaves(s: St, t: Slot)
    requires Tree(s) && Leaves(s) && Top(s, t) && Tree(Detach(s, t))
    ensures Leaves(Detach(s, t))
  {
    hide Children, Parents, Distinct;
    var s' := Detach(s, t);
    forall u, j | u in s'.at && |u.path| == 3 && 0 <= j < 512 ensures LeafBelow(s', u, j) {
      assert LeafBelow(s, u, j);
      UpDown(u, j);
    }
    forall x | x in s'.leaf ensures LeafOk(s', x) { assert LeafOk(s, x); }
  }

  lemma DetachCounts(s: St, t: Slot)
    requires Good(s) && Top(s, t)
    ensures Conserved(Detach(s, t))
  {
    hide Children, Parents;
    var s' := Detach(s, t);
    forall f | 0 <= f < |s.counts| ensures s'.counts[f] == Owed(s', f) {
      assert s.counts[f] == Owed(s, f);
      if |t.path| == 3 {
        FramesCounted(s, t, 0, f);
      } else {
        assert s'.leaf == s.leaf by { NoLeaves(s, t); }
      }
    }
    forall f | f in s'.held ensures f < |s.counts| {
      if f !in s.held && f != s.at[t] { FramesBound(s, t, 0, f); }
    }
  }

  lemma NoLeaves(s: St, t: Slot)
    requires TablesOk(s) && Leaves(s) && t in s.at && |t.path| != 3
    ensures WithoutFrom(s.leaf, t, 0) == s.leaf
  {
    forall x | x in s.leaf ensures !LeafOf(t, x) { assert LeafOk(s, x); }
  }

  lemma {:induction false} FramesBound(s: St, t: Slot, i: nat, f: Frame)
    requires TablesOk(s) && Leaves(s) && DataOk(s) && t in s.at && |t.path| == 3 && i <= 512
    requires f in Frames(s.mem[s.at[t]].entries, i)
    ensures f < |s.counts|
    decreases 512 - i
  {
    if i < 512 {
      if f in Frames(s.mem[s.at[t]].entries, i + 1) {
        FramesBound(s, t, i + 1, f);
      } else {
        assert LeafBelow(s, t, i);
        assert LeafOk(s, Down(t, i));
        UpDown(t, i);
      }
    }
  }

  lemma DetachGood(s: St, t: Slot)
    requires Good(s) && Top(s, t)
    ensures Good(Detach(s, t))
  {
    hide Children, Parents, Leaves, Conserved;
    DetachTree(s, t);
    DetachLeaves(s, t);
    DetachCounts(s, t);
  }

  // ---------------------------------------------------------------- freeing a subtree

  /** Nothing strictly below t is unlinked. */
  predicate Attached(s: St, t: Slot) {
    forall u :: u in s.unlinked && Under(t, u) ==> u == t
  }

  /** s' is s without the tables and pages that satisfy Gone(t, i, .), and with held references
      changed; the tables below t that remain are unlinked. */
  ghost predicate FreedUpTo(s: St, t: Slot, i: nat, s': St) {
    && s' == s.(counts := s'.counts, at := s'.at, pos := s'.pos, unlinked := s'.unlinked, leaf := s'.leaf, held := s'.held)
    && |s'.counts| == |s.counts|
    && (forall u :: u in s'.at <==> u in s.at && !Gone(t, i, u))
    && (forall u :: u in s'.at ==> s'.at[u] == s.at[u])
    && (forall x :: x in s'.leaf <==> x in s.leaf && !Gone(t, i, x))
    && (forall x :: x in s'.leaf ==> s'.leaf[x] == s.leaf[x])
    && (forall u :: u in s'.unlinked <==> (u in s.unlinked || (u in s.at && LeafOf(t, u))) && !Gone(t, i, u))
  }

  /** s' is s without the whole subtree at t. */
  ghost predicate Freed(s: St, t: Slot, s': St) {
    && s' == s.(counts := s'.counts, at := s'.at, pos := s'.pos, unlinked := s'.unlinked, leaf := s'.leaf, held := s'.held)
    && |s'.counts| == |s.counts|
    && (forall u :: u in s'.at <==> u in s.at && !Under(t, u))
    && (forall u :: u in s'.at ==> s'.at[u] == s.at[u])
    && (forall x :: x in s'.leaf <==> x in s.leaf && !Under(t, x))
    && (forall x :: x in s'.leaf ==> s'.leaf[x] == s.leaf[x])
    && (forall u :: u in s'.unlinked <==> u in s.unlinked && !Under(t, u))
  }

  lemma LeafOfUnder(t: Slot, u: Slot)
    ensures LeafOf(t, u) <==> Under(t, u) && |u.path| == |t.path| + 1
  {
    if Under(t, u) && |u.path| == |t.path| + 1 { assert u.path[..|t.path|] == t.path; }
  }

  lemma DetachFreesTop(s: St, t: Slot)
    requires Good(s) && Top(s, t) && |t.path| < 3 && Attached(s, t)
    ensures FreedUpTo(s, t, 0, Detach(s, t))
  {
    hide Children, Distinct, Conserved, Owed;
    var s' := Detach(s, t);
    forall u ensures Gone(t, 0, u) <==> u == t {}
    assert s'.leaf == s.leaf by { NoLeaves(s, t); }
    assert t in s.leaf ==> LeafOk(s, t);
    forall u ensures u in s'.unlinked <==> (u in s.unlinked || (u in s.at && LeafOf(t, u))) && u != t {
      if u in s.unlinked && LeafOf(t, u) { LeafOfUnder(t, u); }
    }
  }

  /** Freeing the subtree below entry i of a detached table. */
  lemma FreedNext(s: St, t: Slot, i: nat, s1: St, s2: St)
    requires FreedUpTo(s, t, i, s1) && Freed(s1, Down(t, i), s2)
    ensures FreedUpTo(s, t, i + 1, s2)
  {
    forall u ensures Gone(t, i + 1, u) <==> Gone(t, i, u) || Under(Down(t, i), u) { GoneNext(t, i, u); }
  }

  /** An absent entry has nothing below it. */
  lemma FreedSkip(s: St, t: Slot, i: nat, s1: St)
    requires Good(s) && FreedUpTo(s, t, i, s1) && t in s.at && |t.path| < 3 && i < Width(t.path) && Attached(s, t)
    requires !Entry(s, t, i).present
    ensures FreedUpTo(s, t, i + 1, s1)
  {
    hide Children, Distinct, Conserved, Parents, Leaves;
    var v := Down(t, i);
    AbsentBelow(s, t, i);
    forall w | w in s.unlinked ensures !Under(v, w) {
      UnderDown(t, i, w);
    }
    forall u ensures Gone(t, i + 1, u) <==> Gone(t, i, u) || Under(v, u) { GoneNext(t, i, u); }
    forall u | Under(v, u) ensures u !in s.at && u !in s.leaf {
      NothingBelow(s, v, u);
      NoLeafBelow(s, v, u);
    }
  }

  lemma AbsentBelow(s: St, t: Slot, i: nat)
    requires Tree(s) && t in s.at && i < 512 && !Entry(s, t, i).present && Attached(s, t)
    ensures Down(t, i) !in s.at
  {
    var v := Down(t, i);
    UnderDown(t, i, v);
    UpDown(t, i);
    assert v in s.at ==> ParentOk(s, v);
  }

  lemma FreedAll(s: St, t: Slot, s': St)
    requires Good(s) && FreedUpTo(s, t, Width(t.path), s') && Attached(s, t)
    ensures Freed(s, t, s')
  {
    hide Children, Distinct, Conserved, Parents;
    forall u | u in s.at ensures Gone(t, Width(t.path), u) <==> Under(t, u) { GoneAll(t, u); }
    forall x | x in s.leaf ensures Gone(t, Width(t.path), x) <==> Under(t, x) {
      assert LeafOk(s, x);
      LeafPathOk(s, x);
      GoneAll(t, x);
    }
    forall u | LeafOf(t, u) ensures Under(t, u) { LeafOfUnder(t, u); }
  }

  lemma LeafPathOk(s: St, x: Slot)
    requires TablesOk(s) && x in s.leaf && LeafOk(s, x)
    ensures PathOk(x.path)
  {
    var p := Up(x).path;
    assert PathOk(p);
    forall k | 0 <= k < 4 ensures x.path[k] < 512 { if k < 3 { assert x.path[k] == p[k]; } }
    assert x.path[0] == p[0];
  }

  /** A lowest table: detaching it is all there is. */
  lemma DetachFreesLowest(s: St, t: Slot)
    requires Good(s) && Top(s, t) && |t.path| == 3 && Attached(s, t)
    ensures Freed(s, t, Detach(s, t))
  {
    hide Children, Distinct, Conserved, Parents;
    var s' := Detach(s, t);
    forall u | u in s.at ensures Under(t, u) <==> u == t {}
    forall u | u in s.at && u.path != [] ensures Up(u) != t {}
    forall x | x in s.leaf ensures LeafOf(t, x) <==> Under(t, x) {
      assert LeafOk(s, x);
      LeafOfUnder(t, x);
    }
  }

  // ---------------------------------------------------------------- cloning a subtree

  /** The same position in another address space. */
  function Twin(x: Slot, root: Frame): Slot { Slot(root, x.path) }

  /** No table and no page of root dst lies under the path of t yet; only the address space under
      construction has unlinked tables. */
  predicate Vacant(s: St, t: Slot, dst: Frame) {
    && t.root != dst && (forall u :: u in s.unlinked ==> u.root == dst)
    && (forall u :: u in s.at ==> !Under(Twin(t, dst), u))
    && (forall x :: x in s.leaf ==> !Under(Twin(t, dst), x))
    && (forall u :: u in s.unlinked ==> !Under(Twin(t, dst), u))
  }

  /** Page x of s, kept in s' and marked copy-on-write when done. */
  predicate Kept(s: St, s': St, x: Slot, done: bool)
    requires x in s.leaf
  {
    x in s'.leaf && s'.leaf[x] == if done then CowMark(s.leaf[x]) else s.leaf[x]
  }

  /** Page x of s' is a copy made for dst of a page under t that is done. */
  predicate CopyFrom(s: St, s': St, t: Slot, i: nat, dst: Frame, x: Slot)
    requires x in s'.leaf
  {
    x.root == dst && Twin(x, t.root) in s.leaf && Gone(t, i, Twin(x, t.root)) && s'.leaf[x] == CowMark(s.leaf[Twin(x, t.root)])
  }

  predicate CopiedTo(s': St, x: Slot, dst: Frame) { Twin(x, dst) in s'.leaf }

  predicate DataKept(s: St, s': St, f: Frame) {
    IsData(s, f) && s.counts[f] > 0 ==> IsData(s', f) && s'.counts[f] > 0 && s'.mem[f] == s.mem[f]
  }

  /** The pages below the first i entries of t have been marked copy-on-write and copied to dst. */
  ghost predicate ClonedUpTo(s: St, t: Slot, i: nat, dst: Frame, s': St) {
    && s' == s.(mem := s'.mem, counts := s'.counts, at := s'.at, pos := s'.pos, unlinked := s'.unlinked, leaf := s'.leaf)
    && |s'.counts| == |s.counts|
    && (forall f {:trigger DataKept(s, s', f)} :: f in s.mem ==> DataKept(s, s', f))
    && (forall u :: u in s.at ==> u in s'.at && s'.at[u] == s.at[u])
    && (forall u :: u in s'.at ==> u in s.at || Gone(Twin(t, dst), i, u))
    && (forall x {:trigger x in s.leaf} :: x in s.leaf ==> Kept(s, s', x, Gone(t, i, x)))
    && (forall x {:trigger x in s'.leaf} :: x in s'.leaf && x !in s.leaf ==> CopyFrom(s, s', t, i, dst, x))
    && (forall x {:trigger CopiedTo(s', x, dst)} :: x in s.leaf && Gone(t, i, x) ==> CopiedTo(s', x, dst))
  }

  /** The whole subtree at t has been cloned to dst; the copy of t itself is not linked yet. */
  ghost predicate Cloned(s: St, t: Slot, dst: Frame, s': St) {
    ClonedUpTo(s, t, 512, dst, s') && Twin(t, dst) in s'.at && s'.unlinked == s.unlinked + {Twin(t, dst)}
  }

  /** The loop invariant of the clone functions. */
  ghost predicate Cloning(s: St, t: Slot, i: nat, dst: Frame, s': St) {
    && Good(s) && t in s.at && Vacant(s, t, dst)
    && Good(s') && ClonedUpTo(s, t, i, dst, s') && Twin(t, dst) in s'.at
    && s'.unlinked == if t.path == [] then s.unlinked else s.unlinked + {Twin(t, dst)}
  }

  lemma CloneBegins(s: St, t: Slot, dst: Frame, f: Frame, es: seq<Pte>)
    requires Good(s) && t in s.at && Vacant(s, t, dst) && MayAdd(s, Twin(t, dst), f, es)
    ensures Cloning(s, t, 0, dst, NewTable(s, Twin(t, dst), f, es))
  {
    hide Tree, Leaves, Conserved, DataOk, FreshEntries, PathOk;
    var u := Twin(t, dst);
    NewTableGood(s, u, f, es);
    var s' := NewTable(s, u, f, es);
    forall x | x in s.leaf ensures !Gone(t, 0, x) { NotATableSlot(s, t, x); }
  }

  lemma NotATableSlot(s: St, t: Slot, x: Slot)
    requires Good(s) && t in s.at && x in s.leaf
    ensures x != t && |x.path| == 4
  {
    hide Conserved, Owed;
    assert LeafOk(s, x);
  }

  // ---------------------------------------------------------------- cloning one page

  /** One round of clone_pt: the page gains a reference and both entries become read-only copies. */
  function ClonePage(s: St, x: Slot, dst: Frame): St
    requires x in s.leaf && s.leaf[x].frame < |s.counts|
    requires LeafPlace(s, x) && IsTable(s, Up(x)) && LeafPlace(s, Twin(x, dst)) && IsTable(s, Up(Twin(x, dst)))
    requires s.at[Up(x)] != s.at[Up(Twin(x, dst))]
  {
    var e := CowMark(s.leaf[x]);
    SetLeaf(Remark(Ref(s, e.frame), x, e), Twin(x, dst), e)
  }

  lemma ClonePageGood(s: St, x: Slot, dst: Frame)
    requires Good(s) && x in s.leaf && x.root != dst && LeafPlace(s, x) && LeafPlace(s, Twin(x, dst)) && Twin(x, dst) !in s.leaf
    ensures s.leaf[x].frame < |s.counts| && s.at[Up(x)] != s.at[Up(Twin(x, dst))]
    ensures IsTable(s, Up(x)) && IsTable(s, Up(Twin(x, dst)))
    ensures Good(ClonePage(s, x, dst))
  {
    hide Children, Parents, Leaves, Conserved;
    var e := CowMark(s.leaf[x]);
    var s1 := Ref(s, e.frame);
    RefGood(s, e.frame);
    RemarkGood(s1, x, e);
    SetLeafGood(Remark(s1, x, e), Twin(x, dst), e);
  }

  /** What one round leaves alone. */
  lemma ClonePageIs(s: St, x: Slot, dst: Frame)
    requires Good(s) && x in s.leaf && x.root != dst && LeafPlace(s, x) && LeafPlace(s, Twin(x, dst)) && Twin(x, dst) !in s.leaf
    requires s.leaf[x].frame < |s.counts| && s.at[Up(x)] != s.at[Up(Twin(x, dst))]
    ensures IsTable(s, Up(x)) && IsTable(s, Up(Twin(x, dst)))
    ensures var s' := ClonePage(s, x, dst);
            && s' == s.(mem := s'.mem, counts := s'.counts, leaf := s'.leaf)
            && s'.leaf == s.leaf[x := CowMark(s.leaf[x])][Twin(x, dst) := CowMark(s.leaf[x])]
            && |s'.counts| == |s.counts| && (forall f :: 0 <= f < |s.counts| ==> s'.counts[f] >= s.counts[f])
            && (forall f :: IsData(s, f) ==> IsData(s', f) && s'.mem[f] == s.mem[f])
  {
    hide Children, Parents, Leaves, Conserved;
    var s' := ClonePage(s, x, dst);
    var f := s.leaf[x].frame;
    assert s'.held == s.held + multiset{f} - multiset{f} + multiset{};
    forall g | IsData(s, g) ensures IsData(s', g) && s'.mem[g] == s.mem[g] {
      assert g != s.at[Up(x)] && g != s.at[Up(Twin(x, dst))];
    }
  }

  lemma PageStep(s0: St, t: Slot, i: nat, dst: Frame, s: St)
    requires Cloning(s0, t, i, dst, s) && |t.path| == 3 && i < 512 && Entry(s, t, i).present
    ensures var x := Down(t, i);
            && x in s.leaf && x in s0.leaf && s.leaf[x] == s0.leaf[x] && s.leaf[x] == Entry(s, t, i)
            && LeafPlace(s, x) && LeafPlace(s, Twin(x, dst)) && Twin(x, dst) !in s.leaf
  {
    hide Children, Parents, Conserved, Distinct, Owed;
    var x := Down(t, i);
    UpDown(t, i);
    UpDown(Twin(t, dst), i);
    assert Twin(x, dst) == Down(Twin(t, dst), i);
    assert LeafBelow(s, t, i);
    assert LeafOk(s, x);
    UnderDown(t, i, x);
    UnderDown(Twin(t, dst), i, Twin(x, dst));
    assert x in s0.leaf;
    assert Kept(s0, s, x, Gone(t, i, x));
    assert Twin(Twin(x, dst), t.root) == x;
    assert Twin(x, dst) in s.leaf && Twin(x, dst) !in s0.leaf ==> CopyFrom(s0, s, t, i, dst, Twin(x, dst));
  }

  lemma PageCloned(s0: St, t: Slot, i: nat, dst: Frame, s: St, s': St)
    requires Cloning(s0, t, i, dst, s) && |t.path| == 3 && i < 512
    requires var x := Down(t, i);
             && x in s.leaf && x in s0.leaf && s.leaf[x] == s0.leaf[x] && Twin(x, dst) !in s.leaf
             && s' == s.(mem := s'.mem, counts := s'.counts, leaf := s'.leaf)
             && s'.leaf == s.leaf[x := CowMark(s.leaf[x])][Twin(x, dst) := CowMark(s.leaf[x])]
             && |s'.counts| == |s.counts| && (forall f :: 0 <= f < |s.counts| ==> s'.counts[f] >= s.counts[f])
             && (forall f :: IsData(s, f) ==> IsData(s', f) && s'.mem[f] == s.mem[f])
    ensures ClonedUpTo(s0, t, i + 1, dst, s')
  {
    hide Good;
    var x := Down(t, i);
    UnderDown(t, i, x);
    forall u ensures Gone(t, i + 1, u) <==> Gone(t, i, u) || Under(x, u) { GoneNext(t, i, u); }
    forall u ensures Gone(Twin(t, dst), i, u) ==> Gone(Twin(t, dst), i + 1, u) {}
    forall f | f in s0.mem ensures DataKept(s0, s', f) { assert DataKept(s0, s, f); }
    forall y | y in s0.leaf ensures Kept(s0, s', y, Gone(t, i + 1, y)) && (Under(x, y) ==> y == x) {
      assert Kept(s0, s, y, Gone(t, i, y));
      if Under(x, y) { LeafUnderLeaf(s0, x, y); }
    }
    forall y | y in s'.leaf && y !in s0.leaf ensures CopyFrom(s0, s', t, i + 1, dst, y) {
      if y != Twin(x, dst) { assert CopyFrom(s0, s, t, i, dst, y); }
    }
    forall y | y in s0.leaf && Gone(t, i + 1, y) ensures CopiedTo(s', y, dst) {
      if y != x { assert CopiedTo(s, y, dst); }
    }
  }

  lemma LeafUnderLeaf(s: St, x: Slot, y: Slot)
    requires Good(s) && |x.path| == 4 && y in s.leaf && Under(x, y)
    ensures y == x
  {
    hide Children, Parents, Conserved, Distinct;
    assert LeafOk(s, y);
  }

  // ---------------------------------------------------------------- absent entries and subtables

  lemma AbsentInBoth(s0: St, t: Slot, i: nat, dst: Frame, s: St, y: Slot)
    requires Cloning(s0, t, i, dst, s) && i < Width(t.path) && !Entry(s, t, i).present && y in s0.leaf
    ensures !Under(Down(t, i), y)
  {
    hide Children, Conserved, Distinct, Parents, Leaves;
    var v := Down(t, i);
    if Under(v, y) {
      assert Kept(s0, s, y, Gone(t, i, y));
      if |t.path| == 3 {
        NotALeaf(s, t, i);
        LeafUnderLeaf(s, v, y);
      } else {
        assert Attached(s, t);
        AbsentBelow(s, t, i);
        NoLeafBelow(s, v, y);
      }
    }
  }

  /** An entry that is not present needs no copy. */
  lemma CloneSkip(s0: St, t: Slot, i: nat, dst: Frame, s: St)
    requires Cloning(s0, t, i, dst, s) && i < Width(t.path) && !Entry(s, t, i).present
    ensures Cloning(s0, t, i + 1, dst, s)
  {
    hide Good;
    forall u ensures Gone(t, i + 1, u) <==> Gone(t, i, u) || Under(Down(t, i), u) { GoneNext(t, i, u); }
    forall u ensures Gone(Twin(t, dst), i, u) ==> Gone(Twin(t, dst), i + 1, u) {}
    forall y | y in s0.leaf ensures Kept(s0, s, y, Gone(t, i + 1, y)) && (Gone(t, i + 1, y) ==> CopiedTo(s, y, dst)) {
      assert Kept(s0, s, y, Gone(t, i, y));
      AbsentInBoth(s0, t, i, dst, s, y);
      assert Gone(t, i, y) ==> CopiedTo(s, y, dst);
    }
    forall y | y in s.leaf && y !in s0.leaf ensures CopyFrom(s0, s, t, i + 1, dst, y) {
      assert CopyFrom(s0, s, t, i, dst, y);
    }
  }

  /** The subtree below a present entry can be cloned on its own. */
  lemma SubtreeReady(s0: St, t: Slot, i: nat, dst: Frame, s: St)
    requires Cloning(s0, t, i, dst, s) && |t.path| < 3 && i < Width(t.path) && Entry(s, t, i).present
    ensures Down(t, i) in s.at && s.at[Down(t, i)] == Entry(s, t, i).frame && Vacant(s, Down(t, i), dst)
  {
    hide Conserved, Distinct, Parents, Leaves;
    var v, w := Down(t, i), Down(Twin(t, dst), i);
    assert ChildOk(s, t, i);
    assert Twin(v, dst) == w;
    forall u ensures Under(w, u) ==> Under(Twin(t, dst), u) && !Gone(Twin(t, dst), i, u) { UnderDown(Twin(t, dst), i, u); }
    forall x | x in s.leaf ensures !Under(w, x) {
      if x !in s0.leaf {
        assert CopyFrom(s0, s, t, i, dst, x);
        TwinGone(t, i, dst, x);
      }
    }
  }

  lemma TwinGone(t: Slot, i: nat, dst: Frame, x: Slot)
    requires x.root == dst
    ensures Gone(t, i, Twin(x, t.root)) <==> Gone(Twin(t, dst), i, x)
  {
  }

  predicate SubtreeLinked(s2: St, t: Slot, i: nat, dst: Frame, e: Pte, s3: St) {
    && MayLink(s2, Twin(t, dst), i, e) && IsTable(s2, Twin(t, dst)) && i < 512 && s3 == Link(s2, Twin(t, dst), i, e)
  }

  lemma SubtreeCloned(s0: St, t: Slot, i: nat, dst: Frame, s: St, s2: St, e: Pte, s3: St)
    requires Cloning(s0, t, i, dst, s) && |t.path| < 3 && i < Width(t.path)
    requires Down(t, i) in s.at && Good(s2) && Cloned(s, Down(t, i), dst, s2) && SubtreeLinked(s2, t, i, dst, e, s3)
    ensures ClonedUpTo(s0, t, i + 1, dst, s3)
  {
    hide Good, Gone, DataKept, Cloning, Cloned, SubtreeLinked;
    SubtreeData(s0, t, i, dst, s, s2, e, s3);
    SubtreeTables(s0, t, i, dst, s, s2, e, s3);
    SubtreeRest(s0, t, i, dst, s, s2, e, s3);
    forall y | y in s0.leaf ensures Kept(s0, s3, y, Gone(t, i + 1, y)) && (Gone(t, i + 1, y) ==> CopiedTo(s3, y, dst)) {
      PageOfSubtree(s0, t, i, dst, s, s2, y);
    }
    forall y | y in s3.leaf && y !in s0.leaf ensures CopyFrom(s0, s3, t, i + 1, dst, y) {
      CopyOfSubtree(s0, t, i, dst, s, s2, y);
    }
  }

  lemma SubtreeRest(s0: St, t: Slot, i: nat, dst: Frame, s: St, s2: St, e: Pte, s3: St)
    requires Cloning(s0, t, i, dst, s) && |t.path| < 3 && i < Width(t.path)
    requires Down(t, i) in s.at && Cloned(s, Down(t, i), dst, s2) && SubtreeLinked(s2, t, i, dst, e, s3)
    ensures s3 == s0.(mem := s3.mem, counts := s3.counts, at := s3.at, pos := s3.pos, unlinked := s3.unlinked, leaf := s3.leaf)
    ensures |s3.counts| == |s0.counts| && s3.leaf == s2.leaf
  {
    hide Good, Gone, DataKept;
  }

  lemma SubtreeData(s0: St, t: Slot, i: nat, dst: Frame, s: St, s2: St, e: Pte, s3: St)
    requires Cloning(s0, t, i, dst, s) && |t.path| < 3 && i < Width(t.path)
    requires Down(t, i) in s.at && Good(s2) && Cloned(s, Down(t, i), dst, s2) && SubtreeLinked(s2, t, i, dst, e, s3)
    ensures forall f {:trigger DataKept(s0, s3, f)} :: f in s0.mem ==> DataKept(s0, s3, f)
  {
    hide Good, Gone, Kept, CopiedTo, CopyFrom;
    forall f | f in s0.mem ensures DataKept(s0, s3, f) {
      assert DataKept(s0, s, f);
      if IsData(s0, f) && s0.counts[f] > 0 { assert DataKept(s, s2, f); }
    }
  }

  lemma SubtreeTables(s0: St, t: Slot, i: nat, dst: Frame, s: St, s2: St, e: Pte, s3: St)
    requires Cloning(s0, t, i, dst, s) && |t.path| < 3 && i < Width(t.path)
    requires Down(t, i) in s.at && Cloned(s, Down(t, i), dst, s2) && SubtreeLinked(s2, t, i, dst, e, s3)
    ensures forall u :: u in s0.at ==> u in s3.at && s3.at[u] == s0.at[u]
    ensures forall u :: u in s3.at ==> u in s0.at || Gone(Twin(t, dst), i + 1, u)
  {
    hide Good, Kept, CopiedTo, CopyFrom, DataKept;
    var v := Down(t, i);
    forall u | u in s3.at ensures u in s0.at || Gone(Twin(t, dst), i + 1, u) {
      GoneNext(Twin(t, dst), i, u);
      assert Twin(v, dst) == Down(Twin(t, dst), i);
    }
  }

  lemma PageOfSubtree(s0: St, t: Slot, i: nat, dst: Frame, s: St, s2: St, y: Slot)
    requires Cloning(s0, t, i, dst, s) && |t.path| < 3 && i < Width(t.path)
    requires Down(t, i) in s.at && Cloned(s, Down(t, i), dst, s2) && y in s0.leaf
    ensures Kept(s0, s2, y, Gone(t, i + 1, y)) && (Gone(t, i + 1, y) ==> CopiedTo(s2, y, dst))
  {
    hide Children, Conserved, Distinct, Parents, DataOk;
    var v := Down(t, i);
    GoneNext(t, i, y);
    UnderDown(t, i, y);
    assert Kept(s0, s, y, Gone(t, i, y));
    assert LeafOk(s0, y);
    LeafPathOk(s0, y);
    GoneAll(v, y);
    assert Kept(s, s2, y, Gone(v, 512, y));
    assert Gone(t, i, y) ==> CopiedTo(s, y, dst);
    assert Gone(t, i, y) ==> Kept(s, s2, Twin(y, dst), Gone(v, 512, Twin(y, dst)));
    assert Gone(v, 512, y) ==> CopiedTo(s2, y, dst);
  }

  lemma CopyOfSubtree(s0: St, t: Slot, i: nat, dst: Frame, s: St, s2: St, y: Slot)
    requires Cloning(s0, t, i, dst, s) && |t.path| < 3 && i < Width(t.path)
    requires Down(t, i) in s.at && Cloned(s, Down(t, i), dst, s2) && y in s2.leaf && y !in s0.leaf
    ensures CopyFrom(s0, s2, t, i + 1, dst, y)
  {
    hide Good;
    var v := Down(t, i);
    GoneNext(t, i, Twin(y, t.root));
    UnderDown(t, i, Twin(y, t.root));
    if y in s.leaf {
      assert CopyFrom(s0, s, t, i, dst, y);
      assert Kept(s, s2, y, Gone(v, 512, y));
    } else {
      assert CopyFrom(s, s2, v, 512, dst, y);
      var x := Twin(y, t.root);
      assert x in s.leaf;
      assert x !in s0.leaf ==> CopyFrom(s0, s, t, i, dst, x);
      assert Kept(s0, s, x, Gone(t, i, x));
    }
  }
}
