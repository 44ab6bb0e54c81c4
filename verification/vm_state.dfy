/** Page tables in physical memory: the state, its invariant, and the elementary updates from which
    the functions of mm/vmm.c are built. */
module VmState {
  import opened FlatVm

  /** What a physical page holds. */
  datatype Page = Table(entries: seq<Pte>) | Data(bytes: Bytes)

  type FileKey = (nat, nat)   // vnode and page-aligned offset

  /** mem is physical memory and counts the reference counts of the allocator; cache maps file
      pages to frames.  The rest is bookkeeping for the proof: at gives the frame of the table at
      each position (a root and the indices leading to it) and pos its inverse, unlinked are the
      tables no parent entry points to, leaf are the present leaf entries, owner is the inverse of
      cache, base the references the rest of the kernel holds, held those the current operation
      holds. */
  datatype St = St(
    mem: map<Frame, Page>, counts: seq<nat>, cache: map<FileKey, Frame>,
    at: map<Slot, Frame>, pos: map<Frame, Slot>, unlinked: set<Slot>, leaf: map<Slot, Pte>,
    owner: map<Frame, FileKey>, base: seq<nat>, held: multiset<Frame>)

  const Absent := Pte(false, 0, false, false, false, false, false, 0)

  // ---------------------------------------------------------------- positions

  function Down(t: Slot, i: nat): Slot { Slot(t.root, t.path + [i]) }

  function Up(t: Slot): Slot
    requires t.path != []
  {
    Slot(t.root, t.path[..|t.path| - 1])
  }

  function Last(t: Slot): nat
    requires t.path != []
  {
    t.path[|t.path| - 1]
  }

  /** Only the lower half of a root table belongs to the process. */
  function Width(p: seq<nat>): nat { if p == [] then 256 else 512 }

  predicate PathOk(p: seq<nat>) {
    (forall k :: 0 <= k < |p| ==> p[k] < 512) && (p != [] ==> p[0] < 256)
  }

  lemma UpDown(t: Slot, i: nat)
    ensures Up(Down(t, i)) == t && Last(Down(t, i)) == i
  {
  }

  lemma DownUp(t: Slot)
    requires t.path != []
    ensures Down(Up(t), Last(t)) == t
  {
  }

  lemma DownInjective(t: Slot, i: nat, u: Slot, j: nat)
    ensures Down(t, i) == Down(u, j) <==> t == u && i == j
  {
    UpDown(t, i);
    UpDown(u, j);
  }

  // ---------------------------------------------------------------- invariant

  predicate IsTable(s: St, t: Slot) {
    && t in s.at && s.at[t] in s.mem && s.mem[s.at[t]].Table? && |s.mem[s.at[t]].entries| == 512
  }

  predicate TablesOk(s: St) {
    forall t :: t in s.at ==>
      IsTable(s, t) && PathOk(t.path) && |t.path| <= 3 && s.at[t] < |s.counts| && (t.path == [] ==> s.at[t] == t.root)
  }

  function Entry(s: St, t: Slot, i: nat): Pte
    requires IsTable(s, t) && i < 512
  {
    s.mem[s.at[t]].entries[i]
  }

  /** Distinct positions have distinct frames. */
  predicate Distinct(s: St) {
    && (forall t :: t in s.at ==> s.at[t] in s.pos && s.pos[s.at[t]] == t)
    && (forall f :: f in s.pos ==> s.pos[f] in s.at && s.at[s.pos[f]] == f)
  }

  predicate ChildOk(s: St, t: Slot, i: nat)
    requires IsTable(s, t) && i < 512
  {
    Entry(s, t, i).present ==>
      && !Entry(s, t, i).huge && Down(t, i) in s.at && Down(t, i) !in s.unlinked
      && s.at[Down(t, i)] == Entry(s, t, i).frame
  }

  /** A present entry of an upper table points to the table at the position below it. */
  predicate Children(s: St)
    requires TablesOk(s)
  {
    forall t, i {:trigger ChildOk(s, t, i)} :: t in s.at && |t.path| < 3 && 0 <= i < Width(t.path) ==> ChildOk(s, t, i)
  }

  predicate ParentOk(s: St, t: Slot)
    requires TablesOk(s) && t.path != [] && Last(t) < 512
  {
    Up(t) in s.at && Entry(s, Up(t), Last(t)).present
  }

  /** Every table but a root and the unlinked ones hangs from exactly the entry above it. */
  predicate Parents(s: St)
    requires TablesOk(s)
  {
    forall t {:trigger ParentOk(s, t)} :: t in s.at && t.path != [] && t !in s.unlinked ==> ParentOk(s, t)
  }

  predicate Tree(s: St) {
    TablesOk(s) && Distinct(s) && Children(s) && Parents(s)
  }

  predicate LeafOk(s: St, x: Slot)
    requires TablesOk(s) && x in s.leaf
  {
    && |x.path| == 4 && Last(x) < 512 && Up(x) in s.at
    && Entry(s, Up(x), Last(x)).present && s.leaf[x] == Entry(s, Up(x), Last(x))
  }

  predicate LeafBelow(s: St, t: Slot, i: nat)
    requires IsTable(s, t) && i < 512
  {
    Entry(s, t, i).present ==> Down(t, i) in s.leaf
  }

  /** leaf is exactly what the lowest tables hold. */
  predicate Leaves(s: St)
    requires TablesOk(s)
  {
    && (forall x {:trigger LeafOk(s, x)} :: x in s.leaf ==> LeafOk(s, x))
    && (forall t, i {:trigger LeafBelow(s, t, i)} :: t in s.at && |t.path| == 3 && 0 <= i < 512 ==> LeafBelow(s, t, i))
  }

  predicate IsData(s: St, f: Frame) {
    f in s.mem && s.mem[f].Data? && |s.mem[f].bytes| == 4096 && f < |s.counts|
  }

  predicate DataOk(s: St) {
    && (forall x :: x in s.leaf ==> IsData(s, s.leaf[x].frame) && s.leaf[x].present)
    && (forall k :: k in s.cache ==> s.cache[k] in s.owner && s.owner[s.cache[k]] == k)
    && (forall f :: f in s.owner ==> IsData(s, f) && s.owner[f] in s.cache && s.cache[s.owner[f]] == f)
  }

  function Mappers(leaf: map<Slot, Pte>, f: Frame): set<Slot> {
    set x | x in leaf && leaf[x].frame == f
  }

  function Bit(b: bool): nat { if b then 1 else 0 }

  /** References to frame f: leaf entries, being a table, ownership by the page cache, references
      held by the current operation and those of the rest of the kernel. */
  function Owed(s: St, f: Frame): nat
    requires |s.base| == |s.counts| && f < |s.counts|
  {
    s.base[f] + |Mappers(s.leaf, f)| + Bit(f in s.pos) + Bit(f in s.owner) + s.held[f]
  }

  predicate Conserved(s: St) {
    && |s.base| == |s.counts|
    && (forall f :: 0 <= f < |s.counts| ==> s.counts[f] == Owed(s, f))
    && (forall f :: f in s.held ==> f < |s.counts|)
  }

  predicate Good(s: St) {
    Tree(s) && Leaves(s) && DataOk(s) && Conserved(s) && s.unlinked <= s.at.Keys
  }
}
