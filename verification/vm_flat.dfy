/** Address spaces as flat maps from page to leaf entry, and copy-on-write fork as a refinement of
    fully separate memories. */
module FlatVm {
  type byte = x: int | 0 <= x < 256
  type Frame = nat
  type Bytes = seq<byte>

  /** A page-table entry; other stands for the flag bits the kernel carries along untouched. */
  datatype Pte = Pte(present: bool, frame: Frame, write: bool, user: bool, cow: bool, huge: bool, nx: bool, other: nat)

  /** A page of an address space: the root table and the four table indices of its address. */
  datatype Slot = Slot(root: Frame, path: seq<nat>)

  /** leaf holds the present entries only; cached are the frames owned by the page cache. */
  datatype Vm = Vm(leaf: map<Slot, Pte>, data: map<Frame, Bytes>, cached: set<Frame>)

  function ZeroPage(): Bytes { seq(4096, i => 0) }

  function Poke(x: Bytes, off: nat, b: byte): Bytes
    requires off < |x|
  {
    x[..off] + [b] + x[off + 1..]
  }

  /** (entry & ~WRITE) | COW */
  function CowMark(e: Pte): Pte { e.(write := false, cow := true) }

  /** e' is e shared after a fork: read-only and copy-on-write, all else as it was. */
  predicate SharedEntry(e: Pte, e': Pte) {
    && !e'.write && e'.cow
    && e'.present == e.present && e'.frame == e.frame && e'.user == e.user && e'.nx == e.nx && e'.huge == e.huge && e'.other == e.other
  }

  lemma CowMarkShares(e: Pte)
    ensures SharedEntry(e, CowMark(e))
  {
  }

  /** What a handled copy-on-write fault stores: (flags & ~COW) | WRITE on the new frame. */
  function Copied(e: Pte, f: Frame): Pte { e.(frame := f, write := true, cow := false) }

  datatype Event =
    | Write(s: Slot, off: nat, b: byte)
    | CowFault(s: Slot, new_: Frame)
    | DemandZero(s: Slot, e: Pte)
    | DemandCopy(s: Slot, e: Pte, from: Frame)
    | DemandShare(s: Slot, e: Pte)
    | CacheFill(f: Frame, bytes: Bytes)
    | Clone(src: Frame, dst: Frame)
    | Destroy(root: Frame)
    | Unmap(s: Slot)

  predicate Unused(v: Vm, f: Frame) {
    f !in v.cached && forall s :: s in v.leaf ==> v.leaf[s].frame != f
  }

  predicate EmptySpace(leaf: map<Slot, Pte>, root: Frame) {
    forall s :: s in leaf ==> s.root != root
  }

  predicate NewEntry(e: Pte) { e.present && !e.cow }

  /** When the event can happen: the processor lets a store through only on a writable entry, new
      frames come from the allocator, and a new address space starts empty. */
  predicate Guard(v: Vm, ev: Event) {
    match ev
    case Write(s, off, b) => s in v.leaf && v.leaf[s].write && v.leaf[s].frame in v.data && off < |v.data[v.leaf[s].frame]|
    case CowFault(s, f) => s in v.leaf && v.leaf[s].cow && v.leaf[s].frame in v.data && Unused(v, f)
    case DemandZero(s, e) => s !in v.leaf && NewEntry(e) && Unused(v, e.frame)
    case DemandCopy(s, e, from) => s !in v.leaf && NewEntry(e) && Unused(v, e.frame) && from in v.cached && from in v.data
    case DemandShare(s, e) => s !in v.leaf && NewEntry(e) && e.frame in v.cached
    case CacheFill(f, bytes) => Unused(v, f)
    case Clone(src, dst) => src != dst && EmptySpace(v.leaf, dst)
    case Destroy(root) => true
    case Unmap(s) => s in v.leaf
  }

  function CloneLeaves(leaf: map<Slot, Pte>, src: Frame, dst: Frame): map<Slot, Pte> {
    (map s | s in leaf :: if s.root == src then CowMark(leaf[s]) else leaf[s])
    + (map t | t in Moved(leaf.Keys, src, dst) :: CowMark(leaf[Slot(src, t.path)]))
  }

  function Dropped<V>(m: map<Slot, V>, root: Frame): map<Slot, V> {
    map s | s in m && s.root != root :: m[s]
  }

  function CopyOf<V>(m: map<Slot, V>, src: Frame, dst: Frame): map<Slot, V> {
    map t | t in Moved(m.Keys, src, dst) :: m[Slot(src, t.path)]
  }

  /** The pages of src, as pages of dst. */
  function Moved(pages: set<Slot>, src: Frame, dst: Frame): (r: set<Slot>)
    ensures forall t :: t in r <==> t.root == dst && Slot(src, t.path) in pages
  {
    set s | s in pages && s.root == src :: Slot(dst, s.path)
  }

  function Apply(v: Vm, ev: Event): Vm
    requires Guard(v, ev)
  {
    match ev
    case Write(s, off, b) => v.(data := v.data[v.leaf[s].frame := Poke(v.data[v.leaf[s].frame], off, b)])
    case CowFault(s, f) => v.(leaf := v.leaf[s := Copied(v.leaf[s], f)], data := v.data[f := v.data[v.leaf[s].frame]])
    case DemandZero(s, e) => v.(leaf := v.leaf[s := e], data := v.data[e.frame := ZeroPage()])
    case DemandCopy(s, e, from) => v.(leaf := v.leaf[s := e], data := v.data[e.frame := v.data[from]])
    case DemandShare(s, e) => v.(leaf := v.leaf[s := e])
    case CacheFill(f, bytes) => v.(cached := v.cached + {f}, data := v.data[f := bytes])
    case Clone(src, dst) => v.(leaf := CloneLeaves(v.leaf, src, dst))
    case Destroy(root) => v.(leaf := Dropped(v.leaf, root))
    case Unmap(s) => v.(leaf := v.leaf - {s})
  }

  // ---------------------------------------------------------------- invariant

  /** s and t map the same private page. */
  predicate SameFrame(v: Vm, s: Slot, t: Slot)
    requires s in v.leaf && t in v.leaf
  {
    v.leaf[s].frame == v.leaf[t].frame && v.leaf[s].frame !in v.cached
  }

  /** A writable private page has no other mapper; a copy-on-write entry is read-only. */
  predicate OneWriter(v: Vm) {
    && (forall s, t :: s in v.leaf && t in v.leaf && s != t && SameFrame(v, s, t) ==> !v.leaf[s].write)
    && (forall s :: s in v.leaf && v.leaf[s].cow ==> !v.leaf[s].write)
  }

  predicate Backed(v: Vm) {
    && (forall s :: s in v.leaf ==> v.leaf[s].present && v.leaf[s].frame in v.data)
    && v.cached <= v.data.Keys
  }

  predicate Inv(v: Vm) {
    OneWriter(v) && Backed(v)
  }

  lemma CloneKeys(leaf: map<Slot, Pte>, src: Frame, dst: Frame, s: Slot)
    requires src != dst && EmptySpace(leaf, dst)
    ensures var r := CloneLeaves(leaf, src, dst);
            && (s in r <==> s in leaf || (s.root == dst && Slot(src, s.path) in leaf))
            && (s in leaf ==> r[s] == if s.root == src then CowMark(leaf[s]) else leaf[s])
            && (s.root == dst && s in r ==> r[s] == CowMark(leaf[Slot(src, s.path)]))
  {
  }

  lemma CloneKeeps(v: Vm, src: Frame, dst: Frame)
    requires Inv(v) && Guard(v, Clone(src, dst))
    ensures Inv(Apply(v, Clone(src, dst)))
  {
    var v' := Apply(v, Clone(src, dst));
    hide CloneLeaves;
    forall s | s in v'.leaf
      ensures v'.leaf[s].present && v'.leaf[s].frame in v.data && (v'.leaf[s].cow ==> !v'.leaf[s].write)
    {
      CloneKeys(v.leaf, src, dst, s);
    }
    forall s, t | s in v'.leaf && t in v'.leaf && s != t && SameFrame(v', s, t)
      ensures !v'.leaf[s].write
    {
      CloneKeys(v.leaf, src, dst, s);
      CloneKeys(v.leaf, src, dst, t);
      if s in v.leaf && s.root != src && t in v.leaf { assert SameFrame(v, s, t); }
      if s in v.leaf && s.root != src && t !in v.leaf { assert SameFrame(v, s, Slot(src, t.path)); }
    }
  }

  lemma ApplyKeeps(v: Vm, ev: Event)
    requires Inv(v) && Guard(v, ev)
    ensures Inv(Apply(v, ev))
  {
    if ev.Clone? {
      CloneKeeps(v, ev.src, ev.dst);
    }
  }

  // ---------------------------------------------------------------- separate memories

  /** A page of a process is its own bytes, or a window on a page of a file. */
  datatype Cell = Private(bytes: Bytes) | OfFile(f: Frame)

  datatype Separate = Separate(cells: map<Slot, Cell>, files: map<Frame, Bytes>)

  function CellOf(v: Vm, s: Slot): Cell
    requires Backed(v) && s in v.leaf
  {
    if v.leaf[s].frame in v.cached then OfFile(v.leaf[s].frame) else Private(v.data[v.leaf[s].frame])
  }

  /** What the processes see. */
  function Abs(v: Vm): Separate
    requires Backed(v)
  {
    Separate(map s | s in v.leaf :: CellOf(v, s), map f | f in v.cached :: v.data[f])
  }

  predicate Sensible(m: Separate, ev: Event) {
    match ev
    case Write(s, off, b) =>
      && s in m.cells
      && (m.cells[s].Private? ==> off < |m.cells[s].bytes|)
      && (m.cells[s].OfFile? ==> m.cells[s].f in m.files && off < |m.files[m.cells[s].f]|)
    case CowFault(s, _) => s in m.cells && (m.cells[s].OfFile? ==> m.cells[s].f in m.files)
    case DemandCopy(_, _, from) => from in m.files
    case _ => true
  }

  /** Every process has its own memory: a fork copies all of it, a store touches one page. */
  function Do(m: Separate, ev: Event): Separate
    requires Sensible(m, ev)
  {
    match ev
    case Write(s, off, b) =>
      (match m.cells[s]
       case Private(x) => m.(cells := m.cells[s := Private(Poke(x, off, b))])
       case OfFile(f) => m.(files := m.files[f := Poke(m.files[f], off, b)]))
    case CowFault(s, _) =>
      (match m.cells[s]
       case Private(x) => m
       case OfFile(f) => m.(cells := m.cells[s := Private(m.files[f])]))
    case DemandZero(s, e) => m.(cells := m.cells[s := Private(ZeroPage())])
    case DemandCopy(s, e, from) => m.(cells := m.cells[s := Private(m.files[from])])
    case DemandShare(s, e) => m.(cells := m.cells[s := OfFile(e.frame)])
    case CacheFill(f, bytes) => m.(files := m.files[f := bytes])
    case Clone(src, dst) => m.(cells := m.cells + CopyOf(m.cells, src, dst))
    case Destroy(root) => m.(cells := Dropped(m.cells, root))
    case Unmap(s) => m.(cells := m.cells - {s})
  }

  // ---------------------------------------------------------------- refinement

  lemma CloneRefines(v: Vm, src: Frame, dst: Frame)
    requires Inv(v) && Guard(v, Clone(src, dst)) && Inv(Apply(v, Clone(src, dst)))
    ensures Abs(Apply(v, Clone(src, dst))) == Do(Abs(v), Clone(src, dst))
  {
    hide CloneLeaves, OneWriter;
    var v' := Apply(v, Clone(src, dst));
    var m, m' := Abs(v), Do(Abs(v), Clone(src, dst));
    forall s ensures s in Abs(v').cells <==> s in m'.cells
             ensures s in m'.cells ==> Abs(v').cells[s] == m'.cells[s]
    {
      CloneKeys(v.leaf, src, dst, s);
    }
    assert Abs(v').cells == m'.cells;
  }

  lemma WriterAlone(v: Vm, s: Slot, t: Slot)
    requires OneWriter(v) && s in v.leaf && t in v.leaf && s != t && v.leaf[s].write && v.leaf[s].frame !in v.cached
    ensures v.leaf[t].frame != v.leaf[s].frame
  {
    assert !SameFrame(v, s, t);
  }

  /** A store through a writable entry reaches no page of any other process. */
  lemma WriteRefines(v: Vm, s: Slot, off: nat, b: byte)
    requires Inv(v) && Guard(v, Write(s, off, b)) && Inv(Apply(v, Write(s, off, b)))
    ensures Sensible(Abs(v), Write(s, off, b))
    ensures Abs(Apply(v, Write(s, off, b))) == Do(Abs(v), Write(s, off, b))
  {
    hide Poke;
    var v' := Apply(v, Write(s, off, b));
    var m' := Do(Abs(v), Write(s, off, b));
    forall t | t in v.leaf ensures Abs(v').cells[t] == m'.cells[t] {
      if t != s && v.leaf[s].frame !in v.cached { WriterAlone(v, s, t); }
    }
    assert Abs(v').cells == m'.cells;
    assert Abs(v').files == m'.files;
  }

  lemma FaultRefines(v: Vm, s: Slot, f: Frame)
    requires Inv(v) && Guard(v, CowFault(s, f)) && Inv(Apply(v, CowFault(s, f)))
    ensures Abs(Apply(v, CowFault(s, f))) == Do(Abs(v), CowFault(s, f))
  {
    hide OneWriter;
    var v' := Apply(v, CowFault(s, f));
    var m' := Do(Abs(v), CowFault(s, f));
    assert Abs(v').cells == m'.cells;
    assert Abs(v').files == m'.files;
  }

  lemma DemandRefines(v: Vm, ev: Event)
    requires Inv(v) && Guard(v, ev) && Inv(Apply(v, ev)) && (ev.DemandZero? || ev.DemandCopy?)
    ensures Sensible(Abs(v), ev) && Abs(Apply(v, ev)) == Do(Abs(v), ev)
  {
    hide OneWriter, Poke, CloneLeaves;
    var v' := Apply(v, ev);
    var m' := Do(Abs(v), ev);
    assert Abs(v').cells == m'.cells;
    assert Abs(v').files == m'.files;
  }

  lemma CacheRefines(v: Vm, ev: Event)
    requires Inv(v) && Guard(v, ev) && Inv(Apply(v, ev)) && (ev.DemandShare? || ev.CacheFill?)
    ensures Sensible(Abs(v), ev) && Abs(Apply(v, ev)) == Do(Abs(v), ev)
  {
    hide OneWriter, Poke, CloneLeaves;
    var v' := Apply(v, ev);
    var m' := Do(Abs(v), ev);
    assert Abs(v').cells == m'.cells;
    assert Abs(v').files == m'.files;
  }

  /** One event of the copy-on-write kernel does to what processes see exactly what it does to
      fully separate memories. */
  lemma StepRefines(v: Vm, ev: Event)
    requires Inv(v) && Guard(v, ev)
    ensures Inv(Apply(v, ev)) && Sensible(Abs(v), ev) && Abs(Apply(v, ev)) == Do(Abs(v), ev)
  {
    hide OneWriter, CloneLeaves;
    ApplyKeeps(v, ev);
    match ev
    case Write(s, off, b) => WriteRefines(v, s, off, b);
    case CowFault(s, f) => FaultRefines(v, s, f);
    case Clone(src, dst) => CloneRefines(v, src, dst);
    case Destroy(root) => assert Abs(Apply(v, ev)).cells == Do(Abs(v), ev).cells;
    case Unmap(s) => assert Abs(Apply(v, ev)).cells == Do(Abs(v), ev).cells;
    case DemandZero(_, _) => DemandRefines(v, ev);
    case DemandCopy(_, _, _) => DemandRefines(v, ev);
    case DemandShare(_, _) => CacheRefines(v, ev);
    case CacheFill(_, _) => CacheRefines(v, ev);
  }

  // ---------------------------------------------------------------- runs

  predicate Possible(v: Vm, evs: seq<Event>)
    decreases |evs|
  {
    evs != [] ==> Guard(v, evs[0]) && Possible(Apply(v, evs[0]), evs[1..])
  }

  function Run(v: Vm, evs: seq<Event>): Vm
    requires Possible(v, evs)
    decreases |evs|
  {
    if evs == [] then v else Run(Apply(v, evs[0]), evs[1..])
  }

  predicate AllSensible(m: Separate, evs: seq<Event>)
    decreases |evs|
  {
    evs != [] ==> Sensible(m, evs[0]) && AllSensible(Do(m, evs[0]), evs[1..])
  }

  function RunSeparate(m: Separate, evs: seq<Event>): Separate
    requires AllSensible(m, evs)
    decreases |evs|
  {
    if evs == [] then m else RunSeparate(Do(m, evs[0]), evs[1..])
  }

  /** Copy-on-write fork refines separate memories: after any interleaving of stores, faults,
      forks, exits and file mappings in any number of processes, each process sees what it would
      have seen with a full copy of its own. */
  lemma {:induction false} ForkRefinesCopy(v: Vm, evs: seq<Event>)
    requires Inv(v) && Possible(v, evs)
    ensures Inv(Run(v, evs))
    ensures AllSensible(Abs(v), evs) && Abs(Run(v, evs)) == RunSeparate(Abs(v), evs)
    decreases |evs|
  {
    hide OneWriter, Apply, Guard, Do, Sensible;
    if evs != [] {
      StepRefines(v, evs[0]);
      ForkRefinesCopy(Apply(v, evs[0]), evs[1..]);
    }
  }

  /** The event is carried out by, or creates or destroys, another process than root. */
  predicate Foreign(ev: Event, root: Frame) {
    match ev
    case Write(s, _, _) => s.root != root
    case CowFault(s, _) => s.root != root
    case DemandZero(s, _) => s.root != root
    case DemandCopy(s, _, _) => s.root != root
    case DemandShare(s, _) => s.root != root
    case CacheFill(_, _) => true
    case Clone(src, dst) => dst != root
    case Destroy(r) => r != root
    case Unmap(s) => s.root != root
  }

  lemma {:induction false} SeparateIsolated(m: Separate, evs: seq<Event>, s: Slot)
    requires AllSensible(m, evs) && forall i :: 0 <= i < |evs| ==> Foreign(evs[i], s.root)
    ensures var m' := RunSeparate(m, evs);
            (s in m'.cells <==> s in m.cells) && (s in m.cells ==> m'.cells[s] == m.cells[s])
    decreases |evs|
  {
    if evs != [] {
      assert Foreign(evs[0], s.root);
      SeparateIsolated(Do(m, evs[0]), evs[1..], s);
    }
  }

  /** Whatever the other processes do, the private memory of a process stays as it is. */
  lemma PrivateMemoryIsolated(v: Vm, evs: seq<Event>, s: Slot)
    requires Inv(v) && Possible(v, evs) && (forall i :: 0 <= i < |evs| ==> Foreign(evs[i], s.root))
    requires s in v.leaf && v.leaf[s].frame !in v.cached
    ensures var v' := Run(v, evs);
            && s in v'.leaf && Backed(v') && v'.leaf[s].frame !in v'.cached
            && v'.data[v'.leaf[s].frame] == v.data[v.leaf[s].frame]
  {
    hide OneWriter, Run, RunSeparate, Possible, AllSensible;
    ForkRefinesCopy(v, evs);
    SeparateIsolated(Abs(v), evs, s);
    assert s in Abs(Run(v, evs)).cells;
  }

  // ---------------------------------------------------------------- unused frames do not matter

  /** v and w agree on everything but frames nobody maps. */
  predicate SameSight(v: Vm, w: Vm) {
    && v.leaf == w.leaf && v.cached == w.cached
    && (forall s :: s in v.leaf ==> SameBytes(v, w, v.leaf[s].frame))
    && (forall f :: f in v.cached ==> SameBytes(v, w, f))
  }

  predicate SameBytes(v: Vm, w: Vm, f: Frame) {
    f in v.data && f in w.data && v.data[f] == w.data[f]
  }

  lemma SightSuffices(v: Vm, w: Vm)
    requires Inv(v) && SameSight(v, w)
    ensures Inv(w) && Abs(w) == Abs(v)
  {
    assert Inv(w) by {
      forall s, t | s in w.leaf && t in w.leaf && s != t && SameFrame(w, s, t) ensures !w.leaf[s].write {
        assert SameFrame(v, s, t);
      }
      forall s | s in w.leaf ensures w.leaf[s].present && w.leaf[s].frame in w.data { assert SameBytes(v, w, v.leaf[s].frame); }
      forall f | f in w.cached ensures f in w.data { assert SameBytes(v, w, f); }
    }
    hide OneWriter;
    forall s | s in v.leaf ensures CellOf(w, s) == CellOf(v, s) { assert SameBytes(v, w, v.leaf[s].frame); }
    assert Abs(w).cells == Abs(v).cells;
    forall f | f in v.cached ensures v.data[f] == w.data[f] { assert SameBytes(v, w, f); }
    assert Abs(w).files == Abs(v).files;
  }
}
