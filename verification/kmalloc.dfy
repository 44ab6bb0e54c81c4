/** mm/kmalloc.c over the physical page allocator.  The direct map is taken as the identity, so block
    addresses are physical and page 0 is never handed out: 0 is the null address. */
module SlabAllocator {
  import opened HeapBlocks
  import opened HeapSteps
  import opened PhysicalMemory

  function ClassSize(c: nat): nat { BlockSize(c) - 8 }

  /** Pages of a large request, with size_t arithmetic. */
  function LargePages(size: nat): nat {
    var total := (size + 8) % 0x1_0000_0000_0000_0000;
    (total + 4095) % 0x1_0000_0000_0000_0000 / 4096
  }

  /** A large request gets room for its bytes and its header, or is refused, exactly when adding the
      header does not wrap around; the seven largest sizes get one page. */
  lemma LargeAdequateIff(size: nat)
    requires 2048 < size < 0x1_0000_0000_0000_0000
    ensures LargePages(size) == 0 || size + 8 <= LargePages(size) * 4096 <==> size + 8 <= 0x1_0000_0000_0000_0000
    ensures size + 8 > 0x1_0000_0000_0000_0000 ==> LargePages(size) == 1
  {
    var total := size + 8;
    if total > 0x1_0000_0000_0000_0000 {
      assert total % 0x1_0000_0000_0000_0000 == total - 0x1_0000_0000_0000_0000;
    } else if total == 0x1_0000_0000_0000_0000 {
      assert LargePages(size) == 0;
    } else if total + 4095 >= 0x1_0000_0000_0000_0000 {
      assert (total + 4095) % 0x1_0000_0000_0000_0000 == total + 4095 - 0x1_0000_0000_0000_0000;
    }
  }

  lemma HugeRequestGetsOnePage()
    ensures LargePages(0xFFFF_FFFF_FFFF_FFFF) == 1
  {
    LargeAdequateIff(0xFFFF_FFFF_FFFF_FFFF);
  }

  function ClassOf(size: nat): (c: nat)
    ensures c <= 8
  {
    if size <= 16 then 0 else if size <= 32 then 1 else if size <= 64 then 2 else if size <= 128 then 3
    else if size <= 256 then 4 else if size <= 512 then 5 else if size <= 1024 then 6 else if size <= 2048 then 7 else 8
  }

  /** No page from 1 up starts a free run of n pages. */
  ghost predicate NoRun(counts: seq<nat>, n: nat) {
    forall s :: 1 <= s ==> !FreeRun(counts, s, n)
  }

  /** Every slab page is carved completely. */
  predicate Full(use: map<nat, Use>) {
    forall p :: p in use && use[p].Slab? ==> use[p].carved == PerPage(use[p].cls)
  }

  predicate Untouched(h: Heap, h': Heap, a: nat)
    requires a in h.live
  {
    forall x :: a <= x < a + Extent(h.live[a]) && x % 8 == 0 ==> Word(h'.mem, x) == Word(h.mem, x)
  }

  /** Blocks that stay live keep every word. */
  predicate KeepsData(h: Heap, h': Heap) {
    forall a :: a in h.live && a in h'.live ==> h'.live[a] == h.live[a] && Untouched(h, h', a)
  }

  lemma KeepsTransitive(h: Heap, h1: Heap, h2: Heap)
    requires KeepsData(h, h1) && KeepsData(h1, h2) && h1.live == h.live
    ensures KeepsData(h, h2)
  {
    forall a | a in h.live && a in h2.live ensures h2.live[a] == h.live[a] && Untouched(h, h2, a) {
      assert Untouched(h, h1, a) && Untouched(h1, h2, a);
    }
  }

  lemma CarveKeeps(h: Heap, counts: seq<nat>, c: nat, p: nat)
    requires Ok(h, counts) && c < 8 && p in h.use && h.use[p].Slab? && h.use[p].cls == c && h.use[p].carved < PerPage(c)
    ensures KeepsData(h, Carve(h, c, p))
  {
    hide Ok, Address, BlockSize, PerPage;
    CarveOk(h, counts, c, p);
    OkSizes(h, counts);
    var h', f := Carve(h, c, p), Address(p, c, h.use[p].carved);
    assert f in h'.free[c] by { assert h'.free[c][0] == f; }
    forall a | a in h.live ensures Untouched(h, h', a) { FreeApart(h', counts, c, f, a); }
  }

  lemma OkSizes(h: Heap, counts: seq<nat>)
    requires Ok(h, counts)
    ensures |h.heads| == 8 && |h.free| == 8
  {
  }

  lemma TakeKeeps(h: Heap, counts: seq<nat>, c: nat, size: nat)
    requires Ok(h, counts) && c < 8 && |h.free[c]| > 0
    ensures KeepsData(h, Take(h, c, size))
  {
    hide Ok, BlockSize;
    OkSizes(h, counts);
    HeadFacts(h, counts, c);
    forall a | a in h.live ensures Untouched(h, Take(h, c, size), a) { FreeApart(h, counts, c, h.heads[c], a); }
  }

  lemma GiveKeeps(h: Heap, counts: seq<nat>, b: nat)
    requires Ok(h, counts) && b in h.live && h.live[b].cls < 8
    ensures KeepsData(h, Give(h, b))
  {
    hide Ok, BlockSize;
    OkSizes(h, counts);
    forall a | a in h.live && a != b ensures Untouched(h, Give(h, b), a) { LiveDisjoint(h, counts, a, b); }
  }

  lemma NewBigKeeps(h: Heap, counts: seq<nat>, p: nat, n: nat, size: nat)
    requires Ok(h, counts) && p !in h.use && p * 4096 !in h.live
    ensures KeepsData(h, NewBig(h, p, n, size))
  {
    hide Ok, BlockSize, WithPages;
    var h' := NewBig(h, p, n, size);
    forall a | a in h.live ensures Untouched(h, h', a) {
      if a <= p * 4096 < a + Extent(h.live[a]) { LiveInsidePages(h, counts, a, p * 4096); }
    }
  }

  /** The step from an old heap to a new one is the allocation of the block at a. */
  predicate Allocated(h: Heap, h': Heap, a: nat, size: nat) {
    && a !in h.live && h'.live == h.live[a := Live(ClassOf(size), if size <= 2048 then 0 else LargePages(size), size)]
    && (size + 8 <= Extent(h'.live[a]) <==> size + 8 <= 0x1_0000_0000_0000_0000)
  }

  lemma SmallFits(size: nat)
    requires 0 < size <= 2048
    ensures ClassOf(size) < 8 && size + 8 <= BlockSize(ClassOf(size))
  {
  }

  class Allocator {
    const pmm: Pmm
    /** The pages for which the kernel page table has a present entry. */
    const mapped: set<nat>
    const freelists: array<nat>
    var mem: map<nat, nat>
    ghost var use: map<nat, Use>
    ghost var free: seq<seq<nat>>
    ghost var live: map<nat, Live>

    ghost function H(): Heap
      reads this, freelists
    {
      Heap(mem, freelists[..], use, free, live)
    }

    /** Tracked memory is at most 2^32 pages and the direct map covers it. */
    ghost predicate Setting()
      reads this, pmm, pmm.bitmap, pmm.refs
    {
      && freelists != pmm.refs && freelists as object != pmm.bitmap
      && pmm.Valid() && pmm.pages <= 0x1_0000_0000 && freelists.Length == 8
      && forall p :: 0 <= p < pmm.pages ==> p in mapped
    }

    ghost predicate Valid()
      reads this, freelists, pmm, pmm.bitmap, pmm.refs
    {
      Setting() && Ok(H(), pmm.counts) && Full(use)
    }

    /** km_ptr_sane: not null, canonical and mapped. */
    predicate Sane(v: nat)
      reads this
    {
      v != 0 && (v / 0x1_0000_0000_0000 == 0 || v / 0x1_0000_0000_0000 == 0xFFFF) && v / 4096 in mapped
    }

    /** Addresses inside pages in use pass the sanity test. */
    lemma InUseIsSane(a: nat)
      requires Setting() && Ok(H(), pmm.counts) && a / 4096 in use
      ensures Sane(a)
    {
      hide ListOk, Placed, LiveOk, Pmm.Valid;
      assert PageOk(H(), pmm.counts, a / 4096);
      CountsLength(pmm);
      assert a / 0x1_0000_0000_0000 == 0;
    }

    /** kmalloc_init */
    constructor (pmm: Pmm, mapped: set<nat>)
      requires pmm.Valid() && pmm.pages <= 0x1_0000_0000 && forall p :: 0 <= p < pmm.pages ==> p in mapped
      modifies pmm, pmm.bitmap, pmm.refs
      ensures Valid() && fresh(freelists) && this.pmm == pmm && live == map[]
    {
      this.pmm, this.mapped, mem := pmm, mapped, map[];
      freelists := new nat[8](_ => 0);
      use, free, live := map[], seq(8, _ => []), map[];
      new;
      EmptyHeapOk(H(), pmm.counts);
      for i := 0 to 8
        invariant Valid() && live == map[]
      {
        RefillSlab(i);
      }
    }

    /** One round of the loop of refill_slab. */
    method CarveNext(cls: nat, phys: nat, i: nat)
      requires Setting() && Ok(H(), pmm.counts) && cls < 8 && i < PerPage(cls)
      requires phys % 4096 == 0 && phys / 4096 in use && use[phys / 4096] == Slab(cls, i)
      modifies `mem, `free, `use, freelists
      ensures Setting() && Ok(H(), pmm.counts) && KeepsData(old(H()), H())
      ensures use == old(use)[phys / 4096 := Slab(cls, i + 1)]
      ensures |free| == 8 && |old(free)| == 8 && |free[cls]| == |old(free)[cls]| + 1
    {
      hide Ok, Pmm.Valid, Carve, KeepsData, Full, Address, PerPage;
      ghost var h, p := H(), phys / 4096;
      OkSizes(h, pmm.counts);
      CarveOk(h, pmm.counts, cls, p);
      CarveKeeps(h, pmm.counts, cls, p);
      CarveFacts(h, cls, p);
      var node := phys + i * (ClassSize(cls) + 8);
      mem := mem[node := freelists[cls]];
      freelists[cls] := node;
      free := free[cls := [node] + free[cls]];
      use := use[p := Slab(cls, i + 1)];
      assert H() == Carve(h, cls, p);
    }

    /** refill_slab */
    method RefillSlab(cls: nat)
      requires Valid() && cls < 8
      modifies this, freelists, pmm, pmm.bitmap, pmm.refs
      ensures Valid() && live == old(live) && KeepsData(old(H()), H())
      ensures NoRun(old(pmm.counts), 1) ==> H() == old(H()) && pmm.counts == old(pmm.counts)
      ensures !NoRun(old(pmm.counts), 1) ==> |free[cls]| > 0
    {
      hide Ok, Pmm.Valid, Carve, KeepsData, Full, Address;
      ghost var h0, counts0 := H(), pmm.counts;
      KeepsSelf(h0);
      var phys := pmm.AllocPages(1);
      if phys == 0 { return; }
      var n := 4096 / (ClassSize(cls) + 8);
      PerPageIs(cls);
      ghost var p := phys / 4096;
      StartSlab(h0, counts0, pmm.counts, cls, p);
      use := use[p := Slab(cls, 0)];
      OkSizes(H(), pmm.counts);
      assert H() == NewSlab(h0, cls, p);
      for i := 0 to n
        invariant Setting() && Ok(H(), pmm.counts) && KeepsData(h0, H()) && live == h0.live
        invariant p in use && use[p] == Slab(cls, i) && use == h0.use[p := Slab(cls, i)]
        invariant |free| == 8 && |free[cls]| >= i
        invariant !NoRun(counts0, 1)
        modifies this, freelists
      {
        ghost var h := H();
        CarveNext(cls, phys, i);
        KeepsTransitive(h0, h, H());
      }
      FullAgain(h0.use, use, p, cls);
    }

    /** The class loop of kmalloc: the smallest class that fits, or 8. */
    method FindClass(size: nat) returns (cls: nat)
      ensures cls == ClassOf(size)
      ensures cls < 8 ==> size <= ClassSize(cls) && forall i :: 0 <= i < cls ==> ClassSize(i) < size
    {
      cls := 0;
      while cls < 8
        invariant cls <= 8 && forall i :: 0 <= i < cls ==> ClassSize(i) < size
      {
        if size <= ClassSize(cls) { assert cls > 0 ==> ClassSize(cls - 1) < size; return; }
        cls := cls + 1;
      }
      assert ClassSize(7) < size;
    }

    method AllocLarge(size: nat) returns (r: nat)
      requires Valid() && 2048 < size < 0x1_0000_0000_0000_0000
      modifies this, pmm, pmm.bitmap, pmm.refs
      ensures Valid() && KeepsData(old(H()), H())
      ensures r == 0 <==> LargePages(size) == 0 || NoRun(old(pmm.counts), LargePages(size))
      ensures r == 0 ==> H() == old(H())
      ensures r != 0 ==> r >= 8 && Allocated(old(H()), H(), r - 8, size)
    {
      hide Ok, Pmm.Valid, KeepsData, Full, NewBig;
      ghost var h0, counts0 := H(), pmm.counts;
      KeepsSelf(h0);
      var total := (size + 8) % 0x1_0000_0000_0000_0000;
      var npages := (total + 4095) % 0x1_0000_0000_0000_0000 / 4096;
      CountsLength(pmm);
      var phys := pmm.AllocPages(npages);
      if phys == 0 { return 0; }
      ghost var p := phys / 4096;
      BigFits(h0, counts0, pmm.counts, p, npages, size);
      mem := mem[phys := npages * 0x1_0000_0000 + 0xFFFF_FFFF];
      use, live := WithPages(use, p, npages), live[phys := Live(8, npages, size)];
      assert H() == NewBig(h0, p, npages, size);
      r := phys + 8;
    }

    /** The end of kmalloc: the first block of a non-empty list becomes live. */
    method Pop(cls: nat, size: nat)
      requires Valid() && cls < 8 && freelists[cls] != 0 && 0 < size <= 2048 && cls == ClassOf(size)
      modifies `mem, `free, `live, freelists
      ensures Valid() && KeepsData(old(H()), H()) && Allocated(old(H()), H(), old(freelists[cls]), size)
    {
      hide Ok, Pmm.Valid, KeepsData, Full, Allocated, Take;
      ghost var h := H();
      HeadIs(h, pmm.counts, cls);
      var node := freelists[cls];
      var next := Word(mem, node);
      NextIs(h, pmm.counts, cls);
      if next != 0 && !Sane(next) { InUseIsSane(next); assert false; }
      TakeOk(h, pmm.counts, cls, size);
      TakeKeeps(h, pmm.counts, cls, size);
      SmallAllocated(h, pmm.counts, cls, size);
      TakeIs(h, cls, size);
      freelists[cls] := next;
      mem := mem[node := cls];
      free, live := free[cls := free[cls][1..]], live[node := Live(cls, 0, size)];
      assert H() == Take(h, cls, size);
    }

    method Kmalloc(size: nat) returns (r: nat)
      requires Valid() && size < 0x1_0000_0000_0000_0000
      modifies this, freelists, pmm, pmm.bitmap, pmm.refs
      ensures Valid() && KeepsData(old(H()), H())
      ensures |old(free)| == 8
      ensures r == 0 <==> size == 0
                          || (size <= 2048 && old(free)[ClassOf(size)] == [] && NoRun(old(pmm.counts), 1))
                          || (size > 2048 && (LargePages(size) == 0 || NoRun(old(pmm.counts), LargePages(size))))
      ensures r == 0 ==> live == old(live)
      ensures r != 0 ==> r >= 8 && Allocated(old(H()), H(), r - 8, size)
    {
      hide Ok, Pmm.Valid, KeepsData, Full, NoRun, Allocated, Take;
      ghost var h0 := H();
      OkSizes(h0, pmm.counts);
      KeepsSelf(h0);
      if size == 0 { return 0; }
      var cls := FindClass(size);
      if cls == 8 {
        r := AllocLarge(size);
        return;
      }
      HeadIs(h0, pmm.counts, cls);
      if freelists[cls] == 0 { RefillSlab(cls); }
      OkSizes(H(), pmm.counts);
      var node := freelists[cls];
      HeadIs(H(), pmm.counts, cls);
      if node != 0 && !Sane(node) { InUseIsSane(node); assert false; }
      if node == 0 { return 0; }
      ghost var h := H();
      Pop(cls, size);
      KeepsTransitive(h0, h, H());
      AllocatedLater(h0, h, H(), node, size);
      r := node + 8;
    }

    /** kfree of a pointer kmalloc returned, or of null. */
    method Kfree(ptr: nat)
      requires Valid() && (ptr == 0 || (ptr >= 8 && ptr - 8 in live))
      modifies this, freelists, pmm, pmm.bitmap, pmm.refs
      ensures Valid() && KeepsData(old(H()), H())
      ensures ptr == 0 ==> H() == old(H()) && pmm.counts == old(pmm.counts)
      ensures ptr != 0 ==> live == old(live) - {ptr - 8}
      ensures ptr != 0 && old(live)[ptr - 8].cls < 8 ==> pmm.counts == old(pmm.counts) && use == old(use)
      ensures ptr != 0 && old(live)[ptr - 8].cls == 8 ==>
                forall q :: 0 <= q < |old(pmm.counts)| && q < |pmm.counts| ==>
                  pmm.counts[q] == if (ptr - 8) / 4096 <= q < (ptr - 8) / 4096 + old(live)[ptr - 8].npages then 0
                                   else old(pmm.counts)[q]
    {
      hide Ok, Pmm.Valid, KeepsData, Full, DropBig;
      KeepsSelf(H());
      if ptr == 0 { return; }
      var node := ptr - 8;
      var hdr := Word(mem, node);
      var magic := hdr % 0x1_0000_0000;
      HeaderSays(H(), pmm.counts, node);
      if magic == 0xFFFF_FFFF {
        FreeLarge(node, hdr / 0x1_0000_0000);
        return;
      }
      if magic >= 8 { assert false; }
      InUseIsSane(node);
      if !Sane(node) { assert false; }
      FreeSmall(node, magic);
    }

    method FreeLarge(node: nat, npages: nat)
      requires Valid() && Held(H(), 8, node) && npages == live[node].npages && node % 4096 == 0
      modifies this, pmm, pmm.bitmap, pmm.refs
      ensures Valid() && KeepsData(old(H()), H()) && live == old(live) - {node}
      ensures |pmm.counts| == |old(pmm.counts)| && freelists[..] == old(freelists[..])
      ensures forall q :: 0 <= q < |pmm.counts| ==>
                pmm.counts[q] == if node / 4096 <= q < node / 4096 + npages then 0 else old(pmm.counts)[q]
    {
      hide Ok, KeepsData, Full;
      ghost var h, counts0 := H(), pmm.counts;
      BigTracked(h, counts0, node);
      CountsLength(pmm);
      pmm.FreePages(node, npages);
      CountsLength(pmm);
      DropBigOk(h, counts0, pmm.counts, node);
      DropKeeps(h, node);
      use, live := use - Pages(node / 4096, npages), live - {node};
      assert H() == DropBig(h, node);
    }

    method FreeSmall(node: nat, cls: nat)
      requires Valid() && node in live && cls < 8 && live[node].cls == cls
      modifies `mem, `free, `live, freelists
      ensures Valid() && KeepsData(old(H()), H()) && live == old(live) - {node}
    {
      hide Ok, Pmm.Valid, KeepsData, Full;
      ghost var h := H();
      OkSizes(h, pmm.counts);
      GiveOk(h, pmm.counts, node);
      GiveKeeps(h, pmm.counts, node);
      mem := mem[node := freelists[cls]];
      freelists[cls] := node;
      free, live := free[cls := [node] + free[cls]], live - {node};
      assert H() == Give(h, node);
    }

    /** A client stores into the block it got from kmalloc: the word that holds byte offset of its data
        becomes v, of which only the bytes it stores differ. */
    method ClientWrite(ptr: nat, offset: nat, v: nat)
      requires Valid() && ptr >= 8 && ptr - 8 in live && offset + 8 < Extent(live[ptr - 8])
      modifies `mem
      ensures Valid() && mem == old(mem)[WordOf(ptr + offset) := v]
      ensures forall b :: b in live && b != ptr - 8 ==> Untouched(old(H()), H(), b)
    {
      hide Ok, Pmm.Valid, Full, WordOf;
      ghost var h := H();
      ScribbleOk(h, pmm.counts, ptr - 8, ptr + offset, v);
      mem := mem[WordOf(ptr + offset) := v];
      assert H() == Poke(h, WordOf(ptr + offset), v);
      forall b | b in live && b != ptr - 8 ensures Untouched(h, H(), b) { LiveDisjoint(h, pmm.counts, ptr - 8, b); }
    }
  }

  lemma CountsLength(pmm: Pmm)
    requires pmm.Valid()
    ensures |pmm.counts| == pmm.pages
  {
  }

  lemma KeepsSelf(h: Heap)
    ensures KeepsData(h, h)
  {
  }

  lemma StartSlab(h: Heap, counts: seq<nat>, counts': seq<nat>, c: nat, p: nat)
    requires Ok(h, counts) && c < 8 && 1 <= p && FreeRun(counts, p, 1) && counts' == Claimed(counts, p, 1)
    ensures Ok(NewSlab(h, c, p), counts') && KeepsData(h, NewSlab(h, c, p)) && p !in h.use && !NoRun(counts, 1)
  {
    hide ListOk, Placed, LiveOk;
    assert p in h.use ==> PageOk(h, counts, p);
    NewSlabOk(h, counts, counts', c, p);
  }

  lemma CarveFacts(h: Heap, c: nat, p: nat)
    requires c < |h.heads| && c < |h.free| && p in h.use && h.use[p].Slab?
    ensures var a := p * 4096 + h.use[p].carved * BlockSize(c);
            Carve(h, c, p) == Heap(h.mem[a := h.heads[c]], h.heads[c := a], h.use[p := Slab(c, h.use[p].carved + 1)],
                                   h.free[c := [a] + h.free[c]], h.live)
  {
  }

  lemma FullAgain(use: map<nat, Use>, use': map<nat, Use>, p: nat, c: nat)
    requires Full(use) && use' == use[p := Slab(c, PerPage(c))]
    ensures Full(use')
  {
  }

  lemma EmptyHeapOk(h: Heap, counts: seq<nat>)
    requires |h.heads| == 8 && forall c :: 0 <= c < 8 ==> h.heads[c] == 0
    requires h.free == seq(8, _ => []) && h.use == map[] && h.live == map[] && h.mem == map[]
    ensures Ok(h, counts)
  {
    forall c | 0 <= c < 8 ensures ListOk(h, c) { assert h.free[c] == []; }
    forall c, a | 0 <= c < 8 ensures Placed(h, c, a) { assert h.free[c] == []; }
  }

  lemma BigFits(h: Heap, counts: seq<nat>, counts': seq<nat>, p: nat, n: nat, size: nat)
    requires Ok(h, counts) && 1 <= p && n == LargePages(size) > 0 && FreeRun(counts, p, n)
    requires counts' == Claimed(counts, p, n) && |counts| <= 0x1_0000_0000
    requires 2048 < size < 0x1_0000_0000_0000_0000
    ensures var h' := NewBig(h, p, n, size);
            Ok(h', counts') && KeepsData(h, h') && Allocated(h, h', p * 4096, size)
            && (Full(h.use) ==> Full(h'.use)) && !NoRun(counts, n)
            && h' == Heap(h.mem[p * 4096 := n * 0x1_0000_0000 + 0xFFFF_FFFF], h.heads, WithPages(h.use, p, n), h.free,
                          h.live[p * 4096 := Live(8, n, size)])
  {
    hide ListOk, Placed, LiveOk, LargePages;
    forall q | p <= q < p + n ensures q !in h.use { assert q in h.use ==> PageOk(h, counts, q); }
    NewBigOk(h, counts, counts', p, n, size);
    NewBigKeeps(h, counts, p, n, size);
    LargeAdequateIff(size);
  }

  /** A list is empty exactly when its head is null, and its head is in a page in use. */
  lemma HeadIs(h: Heap, counts: seq<nat>, c: nat)
    requires Ok(h, counts) && c < 8
    ensures |h.heads| == 8 && |h.free| == 8
    ensures h.heads[c] == 0 <==> h.free[c] == []
    ensures h.heads[c] != 0 ==> h.heads[c] / 4096 in h.use
  {
    hide Placed, LiveOk, NoRepeat;
    assert ListOk(h, c);
    if h.free[c] != [] { FreeInUse(h, counts, c, 0); }
  }

  lemma FreeInUse(h: Heap, counts: seq<nat>, c: nat, i: nat)
    requires Ok(h, counts) && c < 8 && i < |h.free[c]|
    ensures h.free[c][i] != 0 && h.free[c][i] / 4096 in h.use
  {
    hide ListOk, LiveOk, BlockSize;
    var a := h.free[c][i];
    assert Placed(h, c, a);
    assert PageOk(h, counts, a / 4096);
  }

  /** The word in the first free block is the address of the second. */
  lemma NextIs(h: Heap, counts: seq<nat>, c: nat)
    requires Ok(h, counts) && c < 8 && h.free[c] != []
    ensures var next := Word(h.mem, h.heads[c]); next == At(h.free[c], 1) && (next != 0 ==> next / 4096 in h.use)
  {
    hide Placed, LiveOk, NoRepeat;
    assert ListOk(h, c);
    assert Next(h, c, 0);
    if |h.free[c]| > 1 { FreeInUse(h, counts, c, 1); }
  }

  lemma TakeIs(h: Heap, c: nat, size: nat)
    requires c < |h.heads| && c < |h.free| && |h.free[c]| > 0
    ensures var a := h.heads[c];
            Take(h, c, size) == Heap(h.mem[a := c], h.heads[c := Word(h.mem, a)], h.use, h.free[c := h.free[c][1..]],
                                     h.live[a := Live(c, 0, size)])
  {
  }

  lemma SmallAllocated(h: Heap, counts: seq<nat>, c: nat, size: nat)
    requires Ok(h, counts) && c < 8 && |h.free[c]| > 0 && 0 < size <= 2048 && c == ClassOf(size)
    ensures Allocated(h, Take(h, c, size), h.heads[c], size)
  {
    HeadFacts(h, counts, c);
    SmallFits(size);
  }

  lemma AllocatedLater(h0: Heap, h: Heap, h': Heap, a: nat, size: nat)
    requires Allocated(h, h', a, size) && h.live == h0.live
    ensures Allocated(h0, h', a, size)
  {
  }

  lemma HeaderSays(h: Heap, counts: seq<nat>, a: nat)
    requires Ok(h, counts) && a in h.live
    ensures var hdr := Word(h.mem, a);
            && h.live[a].cls <= 8
            && (h.live[a].cls < 8 ==> hdr == hdr % 0x1_0000_0000 == h.live[a].cls && a / 4096 in h.use)
            && (h.live[a].cls == 8 ==>
                  hdr % 0x1_0000_0000 == 0xFFFF_FFFF && hdr / 0x1_0000_0000 == h.live[a].npages && a % 4096 == 0)
  {
    hide ListOk, Placed, IsBlock;
    assert LiveOk(h, a);
    ExtentPositive(h, a);
    LiveInsidePages(h, counts, a, a);
  }

  /** The pages of a live large block are tracked and referenced once. */
  lemma BigTracked(h: Heap, counts: seq<nat>, a: nat)
    requires Ok(h, counts) && Held(h, 8, a)
    ensures h.live[a].npages > 0 && a / 4096 + h.live[a].npages <= |counts|
    ensures forall q :: a / 4096 <= q < a / 4096 + h.live[a].npages ==> counts[q] == 1
  {
    hide ListOk, Placed, IsBlock;
    assert LiveOk(h, a);
    var n := h.live[a].npages;
    forall q | a / 4096 <= q < a / 4096 + n ensures q < |counts| && counts[q] == 1 {
      assert BigPage(h, a, q);
      assert PageOk(h, counts, q);
    }
    assert BigPage(h, a, a / 4096 + n - 1);
    assert PageOk(h, counts, a / 4096 + n - 1);
  }

  lemma DropKeeps(h: Heap, a: nat)
    requires a in h.live
    ensures KeepsData(h, DropBig(h, a)) && (Full(h.use) ==> Full(DropBig(h, a).use))
  {
  }
}
