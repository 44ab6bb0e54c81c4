/** The bookkeeping behind mm/kmalloc.c.  Memory is a map from the addresses of aligned words to 64-bit
    words; a slab page is carved into equal blocks, and a free block keeps the address of the next free
    block of its class in its first word, the word that holds the header while the block is live. */
module HeapBlocks {
  /** What a page obtained from the physical allocator is used for. */
  datatype Use = Slab(cls: nat, carved: nat) | Big(head: nat)

  /** A block a client holds: its class (8 for whole pages), its pages if large, the size asked for. */
  datatype Live = Live(cls: nat, npages: nat, size: nat)

  datatype Heap = Heap(mem: map<nat, nat>, heads: seq<nat>, use: map<nat, Use>,
                       free: seq<seq<nat>>, live: map<nat, Live>)

  function Word(mem: map<nat, nat>, a: nat): nat {
    if a in mem then mem[a] else 0
  }

  /** Bytes of a block of class c, header included. */
  function BlockSize(c: nat): (b: nat)
    ensures 24 <= b <= 2056 && b % 8 == 0
  {
    if c == 0 then 24 else if c == 1 then 40 else if c == 2 then 72 else if c == 3 then 136
    else if c == 4 then 264 else if c == 5 then 520 else if c == 6 then 1032 else 2056
  }

  function PerPage(c: nat): (n: nat)
    ensures n >= 1
  {
    if c == 0 then 170 else if c == 1 then 102 else if c == 2 then 56 else if c == 3 then 30
    else if c == 4 then 15 else if c == 5 then 7 else if c == 6 then 3 else 1
  }

  /** PAGE_SIZE / block size, as refill_slab computes it. */
  lemma PerPageIs(c: nat)
    ensures PerPage(c) == 4096 / BlockSize(c) && PerPage(c) * BlockSize(c) <= 4096
  {
  }

  function Address(p: nat, c: nat, i: nat): nat {
    p * 4096 + i * BlockSize(c)
  }

  lemma Scale(i: nat, j: nat, b: nat)
    requires i <= j
    ensures i * b <= j * b
  {
  }

  lemma Gap(i: nat, j: nat, b: nat)
    requires i < j
    ensures i * b + b <= j * b
  {
    Scale(i + 1, j, b);
    assert (i + 1) * b == i * b + b;
  }

  lemma MultipleOfEight(i: nat, b: nat)
    requires b % 8 == 0
    ensures i * b % 8 == 0
  {
    var k := b / 8;
    assert i * b == 8 * (i * k) by {
      assert b == 8 * k;
      assert i * (8 * k) == 8 * (i * k);
    }
    EightTimes(i * k);
  }

  lemma EightTimes(k: nat)
    ensures 8 * k % 8 == 0
  {
  }

  lemma InsidePage(p: nat, r: nat)
    requires r < 4096
    ensures (p * 4096 + r) / 4096 == p && (p * 4096 + r) % 8 == r % 8
  {
  }

  lemma AddressInPage(p: nat, c: nat, i: nat)
    requires i < PerPage(c)
    ensures p * 4096 <= Address(p, c, i) && Address(p, c, i) + BlockSize(c) <= p * 4096 + 4096
    ensures Address(p, c, i) / 4096 == p && Address(p, c, i) % 8 == 0
  {
    hide PerPage, BlockSize;
    PerPageIs(c);
    Gap(i, PerPage(c), BlockSize(c));
    MultipleOfEight(i, BlockSize(c));
    InsidePage(p, i * BlockSize(c));
  }

  lemma AddressesApart(p: nat, c: nat, i: nat, j: nat)
    requires i < j
    ensures Address(p, c, i) + BlockSize(c) <= Address(p, c, j)
  {
    hide BlockSize;
    Gap(i, j, BlockSize(c));
  }

  predicate BlockIn(use: map<nat, Use>, c: nat, a: nat, i: nat) {
    var p := a / 4096;
    p in use && use[p].Slab? && use[p].cls == c && i < use[p].carved && i < PerPage(c) && a == Address(p, c, i)
  }

  /** a is a block carved for class c. */
  ghost predicate IsBlock(use: map<nat, Use>, c: nat, a: nat) {
    exists i: nat :: BlockIn(use, c, a, i)
  }

  /** Blocks of the slabs do not overlap, whatever their classes. */
  lemma BlocksApart(use: map<nat, Use>, c: nat, a: nat, d: nat, b: nat)
    requires IsBlock(use, c, a) && IsBlock(use, d, b) && a != b
    ensures a + BlockSize(c) <= b || b + BlockSize(d) <= a
  {
    hide BlockSize, PerPage, Address;
    var i: nat :| BlockIn(use, c, a, i);
    var j: nat :| BlockIn(use, d, b, j);
    AddressInPage(a / 4096, c, i);
    AddressInPage(b / 4096, d, j);
    if a / 4096 == b / 4096 {
      if i < j { AddressesApart(a / 4096, c, i, j); } else if j < i { AddressesApart(a / 4096, c, j, i); }
    }
  }

  function Extent(l: Live): nat {
    if l.cls < 8 then BlockSize(l.cls) else l.npages * 4096
  }

  function HeaderOf(l: Live): nat {
    if l.cls < 8 then l.cls else l.npages * 0x1_0000_0000 + 0xFFFF_FFFF
  }

  // ---------------------------------------------------------------- invariant

  function At(s: seq<nat>, i: int): nat {
    if 0 <= i < |s| then s[i] else 0
  }

  predicate Next(h: Heap, c: nat, i: nat)
    requires c < |h.free| && i < |h.free[c]|
  {
    Word(h.mem, h.free[c][i]) == At(h.free[c], i + 1)
  }

  predicate NoRepeat(s: seq<nat>) {
    forall i, j :: 0 <= i < j < |s| ==> s[i] != s[j]
  }

  /** The list of class c, threaded through memory, is free[c]. */
  predicate ListOk(h: Heap, c: nat)
    requires c < |h.free| && c < |h.heads|
  {
    && h.heads[c] == At(h.free[c], 0) && NoRepeat(h.free[c])
    && forall i {:trigger Next(h, c, i)} :: 0 <= i < |h.free[c]| ==> Next(h, c, i)
  }

  predicate Held(h: Heap, c: nat, a: nat) {
    a in h.live && h.live[a].cls == c
  }

  /** A carved block is free or live, never both, and nothing else is. */
  ghost predicate Placed(h: Heap, c: nat, a: nat)
    requires c < |h.free|
  {
    (IsBlock(h.use, c, a) <==> a in h.free[c] || Held(h, c, a)) && !(a in h.free[c] && Held(h, c, a))
  }

  predicate BigPage(h: Heap, a: nat, p: nat) {
    p in h.use && h.use[p] == Big(a)
  }

  predicate LiveOk(h: Heap, a: nat)
    requires a in h.live
  {
    var l := h.live[a];
    && Word(h.mem, a) == HeaderOf(l) && l.cls <= 8
    && (l.cls == 8 ==> a % 4096 == 0 && 0 < l.npages < 0x1_0000_0000
                       && forall p {:trigger BigPage(h, a, p)} :: a / 4096 <= p < a / 4096 + l.npages ==> BigPage(h, a, p))
  }

  /** A page is tracked, referenced once, and if it belongs to a large block that block is live. */
  predicate PageOk(h: Heap, counts: seq<nat>, p: nat)
    requires p in h.use
  {
    && 1 <= p < |counts| && counts[p] == 1
    && match h.use[p]
       case Slab(c, n) => c < 8 && n <= PerPage(c)
       case Big(a) => Held(h, 8, a) && a / 4096 <= p < a / 4096 + h.live[a].npages
  }

  /** Memory is read and written in aligned words, which do not overlap. */
  predicate Aligned(mem: map<nat, nat>) {
    forall x :: x in mem ==> x % 8 == 0
  }

  ghost predicate Ok(h: Heap, counts: seq<nat>) {
    && |h.heads| == 8 && |h.free| == 8 && Aligned(h.mem)
    && (forall c {:trigger h.free[c]} :: 0 <= c < 8 ==> ListOk(h, c))
    && (forall c, a {:trigger Placed(h, c, a)} :: 0 <= c < 8 ==> Placed(h, c, a))
    && (forall a {:trigger a in h.live} :: a in h.live ==> LiveOk(h, a))
    && (forall p {:trigger p in h.use} :: p in h.use ==> PageOk(h, counts, p))
  }

  // ------------------------------------------------------------------ separation

  /** The pages of a large block hold nothing else. */
  lemma BigApart(h: Heap, counts: seq<nat>, a: nat, c: nat, b: nat)
    requires Ok(h, counts) && Held(h, 8, a) && IsBlock(h.use, c, b)
    ensures a + Extent(h.live[a]) <= b || b + BlockSize(c) <= a
  {
    hide BlockSize, PerPage, Address, ListOk, Placed;
    var i: nat :| BlockIn(h.use, c, b, i);
    AddressInPage(b / 4096, c, i);
    assert LiveOk(h, a);
    assert a / 4096 <= b / 4096 < a / 4096 + h.live[a].npages ==> BigPage(h, a, b / 4096);
  }

  lemma BigsApart(h: Heap, counts: seq<nat>, a: nat, b: nat)
    requires Ok(h, counts) && Held(h, 8, a) && Held(h, 8, b) && a < b
    ensures a + Extent(h.live[a]) <= b
  {
    hide ListOk, Placed;
    assert LiveOk(h, a) && LiveOk(h, b);
    assert BigPage(h, b, b / 4096);
    assert a / 4096 <= b / 4096 < a / 4096 + h.live[a].npages ==> BigPage(h, a, b / 4096);
  }

  lemma LiveBlock(h: Heap, counts: seq<nat>, a: nat)
    requires Ok(h, counts) && a in h.live && h.live[a].cls < 8
    ensures IsBlock(h.use, h.live[a].cls, a)
  {
    hide IsBlock, ListOk;
    assert Placed(h, h.live[a].cls, a);
  }

  lemma BlockAligned(use: map<nat, Use>, c: nat, a: nat)
    requires IsBlock(use, c, a)
    ensures a % 8 == 0
  {
    hide BlockSize, PerPage, Address;
    var i: nat :| BlockIn(use, c, a, i);
    AddressInPage(a / 4096, c, i);
  }

  /** Live blocks start and end at word boundaries. */
  lemma LiveAligned(h: Heap, counts: seq<nat>, a: nat)
    requires Ok(h, counts) && a in h.live
    ensures a % 8 == 0 && Extent(h.live[a]) % 8 == 0
  {
    hide IsBlock, ListOk, Placed, BlockSize;
    assert LiveOk(h, a);
    if h.live[a].cls < 8 {
      LiveBlock(h, counts, a);
      BlockAligned(h.use, h.live[a].cls, a);
    } else {
      MultipleOfEight(h.live[a].npages, 4096);
    }
  }

  /** No two live blocks overlap. */
  lemma LiveDisjoint(h: Heap, counts: seq<nat>, a: nat, b: nat)
    requires Ok(h, counts) && a in h.live && b in h.live && a != b
    ensures a + Extent(h.live[a]) <= b || b + Extent(h.live[b]) <= a
  {
    hide IsBlock, ListOk, Placed, BlockSize;
    assert LiveOk(h, a) && LiveOk(h, b);
    if h.live[a].cls < 8 { LiveBlock(h, counts, a); }
    if h.live[b].cls < 8 { LiveBlock(h, counts, b); }
    if h.live[a].cls < 8 && h.live[b].cls < 8 { BlocksApart(h.use, h.live[a].cls, a, h.live[b].cls, b); }
    else if h.live[a].cls < 8 { BigApart(h, counts, b, h.live[a].cls, a); }
    else if h.live[b].cls < 8 { BigApart(h, counts, a, h.live[b].cls, b); }
    else if a < b { BigsApart(h, counts, a, b); }
    else { BigsApart(h, counts, b, a); }
  }

  /** No free block overlaps a live one. */
  lemma FreeApart(h: Heap, counts: seq<nat>, c: nat, f: nat, a: nat)
    requires Ok(h, counts) && c < 8 && f in h.free[c] && a in h.live
    ensures a + Extent(h.live[a]) <= f || f + BlockSize(c) <= a
  {
    hide IsBlock, ListOk, BlockSize;
    assert Placed(h, c, f);
    assert LiveOk(h, a);
    if h.live[a].cls < 8 {
      LiveBlock(h, counts, a);
      assert Placed(h, h.live[a].cls, a);
      if f == a { SameClass(h.use, c, h.live[a].cls, a); }
      BlocksApart(h.use, c, f, h.live[a].cls, a);
    } else {
      BigApart(h, counts, a, c, f);
    }
  }

  lemma SameClass(use: map<nat, Use>, c: nat, d: nat, a: nat)
    requires IsBlock(use, c, a) && IsBlock(use, d, a)
    ensures c == d
  {
  }

  /** Every byte of a live block is in a page that the physical allocator gave out. */
  lemma LiveInsidePages(h: Heap, counts: seq<nat>, a: nat, x: nat)
    requires Ok(h, counts) && a in h.live && a <= x < a + Extent(h.live[a])
    ensures x / 4096 in h.use && 1 <= x / 4096 < |counts| && counts[x / 4096] == 1
  {
    hide ListOk, BlockSize, PerPage, Address;
    assert LiveOk(h, a);
    if h.live[a].cls < 8 {
      LiveBlock(h, counts, a);
      var i: nat :| BlockIn(h.use, h.live[a].cls, a, i);
      AddressInPage(a / 4096, h.live[a].cls, i);
      assert x / 4096 == a / 4096;
    } else {
      assert BigPage(h, a, x / 4096);
    }
    assert PageOk(h, counts, x / 4096);
  }

  /** The free and the live blocks of a class are exactly the blocks carved for it, each once. */
  lemma CarvedSplit(h: Heap, counts: seq<nat>, c: nat, a: nat)
    requires Ok(h, counts) && c < 8
    ensures IsBlock(h.use, c, a) <==> a in h.free[c] || Held(h, c, a)
    ensures !(a in h.free[c] && Held(h, c, a)) && multiset(h.free[c])[a] <= 1
  {
    hide IsBlock;
    assert Placed(h, c, a);
    assert ListOk(h, c) by { assert h.free[c] == h.free[c]; }
    CountOnce(h.free[c], a);
  }

  lemma {:induction false} CountOnce(s: seq<nat>, a: nat)
    requires NoRepeat(s)
    ensures multiset(s)[a] <= 1
  {
    if s != [] {
      CountOnce(s[1..], a);
      assert s == [s[0]] + s[1..];
      if a == s[0] { assert a !in s[1..]; assert multiset(s[1..])[a] == 0; }
    }
  }
}
