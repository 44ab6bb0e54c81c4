/** The steps of the slab allocator, and that each keeps the invariant. */
module HeapSteps {
  import opened HeapBlocks

  // ----------------------------------------------------------------- writing a word

  function Poke(h: Heap, a: nat, v: nat): Heap {
    h.(mem := h.mem[a := v])
  }

  /** A word that is no free block and no live header can be overwritten. */
  lemma PokeList(h: Heap, c: nat, a: nat, v: nat)
    requires c < |h.free| && c < |h.heads| && ListOk(h, c) && a !in h.free[c]
    ensures ListOk(Poke(h, a, v), c)
  {
    hide NoRepeat;
    var h' := Poke(h, a, v);
    forall i | 0 <= i < |h.free[c]| ensures Next(h', c, i) {
      assert Next(h, c, i);
      assert h.free[c][i] in h.free[c];
    }
  }

  /** The word that holds byte y. */
  function WordOf(y: nat): nat { y / 8 * 8 }

  lemma WordOfData(a: nat, y: nat, n: nat)
    requires a % 8 == 0 && n % 8 == 0 && a + 8 <= y < a + n
    ensures WordOf(y) % 8 == 0 && a + 8 <= WordOf(y) && WordOf(y) + 8 <= a + n
  {
  }

  /** A client may change any byte of its block behind the header: the word around it is neither
      header nor link. */
  lemma ScribbleOk(h: Heap, counts: seq<nat>, a: nat, y: nat, v: nat)
    requires Ok(h, counts) && a in h.live && a + 8 <= y < a + Extent(h.live[a])
    ensures a + 8 <= WordOf(y) && WordOf(y) + 8 <= a + Extent(h.live[a]) && WordOf(y) % 8 == 0
    ensures Ok(Poke(h, WordOf(y), v), counts)
  {
    hide WordOf, Extent, IsBlock, ListOk, Placed, LiveOk, PageOk;
    LiveAligned(h, counts, a);
    WordOfData(a, y, Extent(h.live[a]));
    ScribbleWord(h, counts, a, WordOf(y), v);
  }

  lemma ScribbleWord(h: Heap, counts: seq<nat>, a: nat, x: nat, v: nat)
    requires Ok(h, counts) && a in h.live && a < x < a + Extent(h.live[a]) && x % 8 == 0
    ensures Ok(Poke(h, x, v), counts)
  {
    hide IsBlock, BlockSize, ListOk;
    var h' := Poke(h, x, v);
    forall c | 0 <= c < 8 ensures ListOk(h', c) {
      assert x in h.free[c] ==> BlockSize(c) > 0;
      forall f | f in h.free[c] ensures f != x { FreeApart(h, counts, c, f, a); }
      PokeList(h, c, x, v);
    }
    forall c, b | 0 <= c < 8 ensures Placed(h', c, b) { assert Placed(h, c, b); }
    forall b | b in h'.live ensures LiveOk(h', b) {
      assert LiveOk(h, b);
      if b != a { LiveDisjoint(h, counts, a, b); }
      assert b + Extent(h.live[b]) > b by { ExtentPositive(h, b); }
      forall p | b / 4096 <= p < b / 4096 + h.live[b].npages && h.live[b].cls == 8 ensures BigPage(h', b, p) {
        assert BigPage(h, b, p);
      }
    }
    forall p | p in h'.use ensures PageOk(h', counts, p) { assert PageOk(h, counts, p); }
  }

  lemma ExtentPositive(h: Heap, a: nat)
    requires a in h.live && LiveOk(h, a)
    ensures Extent(h.live[a]) >= 24
  {
  }

  // ------------------------------------------------------------------ a fresh slab page

  function NewSlab(h: Heap, c: nat, p: nat): Heap {
    h.(use := h.use[p := Slab(c, 0)])
  }

  lemma NewSlabOk(h: Heap, counts: seq<nat>, counts': seq<nat>, c: nat, p: nat)
    requires Ok(h, counts) && c < 8 && p !in h.use && 1 <= p < |counts'| == |counts| && counts'[p] == 1
    requires forall q :: 0 <= q < |counts| && q != p ==> counts'[q] == counts[q]
    ensures Ok(NewSlab(h, c, p), counts')
  {
    hide ListOk, BlockSize, PerPage, Address;
    var h' := NewSlab(h, c, p);
    forall d | 0 <= d < 8 ensures ListOk(h', d) { SameLists(h, h', d); }
    forall d, a | 0 <= d < 8 ensures Placed(h', d, a) {
      assert Placed(h, d, a);
      assert IsBlock(h'.use, d, a) <==> IsBlock(h.use, d, a) by {
        forall i: nat ensures BlockIn(h'.use, d, a, i) <==> BlockIn(h.use, d, a, i) {}
      }
    }
    forall a | a in h'.live ensures LiveOk(h', a) {
      assert LiveOk(h, a);
      forall q | a / 4096 <= q < a / 4096 + h.live[a].npages && h.live[a].cls == 8 ensures BigPage(h', a, q) {
        assert BigPage(h, a, q);
      }
    }
    forall q | q in h'.use ensures PageOk(h', counts', q) { assert q != p ==> PageOk(h, counts, q); }
  }

  lemma SameLists(h: Heap, h': Heap, c: nat)
    requires c < |h.free| == |h'.free| && c < |h.heads| == |h'.heads| && ListOk(h, c)
    requires h'.mem == h.mem && h'.free[c] == h.free[c] && h'.heads[c] == h.heads[c]
    ensures ListOk(h', c)
  {
    forall i | 0 <= i < |h.free[c]| ensures Next(h', c, i) { assert Next(h, c, i); }
  }

  // -------------------------------------------------------------- pushing a free block

  /** The block at a joins the front of list c. */
  function PushFree(h: Heap, c: nat, a: nat): Heap
    requires c < |h.heads| && c < |h.free|
  {
    h.(mem := h.mem[a := h.heads[c]], heads := h.heads[c := a], free := h.free[c := [a] + h.free[c]])
  }

  lemma PushList(h: Heap, c: nat, a: nat, d: nat)
    requires |h.heads| == 8 && |h.free| == 8 && c < 8 && d < 8 && ListOk(h, d) && ListOk(h, c) && a !in h.free[d]
    ensures ListOk(PushFree(h, c, a), d)
  {
    var h' := PushFree(h, c, a);
    forall i | 0 <= i < |h'.free[d]| ensures Next(h', d, i) {
      if d != c { assert Next(h, d, i); assert h.free[d][i] in h.free[d]; }
      else if i > 0 { assert Next(h, c, i - 1); assert h.free[c][i - 1] in h.free[c]; assert h'.free[c][i] == h.free[c][i - 1]; }
    }
  }

  // ------------------------------------------------------------------------ carving

  /** One round of refill_slab's loop: the next block of page p goes to the front of the list. */
  function Carve(h: Heap, c: nat, p: nat): Heap
    requires c < |h.heads| && c < |h.free| && p in h.use && h.use[p].Slab?
  {
    PushFree(h, c, Address(p, c, h.use[p].carved)).(use := h.use[p := Slab(c, h.use[p].carved + 1)])
  }

  lemma CarvedBlocks(h: Heap, c: nat, p: nat, d: nat, x: nat)
    requires p in h.use && h.use[p].Slab? && h.use[p].cls == c && h.use[p].carved < PerPage(c)
    ensures var a := Address(p, c, h.use[p].carved);
            && !IsBlock(h.use, d, a)
            && (IsBlock(h.use[p := Slab(c, h.use[p].carved + 1)], d, x) <==> IsBlock(h.use, d, x) || (d == c && x == a))
  {
    hide BlockSize, PerPage, Address;
    var n := h.use[p].carved;
    var a := Address(p, c, n);
    var use' := h.use[p := Slab(c, n + 1)];
    AddressInPage(p, c, n);
    forall i: nat ensures !BlockIn(h.use, d, a, i) {
      assert BlockIn(h.use, d, a, i) ==> i < n;
      if i < n { AddressesApart(p, c, i, n); }
    }
    forall i: nat ensures BlockIn(use', d, x, i) <==> BlockIn(h.use, d, x, i) || (d == c && x == a && i == n) {
      if x / 4096 == p && i != n && i < n { AddressesApart(p, c, i, n); }
    }
    if d == c && x == a { assert BlockIn(use', d, x, n); }
    if IsBlock(h.use, d, x) { var i: nat :| BlockIn(h.use, d, x, i); assert BlockIn(use', d, x, i); }
  }

  lemma CarveOk(h: Heap, counts: seq<nat>, c: nat, p: nat)
    requires Ok(h, counts) && c < 8 && p in h.use && h.use[p].Slab? && h.use[p].cls == c && h.use[p].carved < PerPage(c)
    ensures Ok(Carve(h, c, p), counts)
  {
    hide IsBlock, ListOk, Address;
    var h' := Carve(h, c, p);
    var a := Address(p, c, h.use[p].carved);
    AddressInPage(p, c, h.use[p].carved);
    forall d | 0 <= d < 8 ensures ListOk(h', d) && a !in h.free[d] && !Held(h, d, a) {
      assert Placed(h, d, a);
      CarvedBlocks(h, c, p, d, a);
      PushList(h, c, a, d);
      SameLists(PushFree(h, c, a), h', d);
    }
    forall d, x | 0 <= d < 8 ensures Placed(h', d, x) {
      assert Placed(h, d, x);
      CarvedBlocks(h, c, p, d, x);
    }
    CarveLive(h, counts, c, p);
    forall q | q in h'.use ensures PageOk(h', counts, q) { assert PageOk(h, counts, q); }
  }

  lemma CarveLive(h: Heap, counts: seq<nat>, c: nat, p: nat)
    requires Ok(h, counts) && c < 8 && p in h.use && h.use[p].Slab? && h.use[p].cls == c && h.use[p].carved < PerPage(c)
    ensures forall b :: b in h.live ==> LiveOk(Carve(h, c, p), b)
  {
    hide IsBlock, ListOk, Address;
    var h', a := Carve(h, c, p), Address(p, c, h.use[p].carved);
    AddressInPage(p, c, h.use[p].carved);
    forall b | b in h.live ensures LiveOk(h', b) {
      assert LiveOk(h, b);
      if h.live[b].cls < 8 { LiveBlock(h, counts, b); CarvedBlocks(h, c, p, h.live[b].cls, b); }
      else { assert BigPage(h, b, b / 4096); }
      forall q | b / 4096 <= q < b / 4096 + h.live[b].npages && h.live[b].cls == 8 ensures BigPage(h', b, q) {
        assert BigPage(h, b, q);
      }
    }
  }

  // --------------------------------------------------------------- taking a free block

  function Take(h: Heap, c: nat, size: nat): Heap
    requires c < |h.heads| && c < |h.free| && |h.free[c]| > 0
  {
    var a := h.heads[c];
    h.(mem := h.mem[a := c], heads := h.heads[c := Word(h.mem, a)], free := h.free[c := h.free[c][1..]],
       live := h.live[a := Live(c, 0, size)])
  }

  lemma TakeList(h: Heap, c: nat, size: nat, d: nat)
    requires |h.heads| == 8 && |h.free| == 8 && c < 8 && d < 8 && ListOk(h, d) && ListOk(h, c) && |h.free[c]| > 0
    requires d != c ==> h.heads[c] !in h.free[d]
    ensures ListOk(Take(h, c, size), d)
  {
    var h' := Take(h, c, size);
    assert Next(h, c, 0);
    forall i | 0 <= i < |h'.free[d]| ensures Next(h', d, i) {
      if d != c { assert Next(h, d, i); assert h.free[d][i] in h.free[d]; }
      else { assert Next(h, c, i + 1); assert h'.free[c][i] == h.free[c][i + 1]; assert h.free[c][i + 1] != h.free[c][0]; }
    }
  }

  lemma HeadFacts(h: Heap, counts: seq<nat>, c: nat)
    requires Ok(h, counts) && c < 8 && |h.free[c]| > 0
    ensures h.heads[c] == h.free[c][0] && h.heads[c] !in h.live && IsBlock(h.use, c, h.heads[c])
    ensures h.heads[c] !in h.free[c][1..]
    ensures forall d :: 0 <= d < 8 && d != c ==> h.heads[c] !in h.free[d]
  {
    hide IsBlock;
    var a := h.heads[c];
    assert ListOk(h, c);
    assert Placed(h, c, a);
    forall d | 0 <= d < 8 && d != c ensures a !in h.free[d] {
      assert Placed(h, d, a);
      if IsBlock(h.use, d, a) { SameClass(h.use, c, d, a); }
    }
    if a in h.live { FreeApart(h, counts, c, a, a); assert LiveOk(h, a); ExtentPositive(h, a); }
  }

  lemma TakeOk(h: Heap, counts: seq<nat>, c: nat, size: nat)
    requires Ok(h, counts) && c < 8 && |h.free[c]| > 0
    ensures Ok(Take(h, c, size), counts)
  {
    hide IsBlock, ListOk, NoRepeat;
    HeadFacts(h, counts, c);
    BlockAligned(h.use, c, h.heads[c]);
    var h', a := Take(h, c, size), h.heads[c];
    forall d | 0 <= d < 8 ensures ListOk(h', d) { TakeList(h, c, size, d); }
    forall d, x | 0 <= d < 8 ensures Placed(h', d, x) {
      assert Placed(h, d, x);
      assert d == c ==> (x in h.free[c] <==> x == a || x in h.free[c][1..]);
    }
    forall b | b in h'.live ensures LiveOk(h', b) {
      assert b != a ==> LiveOk(h, b);
      forall q | b != a && b / 4096 <= q < b / 4096 + h.live[b].npages && h.live[b].cls == 8 ensures BigPage(h', b, q) {
        assert BigPage(h, b, q);
      }
    }
    forall q | q in h'.use ensures PageOk(h', counts, q) { assert PageOk(h, counts, q); }
  }

  // ----------------------------------------------------------------- freeing a small block

  function Give(h: Heap, a: nat): Heap
    requires a in h.live && h.live[a].cls < |h.heads| && h.live[a].cls < |h.free|
  {
    PushFree(h, h.live[a].cls, a).(live := h.live - {a})
  }

  lemma GiveOk(h: Heap, counts: seq<nat>, a: nat)
    requires Ok(h, counts) && a in h.live && h.live[a].cls < 8
    ensures Ok(Give(h, a), counts)
  {
    hide IsBlock, ListOk, NoRepeat;
    var c := h.live[a].cls;
    var h' := Give(h, a);
    LiveAligned(h, counts, a);
    forall d | 0 <= d < 8 ensures ListOk(h', d) && a !in h.free[d] {
      LiveNotFree(h, counts, a, d);
      PushList(h, c, a, d);
      SameLists(PushFree(h, c, a), h', d);
    }
    forall d, x | 0 <= d < 8 ensures Placed(h', d, x) {
      assert Placed(h, d, x);
    }
    forall b | b in h'.live ensures LiveOk(h', b) {
      assert LiveOk(h, b);
      forall q | b / 4096 <= q < b / 4096 + h.live[b].npages && h.live[b].cls == 8 ensures BigPage(h', b, q) {
        assert BigPage(h, b, q);
      }
    }
    forall q | q in h'.use ensures PageOk(h', counts, q) { assert PageOk(h, counts, q); }
  }

  lemma LiveNotFree(h: Heap, counts: seq<nat>, a: nat, d: nat)
    requires Ok(h, counts) && a in h.live && d < 8
    ensures a !in h.free[d]
  {
    hide IsBlock, ListOk;
    if a in h.free[d] {
      assert LiveOk(h, a);
      ExtentPositive(h, a);
      FreeApart(h, counts, d, a, a);
    }
  }

  // -------------------------------------------------------------------- large blocks

  function Pages(p: nat, n: nat): (s: set<nat>)
    ensures forall q :: q in s <==> p <= q < p + n
  {
    if n == 0 then {} else Pages(p, n - 1) + {p + n - 1}
  }

  function WithPages(use: map<nat, Use>, p: nat, n: nat): map<nat, Use> {
    map q | q in use.Keys + Pages(p, n) :: if p <= q < p + n then Big(p * 4096) else use[q]
  }

  function NewBig(h: Heap, p: nat, n: nat, size: nat): Heap {
    var l := Live(8, n, size);
    h.(use := WithPages(h.use, p, n), mem := h.mem[p * 4096 := HeaderOf(l)], live := h.live[p * 4096 := l])
  }

  /** Pages that were not in use hold no block. */
  lemma BlocksBesides(use: map<nat, Use>, use': map<nat, Use>, c: nat, a: nat)
    requires forall p :: p in use && use[p].Slab? ==> p in use' && use'[p] == use[p]
    requires forall p :: p in use' && use'[p].Slab? ==> p in use && use'[p] == use[p]
    ensures IsBlock(use', c, a) <==> IsBlock(use, c, a)
  {
    forall i: nat ensures BlockIn(use', c, a, i) <==> BlockIn(use, c, a, i) {}
  }

  /** No live block starts in a page that is not in use. */
  lemma NothingThere(h: Heap, counts: seq<nat>, a: nat)
    requires Ok(h, counts) && a / 4096 !in h.use
    ensures a !in h.live && forall c :: 0 <= c < 8 ==> a !in h.free[c]
  {
    hide ListOk;
    if a in h.live {
      assert LiveOk(h, a);
      ExtentPositive(h, a);
      LiveInsidePages(h, counts, a, a);
    }
    forall c | 0 <= c < 8 ensures a !in h.free[c] { assert Placed(h, c, a); }
  }

  lemma NewBigOk(h: Heap, counts: seq<nat>, counts': seq<nat>, p: nat, n: nat, size: nat)
    requires Ok(h, counts) && 0 < n < 0x1_0000_0000 && 1 <= p && p + n <= |counts| == |counts'|
    requires forall q :: p <= q < p + n ==> q !in h.use && counts'[q] == 1
    requires forall q :: 0 <= q < |counts| && !(p <= q < p + n) ==> counts'[q] == counts[q]
    ensures Ok(NewBig(h, p, n, size), counts') && p * 4096 !in h.live
  {
    hide IsBlock, ListOk, WithPages;
    var h', a := NewBig(h, p, n, size), p * 4096;
    InsidePage(p, 0);
    NothingThere(h, counts, a);
    forall d | 0 <= d < 8 ensures ListOk(h', d) {
      assert a !in h.free[d] && ListOk(h, d);
      NewBigList(h, p, n, size, d);
    }
    WithPagesIs(h.use, p, n);
    forall d, x | 0 <= d < 8 ensures Placed(h', d, x) {
      assert Placed(h, d, x);
      BlocksBesides(h.use, h'.use, d, x);
    }
    forall b | b in h'.live ensures LiveOk(h', b) {
      NewBigLive(h, counts, p, n, size, b);
    }
    forall q | q in h'.use ensures PageOk(h', counts', q) {
      if q in h.use { assert PageOk(h, counts, q); }
    }
  }

  lemma WithPagesIs(use: map<nat, Use>, p: nat, n: nat)
    ensures var use' := WithPages(use, p, n);
            && (forall q {:trigger q in use'} :: q in use' <==> q in use || p <= q < p + n)
            && (forall q {:trigger use'[q]} :: q in use' ==> use'[q] == if p <= q < p + n then Big(p * 4096) else use[q])
  {
  }

  lemma NewBigList(h: Heap, p: nat, n: nat, size: nat, d: nat)
    requires d < |h.free| && d < |h.heads| && ListOk(h, d) && p * 4096 !in h.free[d]
    ensures ListOk(NewBig(h, p, n, size), d)
  {
    hide ListOk, WithPages;
    var l := Live(8, n, size);
    PokeList(h, d, p * 4096, HeaderOf(l));
    SameLists(Poke(h, p * 4096, HeaderOf(l)), NewBig(h, p, n, size), d);
  }

  lemma NewBigLive(h: Heap, counts: seq<nat>, p: nat, n: nat, size: nat, b: nat)
    requires Ok(h, counts) && 0 < n < 0x1_0000_0000 && p * 4096 !in h.live
    requires forall q :: p <= q < p + n ==> q !in h.use
    requires b in NewBig(h, p, n, size).live
    ensures LiveOk(NewBig(h, p, n, size), b)
  {
    hide IsBlock, ListOk, Placed;
    var h' := NewBig(h, p, n, size);
    assert b != p * 4096 ==> LiveOk(h, b);
    forall q | h'.live[b].cls == 8 && b / 4096 <= q < b / 4096 + h'.live[b].npages ensures BigPage(h', b, q) {
      assert b != p * 4096 ==> BigPage(h, b, q);
    }
  }

  /** kfree of a large block: its pages go back. */
  function DropBig(h: Heap, a: nat): Heap
    requires a in h.live
  {
    h.(use := h.use - Pages(a / 4096, h.live[a].npages), live := h.live - {a})
  }

  lemma DropBigOk(h: Heap, counts: seq<nat>, counts': seq<nat>, a: nat)
    requires Ok(h, counts) && Held(h, 8, a) && |counts'| == |counts|
    requires forall q :: 0 <= q < |counts| && !(a / 4096 <= q < a / 4096 + h.live[a].npages) ==> counts'[q] == counts[q]
    ensures Ok(DropBig(h, a), counts')
  {
    hide IsBlock, ListOk;
    var h' := DropBig(h, a);
    assert LiveOk(h, a);
    forall q | q in Pages(a / 4096, h.live[a].npages) ensures q in h.use && h.use[q] == Big(a) { assert BigPage(h, a, q); }
    forall d | 0 <= d < 8 ensures ListOk(h', d) { SameLists(h, h', d); }
    forall d, x | 0 <= d < 8 ensures Placed(h', d, x) {
      assert Placed(h, d, x);
      BlocksBesides(h.use, h'.use, d, x);
    }
    forall b | b in h'.live ensures LiveOk(h', b) {
      assert LiveOk(h, b);
      forall q | h.live[b].cls == 8 && b / 4096 <= q < b / 4096 + h.live[b].npages ensures BigPage(h', b, q) {
        assert BigPage(h, b, q);
      }
    }
    forall q | q in h'.use ensures PageOk(h', counts', q) { assert PageOk(h, counts, q); }
  }
}
