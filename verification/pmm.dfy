/** The physical page allocator of mm/pmm.c: a packed bitmap, a reference count per page and a
    counter of free pages. */
module PhysicalMemory {
  const PAGE_SIZE := 4096

  // ---------------------------------------------------------------- packed bits

  function Mask(k: nat): bv8
    requires k < 8
  {
    if k == 0 then 1 else if k == 1 then 2 else if k == 2 then 4 else if k == 3 then 8
    else if k == 4 then 16 else if k == 5 then 32 else if k == 6 then 64 else 128
  }

  predicate BitOf(b: bv8, k: nat)
    requires k < 8
  {
    b & Mask(k) != 0
  }

  lemma SetBit(b: bv8, k: nat, j: nat)
    requires k < 8 && j < 8
    ensures BitOf(b | Mask(k), j) == (j == k || BitOf(b, j))
  {
  }

  lemma ClearBit(b: bv8, k: nat, j: nat)
    requires k < 8 && j < 8
    ensures BitOf(b & !Mask(k), j) == (j != k && BitOf(b, j))
  {
  }

  /** Bit of page p in the packed bitmap. */
  predicate Used(bits: seq<bv8>, p: nat)
    requires p < 8 * |bits|
  {
    BitOf(bits[p / 8], p % 8)
  }

  // ---------------------------------------------------------------- counts

  /** Number of pages without references among the first n. */
  function FreeAmong(counts: seq<nat>, n: nat): nat
    requires n <= |counts|
  {
    if n == 0 then 0 else FreeAmong(counts, n - 1) + (if counts[n - 1] == 0 then 1 else 0)
  }

  predicate FreeRun(counts: seq<nat>, start: int, n: nat) {
    0 <= start && start + n <= |counts| && forall p :: start <= p < start + n ==> counts[p] == 0
  }

  /** No page but possibly page 0, which is never handed out, is free. */
  predicate NoFreePage(counts: seq<nat>) {
    forall p :: 1 <= p < |counts| ==> counts[p] > 0
  }

  lemma {:induction false} FreeUpdate(counts: seq<nat>, p: nat, c: nat, n: nat)
    requires p < |counts| && n <= |counts|
    ensures FreeAmong(counts[p := c], n) ==
            FreeAmong(counts, n) + (if p < n && c == 0 && counts[p] != 0 then 1 else 0)
            - (if p < n && c != 0 && counts[p] == 0 then 1 else 0)
  {
    if n > 0 { FreeUpdate(counts, p, c, n - 1); }
  }

  /** counts with pages [start, start + n) given one reference each. */
  function Claimed(counts: seq<nat>, start: nat, n: nat): (r: seq<nat>)
    requires start + n <= |counts|
    ensures |r| == |counts|
    ensures forall p :: 0 <= p < |counts| ==> r[p] == if start <= p < start + n then 1 else counts[p]
  {
    seq(|counts|, p requires 0 <= p < |counts| => if start <= p < start + n then 1 else counts[p])
  }

  // ---------------------------------------------------------------- the firmware memory map

  datatype Region = Region(base: nat, length: nat, usable: bool)

  function FirstPage(e: Region): nat { e.base / 4096 }
  function PageCount(e: Region): nat { e.length / 4096 }

  predicate InRegion(e: Region, p: nat) {
    e.usable && FirstPage(e) <= p < FirstPage(e) + PageCount(e)
  }

  predicate UsablePage(entries: seq<Region>, p: nat) {
    exists i :: 0 <= i < |entries| && InRegion(entries[i], p)
  }

  /** No page is in two usable entries. */
  ghost predicate PagesDisjoint(entries: seq<Region>) {
    forall i, j, p :: 0 <= i < j < |entries| && InRegion(entries[i], p) ==> !InRegion(entries[j], p)
  }

  function Highest(entries: seq<Region>): (h: nat)
    ensures forall i :: 0 <= i < |entries| ==> entries[i].base + entries[i].length <= h
  {
    if entries == [] then 0
    else
      var n := |entries| - 1;
      var h := Highest(entries[..n]);
      var end := entries[n].base + entries[n].length;
      if end > h then end else h
  }

  function PageUp(bytes: nat): nat { (bytes + 4095) / 4096 * 4096 }

  function BitmapSpan(pages: nat): nat { PageUp((pages + 7) / 8) }
  function RefsSpan(pages: nat): nat { PageUp(pages * 4) }

  /** The first usable entry with room for the bitmap and the counts. */
  predicate HoldsMetadata(entries: seq<Region>, i: int, pages: nat) {
    && 0 <= i < |entries| && entries[i].usable && entries[i].length >= BitmapSpan(pages) + RefsSpan(pages)
    && forall j :: 0 <= j < i ==> !(entries[j].usable && entries[j].length >= BitmapSpan(pages) + RefsSpan(pages))
  }

  predicate Metadata(e: Region, pages: nat, p: nat) {
    FirstPage(e) <= p < FirstPage(e) + (BitmapSpan(pages) + RefsSpan(pages)) / 4096
  }

  class Pmm {
    const bitmap: array<bv8>
    const refs: array<nat>
    const pages: nat          // bitmap_pages
    var freePages: nat
    ghost var counts: seq<nat>

    ghost predicate Valid()
      reads this, bitmap, refs
    {
      && bitmap as object != refs as object
      && 8 * bitmap.Length >= pages && refs.Length == pages
      && counts == refs[..]
      && (forall p :: 0 <= p < pages ==> (Used(bitmap[..], p) <==> counts[p] > 0))
      && freePages == FreeAmong(counts, pages)
    }

    method SetUsed(p: nat)
      requires p < 8 * bitmap.Length
      modifies bitmap
      ensures forall q :: 0 <= q < 8 * bitmap.Length ==> Used(bitmap[..], q) == (q == p || Used(old(bitmap[..]), q))
    {
      bitmap[p / 8] := bitmap[p / 8] | Mask(p % 8);
      forall q | 0 <= q < 8 * bitmap.Length
        ensures Used(bitmap[..], q) == (q == p || Used(old(bitmap[..]), q))
      {
        if q / 8 == p / 8 { SetBit(old(bitmap[p / 8]), p % 8, q % 8); }
      }
    }

    method SetFree(p: nat)
      requires p < 8 * bitmap.Length
      modifies bitmap
      ensures forall q :: 0 <= q < 8 * bitmap.Length ==> Used(bitmap[..], q) == (q != p && Used(old(bitmap[..]), q))
    {
      bitmap[p / 8] := bitmap[p / 8] & !Mask(p % 8);
      forall q | 0 <= q < 8 * bitmap.Length
        ensures Used(bitmap[..], q) == (q != p && Used(old(bitmap[..]), q))
      {
        if q / 8 == p / 8 { ClearBit(old(bitmap[p / 8]), p % 8, q % 8); }
      }
    }

    method IsUsed(p: nat) returns (b: bool)
      requires p < 8 * bitmap.Length
      ensures b == Used(bitmap[..], p)
    {
      b := bitmap[p / 8] & Mask(p % 8) != 0;
    }

    /** pmm_init up to "mark everything used": every byte of the counts is 1. */
    constructor (n: nat)
      ensures Valid() && pages == n && forall p :: 0 <= p < pages ==> counts[p] > 0
    {
      pages := n;
      bitmap := new bv8[(n + 7) / 8](_ => 0xFF);
      refs := new nat[n](_ => 0x01010101);
      freePages := 0;
      new;
      counts := refs[..];
      NoneFree(counts, pages);
    }

    /** The rest of pmm_init, for a memory map with room for the metadata: a page is free exactly
        when it is usable, does not hold metadata and is not page 0. */
    method Init(entries: seq<Region>, m: nat)
      requires Valid() && pages == Highest(entries) / 4096 > 0 && forall p :: 0 <= p < pages ==> counts[p] > 0
      requires PagesDisjoint(entries) && HoldsMetadata(entries, m, pages)
      modifies this, bitmap, refs
      ensures Valid()
      ensures forall p :: 0 <= p < pages ==>
        (counts[p] == 0 <==> UsablePage(entries, p) && p != 0 && !Metadata(entries[m], pages, p))
    {
      hide Used, FreeAmong, UsablePage, PagesDisjoint, PageUp;
      FreeUsable(entries);
      SpansFit(entries[m], pages);
      var start := entries[m].base / 4096;
      MarkUsed(start, BitmapSpan(pages) / 4096);
      MarkUsed(start + BitmapSpan(pages) / 4096, RefsSpan(pages) / 4096);
      MarkUsed(0, 1);
    }

    /** The loop of pmm_init over the usable entries. */
    method FreeUsable(entries: seq<Region>)
      requires Valid() && PagesDisjoint(entries) && pages == Highest(entries) / 4096
      requires forall p :: 0 <= p < pages ==> counts[p] > 0
      modifies this, bitmap, refs
      ensures Valid() && forall p :: 0 <= p < pages ==> (counts[p] == 0 <==> UsablePage(entries, p))
    {
      for i := 0 to |entries|
        invariant Valid()
        invariant forall p :: 0 <= p < pages ==> (counts[p] == 0 <==> UsablePage(entries[..i], p))
      {
        if entries[i].usable {
          forall p | 0 <= p < pages && InRegion(entries[i], p) ensures counts[p] > 0 {
            NotYetFree(entries, i, p);
          }
          FreeRange(FirstPage(entries[i]), PageCount(entries[i]));
        }
        forall p | 0 <= p < pages
          ensures UsablePage(entries[..i + 1], p) <==> UsablePage(entries[..i], p) || InRegion(entries[i], p)
        {
          Extended(entries, i, p);
        }
      }
      assert entries[..|entries|] == entries;
    }

    method FreeRange(start: nat, n: nat)
      requires Valid() && start + n <= pages && forall p :: start <= p < start + n ==> counts[p] > 0
      modifies this, bitmap, refs
      ensures Valid() && |counts| == |old(counts)|
      ensures forall p :: 0 <= p < pages ==> counts[p] == if start <= p < start + n then 0 else old(counts)[p]
    {
      hide Used, FreeAmong;
      ghost var before := counts;
      for p := start to start + n
        invariant Valid() && |counts| == |before|
        invariant forall q :: 0 <= q < pages ==> counts[q] == if start <= q < p then 0 else before[q]
      {
        FreeUpdate(counts, p, 0, pages);
        SetFree(p);
        refs[p] := 0;
        counts := counts[p := 0];
        assert refs[..] == counts;
        freePages := freePages + 1;
      }
    }

    method MarkUsed(start: nat, n: nat)
      requires Valid() && start + n <= pages
      modifies this, bitmap, refs
      ensures Valid() && |counts| == |old(counts)|
      ensures forall p :: 0 <= p < pages ==>
        (counts[p] == 0 <==> old(counts)[p] == 0 && !(start <= p < start + n))
    {
      hide Used, FreeAmong;
      ghost var before := counts;
      for p := start to start + n
        invariant Valid() && |counts| == |before|
        invariant forall q :: 0 <= q < pages ==> (counts[q] == 0 <==> before[q] == 0 && !(start <= q < p))
      {
        var used := IsUsed(p);
        if !used { Claim(p); }
      }
    }

    /** Gives page p its first reference. */
    method Claim(p: nat)
      requires Valid() && p < pages && counts[p] == 0
      modifies this, bitmap, refs
      ensures Valid() && counts == old(counts)[p := 1] && freePages == old(freePages) - 1
    {
      hide Used, FreeAmong;
      FreeUpdate(counts, p, 1, pages);
      FreeSome(counts, p, pages);
      SetUsed(p);
      refs[p] := 1;
      freePages := freePages - 1;
      counts := counts[p := 1];
      assert refs[..] == counts;
    }

    /** pmm_alloc_pages: the lowest free run of the requested length from page 1 on. */
    method AllocPages(count: nat) returns (phys: nat)
      requires Valid()
      modifies this, bitmap, refs
      ensures Valid()
      ensures phys == 0 ==> counts == old(counts) && (count == 0 || forall s :: 1 <= s ==> !FreeRun(counts, s, count))
      ensures phys != 0 ==>
                var start := phys / PAGE_SIZE;
                && phys % PAGE_SIZE == 0 && 1 <= start && count > 0
                && FreeRun(old(counts), start, count)
                && (forall s :: 1 <= s < start ==> !FreeRun(old(counts), s, count))
                && counts == Claimed(old(counts), start, count)
                && freePages == old(freePages) - count
    {
      hide Used, FreeAmong;
      if count == 0 { return 0; }
      var run, start := 0, 0;
      var p := 1;
      while p < pages
        invariant Valid() && counts == old(counts) && freePages == old(freePages)
        invariant 1 <= p && (p <= pages || pages == 0)
        invariant run < count && run < p
        invariant run > 0 ==> start == p - run >= 1
        invariant p <= pages ==> FreeRun(counts, p - run, run)
        invariant forall s :: 1 <= s < p - run ==> !FreeRun(counts, s, count)
      {
        var used := IsUsed(p);
        if !used {
          if run == 0 { start := p; }
          run := run + 1;
          if run == count {
            ClaimRun(start, count);
            return start * PAGE_SIZE;
          }
        } else {
          assert counts[p] > 0;
          run := 0;
        }
        p := p + 1;
      }
      phys := 0;
    }

    method ClaimRun(start: nat, count: nat)
      requires Valid() && FreeRun(counts, start, count)
      modifies this, bitmap, refs
      ensures Valid() && counts == Claimed(old(counts), start, count) && freePages == old(freePages) - count
    {
      ghost var before := counts;
      for i := start to start + count
        invariant Valid() && |counts| == |before|
        invariant forall q :: 0 <= q < pages ==> counts[q] == if start <= q < i then 1 else before[q]
        invariant freePages == old(freePages) - (i - start)
      {
        Claim(i);
      }
      assert counts == Claimed(before, start, count);
    }

    /** pmm_page_ref: 0 and no change for a free or unknown page. */
    method PageRef(phys: nat) returns (n: nat)
      requires Valid()
      modifies this, refs
      ensures Valid() && freePages == old(freePages)
      ensures var page := phys / PAGE_SIZE;
              if page < pages && old(counts)[page] > 0
              then counts == old(counts)[page := old(counts)[page] + 1] && n == counts[page]
              else counts == old(counts) && n == 0
    {
      hide Used, FreeAmong;
      var page := phys / PAGE_SIZE;
      if page >= pages { return 0; }
      var used := IsUsed(page);
      if !used { return 0; }
      FreeUpdate(counts, page, counts[page] + 1, pages);
      refs[page] := refs[page] + 1;
      counts := counts[page := counts[page] + 1];
      assert refs[..] == counts;
      n := refs[page];
    }

    /** pmm_page_unref: the last reference frees the page. */
    method PageUnref(phys: nat) returns (n: nat)
      requires Valid()
      modifies this, bitmap, refs
      ensures Valid()
      ensures var page := phys / PAGE_SIZE;
              if page < pages && old(counts)[page] > 0
              then && counts == old(counts)[page := old(counts)[page] - 1] && n == counts[page]
                   && freePages == old(freePages) + (if n == 0 then 1 else 0)
              else counts == old(counts) && n == 0 && freePages == old(freePages)
    {
      hide Used, FreeAmong;
      var page := phys / PAGE_SIZE;
      if page >= pages { return 0; }
      if refs[page] == 0 { return 0; }
      FreeUpdate(counts, page, counts[page] - 1, pages);
      refs[page] := refs[page] - 1;
      counts := counts[page := counts[page] - 1];
      assert refs[..] == counts;
      n := refs[page];
      var used := IsUsed(page);
      if n == 0 && used {
        SetFree(page);
        freePages := freePages + 1;
      }
    }

    /** pmm_free_pages: drops one reference of each page, or nothing when the range leaves memory. */
    method FreePages(phys: nat, count: nat)
      requires Valid()
      modifies this, bitmap, refs
      ensures Valid() && |counts| == |old(counts)|
      ensures var start := phys / PAGE_SIZE;
              if start + count > pages then counts == old(counts)
              else forall p :: 0 <= p < pages ==>
                     counts[p] == if start <= p < start + count && old(counts)[p] > 0 then old(counts)[p] - 1 else old(counts)[p]
    {
      var start := phys / PAGE_SIZE;
      if start + count > pages { return; }
      ghost var before := counts;
      for i := 0 to count
        invariant Valid() && |counts| == |before|
        invariant forall p :: 0 <= p < pages ==>
          counts[p] == if start <= p < start + i && before[p] > 0 then before[p] - 1 else before[p]
      {
        var _ := PageUnref((start + i) * PAGE_SIZE);
      }
    }
  }

  lemma {:induction false} FreeSome(counts: seq<nat>, p: nat, n: nat)
    requires p < n <= |counts| && counts[p] == 0
    ensures FreeAmong(counts, n) >= 1
  {
    if p < n - 1 { FreeSome(counts, p, n - 1); }
  }

  lemma {:induction false} NoneFree(counts: seq<nat>, n: nat)
    requires n <= |counts| && forall p :: 0 <= p < n ==> counts[p] > 0
    ensures FreeAmong(counts, n) == 0
  {
    if n > 0 { NoneFree(counts, n - 1); }
  }

  lemma NotYetFree(entries: seq<Region>, i: nat, p: nat)
    requires PagesDisjoint(entries) && i < |entries| && InRegion(entries[i], p)
    ensures !UsablePage(entries[..i], p)
  {
    forall j | 0 <= j < i ensures !InRegion(entries[..i][j], p) {
      assert entries[..i][j] == entries[j];
    }
  }

  lemma SpansFit(e: Region, pages: nat)
    requires e.length >= BitmapSpan(pages) + RefsSpan(pages)
    ensures (BitmapSpan(pages) + RefsSpan(pages)) / 4096 == BitmapSpan(pages) / 4096 + RefsSpan(pages) / 4096
    ensures FirstPage(e) + BitmapSpan(pages) / 4096 + RefsSpan(pages) / 4096 <= (e.base + e.length) / 4096
  {
  }

  lemma Extended(entries: seq<Region>, i: nat, p: nat)
    requires i < |entries|
    ensures UsablePage(entries[..i + 1], p) <==> UsablePage(entries[..i], p) || InRegion(entries[i], p)
  {
    if UsablePage(entries[..i], p) {
      var j :| 0 <= j < i && InRegion(entries[..i][j], p);
      assert entries[..i + 1][j] == entries[..i][j];
    }
    if InRegion(entries[i], p) {
      assert entries[..i + 1][i] == entries[i];
    }
    if UsablePage(entries[..i + 1], p) {
      var j :| 0 <= j < i + 1 && InRegion(entries[..i + 1][j], p);
      assert j < i ==> entries[..i][j] == entries[..i + 1][j];
    }
  }
}
