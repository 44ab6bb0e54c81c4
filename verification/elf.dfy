/** fs/elf.c: mapping the PT_LOAD segments of an executable page by page.  The address space is the
    flat map from table entries to page contents that the page tables stand for.  Sums of header
    fields wrap around at 2^64 as they do in the code. */
module ElfLoader {
  import VmFaults

  type u64 = x: int | 0 <= x < 0x1_0000_0000_0000_0000

  type Page = p: seq<bv8> | |p| == 4096 witness seq(4096, _ => 0)

  datatype Kind = Load | Interp | HeaderTable | Other

  /** A program header, decoded. */
  datatype Segment = Segment(kind: Kind, offset: u64, vaddr: u64, filesz: u64, memsz: u64)

  /** Wild is where the code would copy bytes from beyond the file image. */
  datatype Outcome = Done | NoExec | NoMemory | Fault | Wild

  datatype Option<T> = None | Some(value: T)

  const USER_START := 0x400000
  const USER_END := 0x7FFF_FFFF_F000

  /** One past the addresses a process can use: the lower half of 48 bits. */
  const HALF := 0x8000_0000_0000

  function Wrap(x: nat): u64 { x % 0x1_0000_0000_0000_0000 }

  function ZeroPage(): Page { seq(4096, _ => 0) }

  // ------------------------------------------------------------- positions

  /** The table entry for page q: the tables look at 36 bits of a page number. */
  function EntryAt(q: nat): nat { q % 0x10_0000_0000 }

  /** The position of address a as the tables see it. */
  function Linear(a: nat): nat { a % 0x1_0000_0000_0000 }

  lemma LinearIs(a: nat)
    ensures Linear(a) / 4096 == EntryAt(a / 4096) && Linear(a) % 4096 == a % 4096
  {
  }

  lemma LinearWrap(a: nat)
    ensures Linear(Wrap(a)) == Linear(a)
  {
  }

  /** Pages share an entry here exactly when the page tables lead their addresses to one. */
  lemma EntriesArePaths(a: nat, b: nat)
    ensures EntryAt(a / 4096) == EntryAt(b / 4096) <==> VmFaults.PathOf(a) == VmFaults.PathOf(b)
  {
    hide VmFaults.PathOf;
    VmFaults.PathsSeparateEntries(a, b);
  }

  /** The byte at position c, if its page is mapped. */
  function Byte(space: map<nat, Page>, c: nat): Option<bv8> {
    if c / 4096 in space then Some(space[c / 4096][c % 4096]) else None
  }

  // ------------------------------------------------------------- segments

  function Start(s: Segment, bias: u64): u64 { Wrap(s.vaddr + bias) }

  function Top(s: Segment, bias: u64): u64 { Wrap(Start(s, bias) + s.memsz) }

  predicate InFile(s: Segment, size: nat) {
    s.offset + s.filesz <= size
  }

  predicate InUser(s: Segment, bias: u64) {
    USER_START <= Start(s, bias) < USER_END
  }

  predicate InData(s: Segment, bias: u64, a: nat) {
    Start(s, bias) <= a < Start(s, bias) + s.filesz
  }

  predicate InMemory(s: Segment, bias: u64, a: nat) {
    Start(s, bias) <= a < Start(s, bias) + s.memsz
  }

  function FirstPage(s: Segment, bias: u64): nat { Start(s, bias) / 4096 }

  /** One past the last page of the segment, as computed. */
  function EndPage(s: Segment, bias: u64): nat { Wrap(Start(s, bias) + s.memsz + 4095) / 4096 }

  /** A page from first to end has table entry k. */
  ghost predicate Touched(k: nat, first: nat, end: nat) {
    exists q :: first <= q < end && EntryAt(q) == k
  }

  /** The last of the first n file bytes of the segment that is copied to position c. */
  function LastHit(file: seq<bv8>, s: Segment, bias: u64, n: nat, c: nat): Option<bv8>
    requires s.offset + n <= |file|
  {
    if n == 0 then None
    else if Linear(Start(s, bias) + n - 1) == c then Some(file[s.offset + n - 1])
    else LastHit(file, s, bias, n - 1, c)
  }

  /** What a position holds once the segment is loaded, prev being what it held before: a byte of the
      file, otherwise what was there, and zero in the rest of the pages the segment adds. */
  ghost function After(prev: Option<bv8>, file: seq<bv8>, s: Segment, bias: u64, c: nat): Option<bv8>
    requires InFile(s, |file|)
  {
    if LastHit(file, s, bias, s.filesz, c).Some? then LastHit(file, s, bias, s.filesz, c)
    else if prev.Some? then prev
    else if Touched(c / 4096, FirstPage(s, bias), EndPage(s, bias)) then Some(0)
    else None
  }

  // ------------------------------------------------------------- copying

  /** page with data written from offset off on. */
  function Put(page: Page, off: nat, data: seq<bv8>): (r: Page)
    requires off + |data| <= 4096
    ensures forall i :: 0 <= i < 4096 ==> r[i] == if off <= i < off + |data| then data[i - off] else page[i]
  {
    page[..off] + data + page[off + |data|..]
  }

  predicate MappedAt(space: map<nat, Page>, a: nat) { EntryAt(a / 4096) in space }

  /** The first n bytes of the segment's data lie in pages of the space. */
  ghost predicate DataMapped(space: map<nat, Page>, s: Segment, bias: u64, n: nat) {
    forall a :: Start(s, bias) <= a < Start(s, bias) + n ==> MappedAt(space, a)
  }

  /** The first n file bytes of the segment are in place, the rest is space's. */
  ghost predicate Copied(space: map<nat, Page>, space': map<nat, Page>, file: seq<bv8>, s: Segment, bias: u64, n: nat)
    requires s.offset + n <= |file|
  {
    && space'.Keys == space.Keys
    && forall c: nat {:trigger Byte(space', c)} ::
         Byte(space', c) == if LastHit(file, s, bias, n, c).Some? then LastHit(file, s, bias, n, c) else Byte(space, c)
  }

  /** A chunk that stays in its page covers consecutive positions. */
  lemma {:induction false} HitChunk(file: seq<bv8>, s: Segment, bias: u64, n: nat, chunk: nat, c: nat)
    requires s.offset + n + chunk <= |file| && (Start(s, bias) + n) % 4096 + chunk <= 4096
    ensures var c0 := Linear(Start(s, bias) + n);
            LastHit(file, s, bias, n + chunk, c) ==
            if c0 <= c < c0 + chunk then Some(file[s.offset + n + (c - c0)]) else LastHit(file, s, bias, n, c)
  {
    if chunk > 0 {
      HitChunk(file, s, bias, n, chunk - 1, c);
      LinearStep(Start(s, bias) + n, chunk - 1);
    }
  }

  lemma LinearStep(a: nat, d: nat)
    requires a % 4096 + d < 4096
    ensures Linear(a + d) == Linear(a) + d
  {
    var k := a / 0x1_0000_0000_0000;
    LinearIs(a);
    assert Linear(a) + d < 0x1_0000_0000_0000;
    assert a + d == k * 0x1_0000_0000_0000 + (Linear(a) + d);
  }

  lemma CopyStep(space: map<nat, Page>, space': map<nat, Page>, file: seq<bv8>, s: Segment, bias: u64, n: nat, chunk: nat)
    requires s.offset + n + chunk <= |file| && Copied(space, space', file, s, bias, n)
    requires (Start(s, bias) + n) % 4096 + chunk <= 4096 && MappedAt(space', Start(s, bias) + n)
    ensures var k, off := EntryAt((Start(s, bias) + n) / 4096), (Start(s, bias) + n) % 4096;
            Copied(space, space'[k := Put(space'[k], off, file[s.offset + n..s.offset + n + chunk])], file, s, bias, n + chunk)
  {
    hide Start, EntryAt, Linear, LastHit;
    var va := Start(s, bias) + n;
    var k, off, c0 := EntryAt(va / 4096), va % 4096, Linear(va);
    LinearIs(va);
    var space2 := space'[k := Put(space'[k], off, file[s.offset + n..s.offset + n + chunk])];
    forall c: nat
      ensures Byte(space2, c) == if LastHit(file, s, bias, n + chunk, c).Some? then LastHit(file, s, bias, n + chunk, c) else Byte(space, c)
    {
      HitChunk(file, s, bias, n, chunk, c);
      assert Byte(space', c) == if LastHit(file, s, bias, n, c).Some? then LastHit(file, s, bias, n, c) else Byte(space, c);
      SamePage(c0, chunk, c);
    }
  }

  lemma SamePage(c0: nat, chunk: nat, c: nat)
    requires c0 % 4096 + chunk <= 4096
    ensures c0 <= c < c0 + chunk <==> c / 4096 == c0 / 4096 && c0 % 4096 <= c % 4096 < c0 % 4096 + chunk
    ensures c0 <= c < c0 + chunk ==> c % 4096 - c0 % 4096 == c - c0
  {
  }

  /** The entries of pages first to end are mapped too, with zeros where nothing was. */
  ghost predicate Mapped(space: map<nat, Page>, space': map<nat, Page>, first: nat, end: nat) {
    && (forall k {:trigger k in space'} :: k in space' <==> k in space || Touched(k, first, end))
    && (forall k :: k in space' ==> space'[k] == if k in space then space[k] else ZeroPage())
  }

  lemma TouchedNext(k: nat, first: nat, p: nat)
    requires first <= p
    ensures Touched(k, first, p + 1) <==> Touched(k, first, p) || k == EntryAt(p)
  {
    hide EntryAt;
    if Touched(k, first, p) {
      var q :| first <= q < p && EntryAt(q) == k;
      assert first <= q < p + 1;
    }
    if k == EntryAt(p) { assert first <= p < p + 1; }
  }

  lemma MappedNext(space: map<nat, Page>, space': map<nat, Page>, first: nat, p: nat)
    requires first <= p && Mapped(space, space', first, p)
    ensures var k := EntryAt(p);
            Mapped(space, if k in space' then space' else space'[k := ZeroPage()], first, p + 1)
  {
    hide EntryAt, ZeroPage, Touched;
    forall k: nat ensures Touched(k, first, p + 1) <==> Touched(k, first, p) || k == EntryAt(p) { TouchedNext(k, first, p); }
  }

  class AddressSpace {
    /** The page behind each table entry. */
    var pages: map<nat, Page>
    /** Pages the physical allocator can still give. */
    var free: nat

    constructor (free: nat)
      ensures pages == map[] && this.free == free
    {
      pages, this.free := map[], free;
    }

    /** One round of the mapping loop: entry k gets a zeroed page unless it has one already. */
    method MapOne(k: nat) returns (ok: bool)
      modifies this
      ensures ok <==> k in old(pages) || old(free) > 0
      ensures !ok ==> free == 0 && pages == old(pages)
      ensures ok ==> pages == if k in old(pages) then old(pages) else old(pages)[k := ZeroPage()]
      ensures free + |pages| == old(free + |pages|)
    {
      if k in pages { return true; }
      if free == 0 { return false; }
      free := free - 1;
      ghost var before := pages;
      pages := pages[k := ZeroPage()];
      assert pages.Keys == before.Keys + {k};
      assert |pages| == |pages.Keys| && |before| == |before.Keys|;
      ok := true;
    }

    /** Maps zeroed pages over the segment, leaving pages that are there; false when memory runs out. */
    method MapPages(s: Segment, bias: u64) returns (ok: bool)
      modifies this
      ensures ok ==> Mapped(old(pages), pages, FirstPage(s, bias), EndPage(s, bias))
      ensures free + |pages| == old(free + |pages|)
      ensures !ok ==> free == 0
    {
      hide FirstPage, EndPage, ZeroPage, EntryAt;
      var p, end := FirstPage(s, bias), EndPage(s, bias);
      while p < end
        invariant FirstPage(s, bias) <= p && (p <= end || p == FirstPage(s, bias))
        invariant Mapped(old(pages), pages, FirstPage(s, bias), p)
        invariant free + |pages| == old(free + |pages|)
      {
        MappedNext(old(pages), pages, FirstPage(s, bias), p);
        ok := MapOne(EntryAt(p));
        if !ok { return; }
        p := p + 1;
      }
      ok := true;
    }

    /** The copy loop: Fault when it meets an unmapped page, Wild where it runs off the file. */
    method CopyData(file: seq<bv8>, s: Segment, bias: u64) returns (r: Outcome)
      requires Wrap(s.offset + s.filesz) <= |file|
      modifies `pages
      ensures r == Done <==> InFile(s, |file|) && DataMapped(old(pages), s, bias, s.filesz)
      ensures r == Done ==> Copied(old(pages), pages, file, s, bias, s.filesz)
      ensures r != Done ==> r == Fault || r == Wild
      ensures r == Fault ==> !DataMapped(old(pages), s, bias, s.filesz)
      ensures r == Wild ==> !InFile(s, |file|)
      ensures |pages| == old(|pages|)
    {
      hide Start, EntryAt;
      var copied := 0;
      while copied < s.filesz
        invariant copied <= s.filesz && (s.offset + copied <= |file| || copied == 0 < s.filesz)
        invariant s.offset + copied <= |file| ==> Copied(old(pages), pages, file, s, bias, copied)
        invariant pages.Keys == old(pages).Keys && |pages| == old(|pages|) && DataMapped(old(pages), s, bias, copied)
      {
        var va := Wrap(Start(s, bias) + copied);
        var off := va % 4096;
        var chunk := 4096 - off;
        if chunk > s.filesz - copied { chunk := s.filesz - copied; }
        WrapPage(Start(s, bias) + copied);
        var k := EntryAt(va / 4096);
        if k !in pages {
          assert !MappedAt(old(pages), Start(s, bias) + copied);
          return Fault;
        }
        if s.offset + copied + chunk > |file| { return Wild; }
        CopyStep(old(pages), pages, file, s, bias, copied, chunk);
        ChunkMapped(old(pages), s, bias, copied, chunk);
        ghost var before := pages;
        pages := pages[k := Put(pages[k], off, file[s.offset + copied..s.offset + copied + chunk])];
        SameCount(before, pages);
        copied := copied + chunk;
      }
      r := Done;
    }

    /** The PT_LOAD part of the loop of elf_load. */
    method LoadSegment(file: seq<bv8>, s: Segment, bias: u64) returns (r: Outcome)
      modifies this
      ensures r == NoExec <==> Wrap(s.offset + s.filesz) > |file| || !InUser(s, bias)
      ensures r == NoExec ==> pages == old(pages)
      ensures r == NoMemory ==> free == 0
      ensures r == Fault ==> s.filesz > s.memsz || Start(s, bias) + s.memsz + 4095 >= 0x1_0000_0000_0000_0000
      ensures r == Wild ==> s.offset + s.filesz >= 0x1_0000_0000_0000_0000
      ensures r == Done ==> InFile(s, |file|)
      ensures free + |pages| == old(free + |pages|)
      ensures r == Done ==>
                forall c: nat {:trigger Byte(pages, c)} :: Byte(pages, c) == After(Byte(old(pages), c), file, s, bias, c)
    {
      hide FirstPage, EndPage, Mapped, Copied, Start;
      if Wrap(s.offset + s.filesz) > |file| { return NoExec; }
      if Start(s, bias) < USER_START || Start(s, bias) >= USER_END { return NoExec; }
      var mapped := MapPages(s, bias);
      if !mapped { return NoMemory; }
      ghost var mid := pages;
      r := CopyData(file, s, bias);
      if r == Done {
        forall c: nat ensures Byte(pages, c) == After(Byte(old(pages), c), file, s, bias, c) {
          SegmentByte(old(pages), mid, pages, file, s, bias, c);
        }
      } else if s.filesz <= s.memsz && Start(s, bias) + s.memsz + 4095 < 0x1_0000_0000_0000_0000 {
        AllMapped(old(pages), mid, s, bias);
      }
    }

    /** elf_load from the header loop on. */
    method LoadImage(file: seq<bv8>, segs: seq<Segment>, bias: u64) returns (r: Outcome, brk: u64)
      modifies this
      ensures r == Done ==> Loadable(file, segs, bias, |segs|)
      ensures r == Done ==>
                forall c: nat {:trigger Byte(pages, c)} :: Byte(pages, c) == Image(old(pages), file, segs, bias, |segs|, c)
      ensures r == Done ==> brk == Break(segs, bias)
      ensures free + |pages| == old(free + |pages|)
      ensures r == NoExec ==> exists i :: 0 <= i < |segs| && !Passes(segs[i], bias, |file|)
      ensures r == NoMemory ==> free == 0
      ensures r == Fault ==> exists i :: 0 <= i < |segs| && segs[i].kind == Load
                                         && (segs[i].filesz > segs[i].memsz || Start(segs[i], bias) + segs[i].memsz + 4095 >= 0x1_0000_0000_0000_0000)
      ensures r == Wild ==> exists i :: 0 <= i < |segs| && segs[i].offset + segs[i].filesz >= 0x1_0000_0000_0000_0000
    {
      hide After, Byte, Start;
      var end: u64 := 0;
      for i := 0 to |segs|
        invariant Loadable(file, segs, bias, i)
        invariant forall c: nat {:trigger Byte(pages, c)} :: Byte(pages, c) == Image(old(pages), file, segs, bias, i, c)
        invariant end == MaxTop(segs, bias, i)
        invariant free + |pages| == old(free + |pages|)
      {
        var s := segs[i];
        if s.kind == Interp {
          if s.filesz == 0 || s.filesz >= 256 || Wrap(s.offset + s.filesz) > |file| { return NoExec, 0; }
          if s.offset + s.filesz > |file| { return Wild, 0; }
        }
        if s.kind == Load {
          ghost var before := pages;
          r := LoadSegment(file, s, bias);
          if r != Done { return r, 0; }
          forall c: nat ensures Byte(pages, c) == Image(old(pages), file, segs, bias, i + 1, c) {
            assert Byte(before, c) == Image(old(pages), file, segs, bias, i, c);
          }
          if Top(s, bias) > end { end := Top(s, bias); }
        }
      }
      brk := Wrap(end + 4095) / 4096 * 4096;
      r := Done;
    }
  }

  lemma SameCount(m: map<nat, Page>, m': map<nat, Page>)
    requires m'.Keys == m.Keys
    ensures |m'| == |m|
  {
    assert |m'| == |m'.Keys| && |m| == |m.Keys|;
  }

  lemma WrapPage(a: nat)
    ensures Wrap(a) % 4096 == a % 4096 && EntryAt(Wrap(a) / 4096) == EntryAt(a / 4096)
  {
    LinearWrap(a);
    LinearIs(a);
    LinearIs(Wrap(a));
  }

  lemma ChunkMapped(space: map<nat, Page>, s: Segment, bias: u64, n: nat, chunk: nat)
    requires DataMapped(space, s, bias, n) && MappedAt(space, Start(s, bias) + n) && (Start(s, bias) + n) % 4096 + chunk <= 4096
    ensures DataMapped(space, s, bias, n + chunk)
  {
    hide Start, EntryAt;
    var va := Start(s, bias) + n;
    forall a | va <= a < va + chunk ensures MappedAt(space, a) { SamePage(va, chunk, a); }
  }

  /** With no more file bytes than memory, and an end that does not wrap, every byte has its page. */
  lemma AllMapped(space: map<nat, Page>, space': map<nat, Page>, s: Segment, bias: u64)
    requires Mapped(space, space', FirstPage(s, bias), EndPage(s, bias)) && s.filesz <= s.memsz
    requires Start(s, bias) + s.memsz + 4095 < 0x1_0000_0000_0000_0000
    ensures DataMapped(space', s, bias, s.filesz)
  {
    hide Start, EntryAt;
    forall a | Start(s, bias) <= a < Start(s, bias) + s.filesz ensures MappedAt(space', a) {
      assert FirstPage(s, bias) <= a / 4096 < EndPage(s, bias);
      assert Touched(EntryAt(a / 4096), FirstPage(s, bias), EndPage(s, bias));
    }
  }

  lemma SegmentByte(space: map<nat, Page>, mid: map<nat, Page>, end: map<nat, Page>, file: seq<bv8>, s: Segment, bias: u64, c: nat)
    requires InFile(s, |file|) && Mapped(space, mid, FirstPage(s, bias), EndPage(s, bias)) && Copied(mid, end, file, s, bias, s.filesz)
    ensures Byte(end, c) == After(Byte(space, c), file, s, bias, c)
  {
    hide FirstPage, EndPage, LastHit, Touched;
    var k := c / 4096;
    assert k in mid <==> k in space || Touched(k, FirstPage(s, bias), EndPage(s, bias));
    assert Byte(mid, c) == if k in space then Byte(space, c) else if k in mid then Some(0) else None;
  }

  /** The checks of the header loop. */
  predicate Passes(s: Segment, bias: u64, size: nat) {
    && (s.kind == Load ==> Wrap(s.offset + s.filesz) <= size && InUser(s, bias))
    && (s.kind == Interp ==> 0 < s.filesz < 256 && Wrap(s.offset + s.filesz) <= size)
  }

  /** What the checks are for holds of the first n headers. */
  predicate Loadable(file: seq<bv8>, segs: seq<Segment>, bias: u64, n: nat)
    requires n <= |segs|
  {
    forall i :: 0 <= i < n ==>
      && (segs[i].kind == Load ==> InFile(segs[i], |file|) && InUser(segs[i], bias))
      && (segs[i].kind == Interp ==> 0 < segs[i].filesz < 256 && InFile(segs[i], |file|))
  }

  /** The byte at position c after the first n headers, segment after segment. */
  ghost function Image(space: map<nat, Page>, file: seq<bv8>, segs: seq<Segment>, bias: u64, n: nat, c: nat): Option<bv8>
    requires n <= |segs| && Loadable(file, segs, bias, n)
  {
    if n == 0 then Byte(space, c)
    else
      var prev := Image(space, file, segs, bias, n - 1, c);
      if segs[n - 1].kind == Load then After(prev, file, segs[n - 1], bias, c) else prev
  }

  // ------------------------------------------------------------- the break

  function MaxTop(segs: seq<Segment>, bias: u64, n: nat): u64
    requires n <= |segs|
  {
    if n == 0 then 0
    else if segs[n - 1].kind == Load && Top(segs[n - 1], bias) > MaxTop(segs, bias, n - 1) then Top(segs[n - 1], bias)
    else MaxTop(segs, bias, n - 1)
  }

  /** Where the heap of the process starts. */
  function Break(segs: seq<Segment>, bias: u64): u64 {
    Wrap(MaxTop(segs, bias, |segs|) + 4095) / 4096 * 4096
  }

  predicate TopsBelow(segs: seq<Segment>, bias: u64, n: nat, x: nat)
    requires n <= |segs|
  {
    forall i :: 0 <= i < n && segs[i].kind == Load ==> Top(segs[i], bias) <= x
  }

  lemma {:induction false} MaxTopIs(segs: seq<Segment>, bias: u64, n: nat)
    requires n <= |segs|
    ensures TopsBelow(segs, bias, n, MaxTop(segs, bias, n))
    ensures MaxTop(segs, bias, n) > 0 ==> exists i :: 0 <= i < n && segs[i].kind == Load && Top(segs[i], bias) == MaxTop(segs, bias, n)
  {
    hide Top;
    if n > 0 { MaxTopIs(segs, bias, n - 1); }
  }

  /** Where the segment ends, without wrap-around. */
  function End(s: Segment, bias: u64): nat { Start(s, bias) + s.memsz }

  /** Every loaded segment ends at or below x. */
  predicate EndsBelow(segs: seq<Segment>, bias: u64, x: nat) {
    forall i :: 0 <= i < |segs| && segs[i].kind == Load ==> End(segs[i], bias) <= x
  }

  lemma EndIsTop(s: Segment, bias: u64)
    ensures End(s, bias) < 0x1_0000_0000_0000_0000 ==> Top(s, bias) == End(s, bias)
  {
    hide Start;
  }

  /** The break is page-aligned.  It lies above the end of every segment exactly if no end wraps around
      and rounding up does not either, and then less than a page above one of them. */
  lemma BreakAboveSegments(segs: seq<Segment>, bias: u64)
    ensures Break(segs, bias) % 4096 == 0
    ensures EndsBelow(segs, bias, Break(segs, bias)) <==>
              EndsBelow(segs, bias, 0xFFFF_FFFF_FFFF_FFFF) && MaxTop(segs, bias, |segs|) + 4095 < 0x1_0000_0000_0000_0000
    ensures EndsBelow(segs, bias, Break(segs, bias)) && Break(segs, bias) > 0 ==>
              exists i :: 0 <= i < |segs| && segs[i].kind == Load && Break(segs, bias) < End(segs[i], bias) + 4096
  {
    hide Top, MaxTop, End;
    var m, b := MaxTop(segs, bias, |segs|), Break(segs, bias);
    MaxTopIs(segs, bias, |segs|);
    RoundUp(m);
    forall i | 0 <= i < |segs| ensures End(segs[i], bias) < 0x1_0000_0000_0000_0000 ==> Top(segs[i], bias) == End(segs[i], bias) {
      EndIsTop(segs[i], bias);
    }
    if EndsBelow(segs, bias, b) && m > 0 {
      var i :| 0 <= i < |segs| && segs[i].kind == Load && Top(segs[i], bias) == m;
      assert End(segs[i], bias) <= b;
    }
  }

  /** For images that end in the user half the break is above all of them. */
  lemma BreakOfImage(segs: seq<Segment>, bias: u64)
    requires AllWithin(segs, bias)
    ensures EndsBelow(segs, bias, Break(segs, bias))
  {
    hide Top, MaxTop, Start, Break;
    MaxTopIs(segs, bias, |segs|);
    forall i | 0 <= i < |segs| && segs[i].kind == Load ensures End(segs[i], bias) <= HALF && Top(segs[i], bias) <= HALF {
      assert Within(segs[i], bias);
      EndIsTop(segs[i], bias);
    }
    BreakAboveSegments(segs, bias);
  }

  /** A segment whose end wraps around to zero. */
  const WRAPPING := Segment(Load, 0, 0x400000, 0, 0xFFFF_FFFF_FFC0_0000)

  lemma WrappingIs()
    ensures Start(WRAPPING, 0) == 0x400000 && Top(WRAPPING, 0) == 0 && EndPage(WRAPPING, 0) == 0
  {
  }

  /** It passes every check, no page is mapped for it, and the break lies below its start. */
  lemma BreakBelowSegment(size: nat)
    ensures Passes(WRAPPING, 0, size) && Loadable([], [WRAPPING], 0, 1) && Proper([WRAPPING], 0)
    ensures EndPage(WRAPPING, 0) == 0 && Break([WRAPPING], 0) == 0 < Start(WRAPPING, 0)
  {
    hide Start, Top, EndPage;
    WrappingIs();
    assert MaxTop([WRAPPING], 0, 0) == 0;
    assert MaxTop([WRAPPING], 0, 1) == 0;
  }

  lemma RoundUp(m: u64)
    ensures var b := Wrap(m + 4095) / 4096 * 4096;
            b % 4096 == 0 && (m <= b <==> m + 4095 < 0x1_0000_0000_0000_0000)
            && (m + 4095 < 0x1_0000_0000_0000_0000 ==> b < m + 4096 && (b > 0 ==> m > 0))
  {
  }

  // ------------------------------------------------------------- the image theorem

  /** No two loaded segments share an address, and none has more file bytes than memory. */
  ghost predicate Proper(segs: seq<Segment>, bias: u64) {
    && (forall i :: 0 <= i < |segs| && segs[i].kind == Load ==> segs[i].filesz <= segs[i].memsz)
    && (forall i, j, a {:trigger InMemory(segs[i], bias, a), InMemory(segs[j], bias, a)} ::
          0 <= i < |segs| && 0 <= j < |segs| && i != j && segs[i].kind == Load && segs[j].kind == Load
          ==> !(InMemory(segs[i], bias, a) && InMemory(segs[j], bias, a)))
  }

  /** The segment stays in the half of the addresses that belongs to processes. */
  predicate Within(s: Segment, bias: u64) { Start(s, bias) + s.memsz <= HALF }

  predicate AllWithin(segs: seq<Segment>, bias: u64) {
    forall i :: 0 <= i < |segs| && segs[i].kind == Load ==> Within(segs[i], bias)
  }

  /** Nothing is mapped in the user half yet. */
  predicate EmptyUser(space: map<nat, Page>) {
    forall k :: k in space ==> k >= 0x8_0000_0000
  }

  /** The page tables lead page p to an entry of the process's own half. */
  predicate UserPage(p: nat) { VmFaults.PathOf(p * 4096)[0] < 256 }

  lemma UserPageIs(p: nat)
    ensures UserPage(p) <==> EntryAt(p) < 0x8_0000_0000
  {
    VmFaults.UserHalf(p * 4096);
  }

  /** What the process reads at address a of the loaded image: what its position holds, if the tables
      lead there through the process's own half. */
  ghost function Seen(space: map<nat, Page>, file: seq<bv8>, segs: seq<Segment>, bias: u64, a: nat): Option<bv8>
    requires Loadable(file, segs, bias, |segs|)
  {
    if UserPage(a / 4096) then Image(space, file, segs, bias, |segs|, Linear(a)) else None
  }

  /** The byte the executable asks for at address a of segment i. */
  function Wanted(file: seq<bv8>, s: Segment, bias: u64, a: nat): Option<bv8>
    requires InFile(s, |file|)
  {
    Some(if InData(s, bias, a) then file[s.offset + (a - Start(s, bias))] else 0)
  }

  /** A segment below 2^48 meets each position once. */
  lemma {:induction false} HitOnce(file: seq<bv8>, s: Segment, bias: u64, n: nat, c: nat)
    requires s.offset + n <= |file| && Start(s, bias) + n <= 0x1_0000_0000_0000
    ensures LastHit(file, s, bias, n, c) ==
            if Start(s, bias) <= c < Start(s, bias) + n then Some(file[s.offset + (c - Start(s, bias))]) else None
  {
    hide Start;
    if n > 0 { HitOnce(file, s, bias, n - 1, c); }
  }

  lemma PageTouched(s: Segment, bias: u64, a: nat)
    requires Within(s, bias) && InMemory(s, bias, a)
    ensures Touched(a / 4096, FirstPage(s, bias), EndPage(s, bias))
  {
    hide Start;
    assert FirstPage(s, bias) <= a / 4096 < EndPage(s, bias) && EntryAt(a / 4096) == a / 4096;
  }

  /** Until its own segment is loaded an address is unmapped or zero; afterwards it keeps its byte. */
  lemma {:induction false} ImageAt(space: map<nat, Page>, file: seq<bv8>, segs: seq<Segment>, bias: u64, n: nat, i: nat, a: nat)
    requires n <= |segs| && i < |segs| && Loadable(file, segs, bias, |segs|) && Proper(segs, bias)
    requires AllWithin(segs, bias) && EmptyUser(space)
    requires segs[i].kind == Load && InMemory(segs[i], bias, a)
    ensures Loadable(file, segs, bias, n)
    ensures var b := Image(space, file, segs, bias, n, a);
            if n <= i then b == None || b == Some(0) else b == Wanted(file, segs[i], bias, a)
  {
    hide Touched, Start, FirstPage, EndPage, LastHit;
    if n > 0 {
      ImageAt(space, file, segs, bias, n - 1, i, a);
      var s := segs[n - 1];
      if s.kind == Load {
        assert Within(s, bias) && s.filesz <= s.memsz;
        HitOnce(file, s, bias, s.filesz, a);
        if n - 1 == i { PageTouched(s, bias, a); } else { assert !InMemory(s, bias, a); }
      }
    } else {
      assert Within(segs[i], bias) && a / 4096 < 0x8_0000_0000;
    }
  }

  /** Every byte of every segment reads back as its file byte, or zero beyond the file's part. */
  lemma ImageCorrect(space: map<nat, Page>, file: seq<bv8>, segs: seq<Segment>, bias: u64, i: nat, a: nat)
    requires Loadable(file, segs, bias, |segs|) && Proper(segs, bias) && AllWithin(segs, bias) && EmptyUser(space)
    requires i < |segs| && segs[i].kind == Load && InMemory(segs[i], bias, a)
    ensures Seen(space, file, segs, bias, a) == Wanted(file, segs[i], bias, a)
  {
    hide UserPage, Start;
    ImageAt(space, file, segs, bias, |segs|, i, a);
    assert Within(segs[i], bias);
    UserPageIs(a / 4096);
  }

  ghost predicate ReadsBack(space: map<nat, Page>, file: seq<bv8>, segs: seq<Segment>, bias: u64, i: nat, a: nat)
    requires Loadable(file, segs, bias, |segs|) && i < |segs|
  {
    segs[i].kind == Load && InMemory(segs[i], bias, a) ==> Seen(space, file, segs, bias, a) == Wanted(file, segs[i], bias, a)
  }

  /** The checks of elf_load look at the start of a segment only.  The image reads back in full exactly
      when the end of every segment lies in the user half as well. */
  lemma ImageCorrectIff(space: map<nat, Page>, file: seq<bv8>, segs: seq<Segment>, bias: u64)
    requires Loadable(file, segs, bias, |segs|) && Proper(segs, bias) && EmptyUser(space)
    ensures (forall i: nat, a: nat {:trigger ReadsBack(space, file, segs, bias, i, a)} :: i < |segs| ==> ReadsBack(space, file, segs, bias, i, a))
            <==> AllWithin(segs, bias)
  {
    hide Proper, Start, Image, UserPage;
    if AllWithin(segs, bias) {
      forall i: nat, a: nat | i < |segs| ensures ReadsBack(space, file, segs, bias, i, a) {
        if segs[i].kind == Load && InMemory(segs[i], bias, a) { ImageCorrect(space, file, segs, bias, i, a); }
      }
    } else {
      var i :| 0 <= i < |segs| && segs[i].kind == Load && !Within(segs[i], bias);
      assert InUser(segs[i], bias) && InMemory(segs[i], bias, HALF);
      UserPageIs(HALF / 4096);
      assert !ReadsBack(space, file, segs, bias, i, HALF);
    }
  }

  // ------------------------------------------------------------- leaving the user half

  predicate PageOf(s: Segment, bias: u64, p: nat) {
    FirstPage(s, bias) <= p && p * 4096 < Start(s, bias) + s.memsz
  }

  /** For a segment that elf_load accepts: all its pages belong to the user half exactly if it ends
      there. */
  lemma UserPagesIff(s: Segment, bias: u64)
    requires InUser(s, bias)
    ensures (forall p: nat {:trigger UserPage(p)} :: PageOf(s, bias, p) ==> UserPage(p)) <==> Within(s, bias)
  {
    hide Start, UserPage;
    if Within(s, bias) {
      forall p: nat | PageOf(s, bias, p) ensures UserPage(p) { UserPageIs(p); }
    } else {
      var p := 0x8_0000_0000;
      UserPageIs(p);
      assert PageOf(s, bias, p) && !UserPage(p);
    }
  }

  /** A segment that passes every check and does not read back: three pages from the last but one of
      the user half on. */
  lemma SegmentLeavesUserHalf(file: seq<bv8>)
    requires |file| == 0x3000
    ensures var s := Segment(Load, 0, 0x7FFF_FFFF_E000, 0x3000, 0x3000);
            && Passes(s, 0, |file|) && Loadable(file, [s], 0, 1) && Proper([s], 0)
            && InData(s, 0, HALF) && VmFaults.PathOf(HALF)[0] == 256
            && Seen(map[], file, [s], 0, HALF) == None && Wanted(file, s, 0, HALF) == Some(file[0x2000])
  {
    UserPageIs(HALF / 4096);
  }

  // ------------------------------------------------------- the program header table

  /** The file bytes of the segment include offset phoff. */
  predicate CoversOffset(s: Segment, phoff: nat) {
    s.kind == Load && s.offset <= phoff < s.offset + s.filesz
  }

  predicate FirstCovering(segs: seq<Segment>, phoff: nat, i: nat) {
    i < |segs| && CoversOffset(segs[i], phoff) && forall j :: 0 <= j < i ==> !CoversOffset(segs[j], phoff)
  }

  /** The end of elf_load: the address at which the table at phoff is loaded, 0 if it is not. */
  method FindHeaderTable(segs: seq<Segment>, bias: u64, phoff: u64) returns (v: u64)
    ensures (exists i: nat :: FirstCovering(segs, phoff, i)) || (v == 0 && forall i :: 0 <= i < |segs| ==> !CoversOffset(segs[i], phoff))
    ensures forall i: nat :: FirstCovering(segs, phoff, i) ==> v == Wrap(Start(segs[i], bias) + (phoff - segs[i].offset))
  {
    hide Wrap, Start;
    for i := 0 to |segs|
      invariant forall j :: 0 <= j < i ==> !CoversOffset(segs[j], phoff)
    {
      if segs[i].kind == Load && phoff >= segs[i].offset {
        var delta := phoff - segs[i].offset;
        if delta < segs[i].filesz {
          assert FirstCovering(segs, phoff, i);
          forall k: nat | FirstCovering(segs, phoff, k) ensures k == i {}
          return Wrap(Start(segs[i], bias) + delta);
        }
      }
    }
    v := 0;
  }

  /** What the process reads at that address is the table in the file. */
  lemma HeaderTableReads(space: map<nat, Page>, file: seq<bv8>, segs: seq<Segment>, bias: u64, phoff: u64, i: nat, k: nat)
    requires Loadable(file, segs, bias, |segs|) && Proper(segs, bias) && AllWithin(segs, bias) && EmptyUser(space)
    requires i < |segs| && CoversOffset(segs[i], phoff) && CoversOffset(segs[i], phoff + k)
    ensures phoff + k < |file|
    ensures Seen(space, file, segs, bias, Wrap(Start(segs[i], bias) + (phoff - segs[i].offset)) + k) == Some(file[phoff + k])
  {
    hide Start, Image, Seen;
    var s := segs[i];
    assert Within(s, bias) && s.filesz <= s.memsz;
    var a := Start(s, bias) + (phoff - s.offset) + k;
    assert InData(s, bias, a) && InMemory(s, bias, a);
    ImageCorrect(space, file, segs, bias, i, a);
  }
}
