/** The two intrusive lists of fs/bcache.c: a doubly linked LRU list and singly linked hash chains,
    both threaded through the buffers of a fixed pool.  A buffer is named by its index in the pool
    and -1 stands for null. */
module BufferLists {
  type Sector = seq<bv8>
  datatype Key = Key(dev: nat, lba: nat)

  datatype Buf = Buf(key: Key, data: Sector, dirty: bool, valid: bool, refcount: nat, prev: int, next: int, hashNext: int)

  datatype Lists = Lists(pool: seq<Buf>, hash: seq<int>, head: int, tail: int)

  /** Exclusive or of the low n bits. */
  function Xor(a: nat, b: nat, n: nat): (x: nat)
    ensures x < Power(n)
  {
    if n == 0 then 0 else (a + b) % 2 + 2 * Xor(a / 2, b / 2, n - 1)
  }

  function Power(n: nat): nat { if n == 0 then 1 else 2 * Power(n - 1) }

  /** hash_key: the low byte of the mixed device number and block address. */
  function Bucket(k: Key): (h: nat)
    ensures h < 256
  {
    assert Power(8) == 256;
    Xor(k.dev * 2654435761 % 256, k.lba * 2246822519 % 256, 8)
  }

  predicate Index(l: Lists, b: int) { 0 <= b < |l.pool| }

  // ---------------------------------------------------------------- LRU list

  function At(order: seq<int>, i: int): int {
    if 0 <= i < |order| then order[i] else -1
  }

  predicate Placed(l: Lists, order: seq<int>, i: nat)
    requires i < |order| && Index(l, order[i])
  {
    l.pool[order[i]].prev == At(order, i - 1) && l.pool[order[i]].next == At(order, i + 1)
  }

  predicate NoRepeat(s: seq<int>) {
    forall i, j :: 0 <= i < j < |s| ==> s[i] != s[j]
  }

  predicate InPool(l: Lists, s: seq<int>) {
    forall i :: 0 <= i < |s| ==> Index(l, s[i])
  }

  /** The links spell out order, from the most recently used buffer to the eviction candidate. */
  predicate LruOk(l: Lists, order: seq<int>) {
    && InPool(l, order) && NoRepeat(order)
    && l.head == At(order, 0) && l.tail == At(order, |order| - 1)
    && (forall i {:trigger Placed(l, order, i)} :: 0 <= i < |order| ==> Placed(l, order, i))
  }

  function SetPrev(l: Lists, b: int, p: int): Lists
    requires Index(l, b)
  {
    l.(pool := l.pool[b := l.pool[b].(prev := p)])
  }

  function SetNext(l: Lists, b: int, n: int): Lists
    requires Index(l, b)
  {
    l.(pool := l.pool[b := l.pool[b].(next := n)])
  }

  predicate LinksInPool(l: Lists, b: int) {
    Index(l, b) && -1 <= l.pool[b].prev < |l.pool| && -1 <= l.pool[b].next < |l.pool|
  }

  /** lru_remove */
  function LruRemove(l: Lists, b: int): Lists
    requires LinksInPool(l, b)
  {
    var p, n := l.pool[b].prev, l.pool[b].next;
    var l1 := if p >= 0 then SetNext(l, p, n) else l.(head := n);
    var l2 := if n >= 0 then SetPrev(l1, n, p) else l1.(tail := p);
    SetNext(SetPrev(l2, b, -1), b, -1)
  }

  /** lru_push_front */
  function LruPushFront(l: Lists, b: int): Lists
    requires Index(l, b) && -1 <= l.head < |l.pool|
  {
    var l1 := SetNext(SetPrev(l, b, -1), b, l.head);
    var l2 := if l.head >= 0 then SetPrev(l1, l.head, b) else l1;
    l2.(head := b, tail := if l.tail == -1 then b else l.tail)
  }

  function Without(order: seq<int>, k: nat): seq<int>
    requires k < |order|
  {
    order[..k] + order[k + 1..]
  }

  /** l' is l but for the LRU links. */
  predicate OnlyLru(l: Lists, l': Lists) {
    && l'.hash == l.hash && |l'.pool| == |l.pool|
    && forall b :: 0 <= b < |l.pool| ==> l'.pool[b] == l.pool[b].(prev := l'.pool[b].prev, next := l'.pool[b].next)
  }

  lemma Same(s: seq<int>, i: nat, j: nat)
    requires NoRepeat(s) && i < |s| && j < |s|
    ensures s[i] == s[j] <==> i == j
  {
  }

  lemma LinksKnown(l: Lists, order: seq<int>, k: nat)
    requires LruOk(l, order) && k < |order|
    ensures LinksInPool(l, order[k])
    ensures l.pool[order[k]].prev == At(order, k - 1) && l.pool[order[k]].next == At(order, k + 1)
  {
    hide NoRepeat;
    assert Placed(l, order, k);
  }

  /** Unlinking order[k] leaves every other element j between its remaining neighbours. */
  lemma RemovePlaces(l: Lists, order: seq<int>, k: nat, j: nat)
    requires LruOk(l, order) && NoRepeat(order) && k < |order| && j < |order| && j != k
    ensures LinksInPool(l, order[k]) && LinksInPool(l, order[j])
    ensures Placed(LruRemove(l, order[k]), Without(order, k), if j < k then j else j - 1)
  {
    hide LruOk, NoRepeat, InPool;
    LinksKnown(l, order, k);
    LinksKnown(l, order, j);
    Same(order, j, k);
    if k > 0 { Same(order, j, k - 1); Same(order, k, k - 1); LinksKnown(l, order, k - 1); }
    if k + 1 < |order| { Same(order, j, k + 1); Same(order, k, k + 1); LinksKnown(l, order, k + 1); }
    if 0 < k && k + 1 < |order| { Same(order, k - 1, k + 1); }
  }

  lemma LruRemoveOk(l: Lists, order: seq<int>, k: nat)
    requires LruOk(l, order) && k < |order|
    ensures LinksInPool(l, order[k])
    ensures LruOk(LruRemove(l, order[k]), Without(order, k)) && OnlyLru(l, LruRemove(l, order[k]))
  {
    hide LruRemove, Placed;
    LinksKnown(l, order, k);
    var order' := Without(order, k);
    var l' := LruRemove(l, order[k]);
    LruRemoveFrame(l, order, k);
    forall i | 0 <= i < |order'| ensures Placed(l', order', i) {
      RemovePlaces(l, order, k, if i < k then i else i + 1);
    }
  }

  lemma LruRemoveEnds(l: Lists, order: seq<int>, k: nat)
    requires LruOk(l, order) && k < |order| && LinksInPool(l, order[k])
    ensures LruRemove(l, order[k]).head == At(Without(order, k), 0)
    ensures LruRemove(l, order[k]).tail == At(Without(order, k), |order| - 2)
  {
    hide NoRepeat, Placed;
    LinksKnown(l, order, k);
  }

  lemma LruRemoveFrame(l: Lists, order: seq<int>, k: nat)
    requires LruOk(l, order) && k < |order|
    ensures LinksInPool(l, order[k])
    ensures OnlyLru(l, LruRemove(l, order[k]))
    ensures LruRemove(l, order[k]).head == At(Without(order, k), 0)
    ensures LruRemove(l, order[k]).tail == At(Without(order, k), |order| - 2)
  {
    hide NoRepeat, Placed, LruOk, At, Without;
    LinksKnown(l, order, k);
    LruRemoveEnds(l, order, k);
  }

  /** Pushing b moves every queued element one place down. */
  lemma PushPlaces(l: Lists, order: seq<int>, b: int, j: nat)
    requires LruOk(l, order) && NoRepeat(order) && Index(l, b) && b !in order && j < |order|
    requires l.head == order[0]
    ensures LinksInPool(l, order[j]) && LinksInPool(l, l.head)
    ensures Placed(LruPushFront(l, b), [b] + order, j + 1)
  {
    hide LruOk, NoRepeat, InPool;
    LinksKnown(l, order, j);
    LinksKnown(l, order, 0);
    Same(order, j, 0);
  }

  lemma LruPushOk(l: Lists, order: seq<int>, b: int)
    requires LruOk(l, order) && Index(l, b) && b !in order
    ensures -1 <= l.head < |l.pool|
    ensures LruOk(LruPushFront(l, b), [b] + order) && OnlyLru(l, LruPushFront(l, b))
  {
    hide Placed;
    var order' := [b] + order;
    if order != [] { LinksKnown(l, order, 0); }
    var l' := LruPushFront(l, b);
    PushedFirst(l, order, b);
    assert OnlyLru(l, l');
    forall i | 0 <= i < |order'| ensures Placed(l', order', i) {
      if i > 0 { PushPlaces(l, order, b, i - 1); }
    }
  }

  lemma PushedFirst(l: Lists, order: seq<int>, b: int)
    requires Index(l, b) && -1 <= l.head < |l.pool| && l.head == At(order, 0) && b !in order
    ensures Placed(LruPushFront(l, b), [b] + order, 0)
  {
  }

  // -------------------------------------------------------------- hash chains

  predicate Live(l: Lists, b: int) {
    Index(l, b) && l.pool[b].valid
  }

  predicate Linked(l: Lists, c: seq<int>, i: nat)
    requires i < |c|
  {
    Index(l, c[i]) && l.pool[c[i]].hashNext == At(c, i + 1)
  }

  predicate Home(l: Lists, c: seq<int>, h: nat, skip: int, b: int) {
    b in c <==> Live(l, b) && Bucket(l.pool[b].key) == h && b != skip
  }

  /** The chain of bucket h is c, and c holds exactly the valid buffers that hash to h, except skip. */
  ghost predicate ChainOk(l: Lists, c: seq<int>, h: nat, skip: int) {
    && h < |l.hash| && l.hash[h] == At(c, 0) && NoRepeat(c)
    && (forall i {:trigger Linked(l, c, i)} :: 0 <= i < |c| ==> Linked(l, c, i))
    && (forall b {:trigger Home(l, c, h, skip, b)} :: Home(l, c, h, skip, b))
  }

  /** Every valid buffer but skip is in the chain of its own bucket, once, and in no other chain. */
  ghost predicate HashOk(l: Lists, chains: seq<seq<int>>, skip: int) {
    && |l.hash| == 256 && |chains| == 256
    && forall h {:trigger chains[h]} :: 0 <= h < 256 ==> ChainOk(l, chains[h], h, skip)
  }

  predicate SameHashing(l: Lists, l': Lists) {
    && l'.hash == l.hash && |l'.pool| == |l.pool|
    && forall b :: 0 <= b < |l.pool| ==> HashFields(l'.pool[b]) == HashFields(l.pool[b])
  }

  function HashFields(b: Buf): (Key, bool, int) { (b.key, b.valid, b.hashNext) }

  lemma ChainFrame(l: Lists, l': Lists, c: seq<int>, h: nat, skip: int)
    requires ChainOk(l, c, h, skip) && SameHashing(l, l')
    ensures ChainOk(l', c, h, skip)
  {
    hide NoRepeat, Bucket;
    forall i | 0 <= i < |c| ensures Linked(l', c, i) { assert Linked(l, c, i); }
    forall b ensures Home(l', c, h, skip, b) { assert Home(l, c, h, skip, b); }
  }

  lemma HashFrame(l: Lists, l': Lists, chains: seq<seq<int>>, skip: int)
    requires HashOk(l, chains, skip) && SameHashing(l, l')
    ensures HashOk(l', chains, skip)
  {
    hide ChainOk, SameHashing;
    assert |l'.hash| == 256 by { SameHashes(l, l'); }
    forall h | 0 <= h < 256 ensures ChainOk(l', chains[h], h, skip) {
      ChainFrame(l, l', chains[h], h, skip);
    }
  }

  lemma SameHashes(l: Lists, l': Lists)
    requires SameHashing(l, l')
    ensures l'.hash == l.hash && |l'.pool| == |l.pool|
  {
  }

  /** hash_insert */
  function HashInsert(l: Lists, b: int): Lists
    requires Index(l, b) && |l.hash| == 256
  {
    var h := Bucket(l.pool[b].key);
    l.(pool := l.pool[b := l.pool[b].(hashNext := l.hash[h])], hash := l.hash[h := b])
  }

  lemma InsertChain(l: Lists, c: seq<int>, b: int)
    requires Live(l, b) && |l.hash| == 256
    requires ChainOk(l, c, Bucket(l.pool[b].key), b)
    ensures ChainOk(HashInsert(l, b), [b] + c, Bucket(l.pool[b].key), -1)
  {
    hide NoRepeat, Bucket;
    var h, l', c' := Bucket(l.pool[b].key), HashInsert(l, b), [b] + c;
    assert Home(l, c, h, b, b);
    AddsNoRepeat(c, b);
    forall i | 0 <= i < |c'| ensures Linked(l', c', i) {
      if i > 0 { assert Linked(l, c, i - 1); assert c'[i] == c[i - 1]; assert c[i - 1] in c; }
    }
    forall x ensures Home(l', c', h, -1, x) { assert Home(l, c, h, b, x); }
  }

  lemma AddsNoRepeat(c: seq<int>, b: int)
    requires NoRepeat(c) && b !in c
    ensures NoRepeat([b] + c)
  {
  }

  lemma InsertElsewhere(l: Lists, c: seq<int>, b: int, g: nat)
    requires Live(l, b) && |l.hash| == 256 && g < 256 && g != Bucket(l.pool[b].key)
    requires ChainOk(l, c, g, b)
    ensures ChainOk(HashInsert(l, b), c, g, -1)
  {
    hide NoRepeat, Bucket;
    var l' := HashInsert(l, b);
    assert Home(l, c, g, b, b);
    forall i | 0 <= i < |c| ensures Linked(l', c, i) { assert Linked(l, c, i); assert c[i] in c; }
    forall x ensures Home(l', c, g, -1, x) { assert Home(l, c, g, b, x); }
  }

  lemma HashInsertOk(l: Lists, chains: seq<seq<int>>, b: int)
    requires HashOk(l, chains, b) && Live(l, b)
    ensures var h := Bucket(l.pool[b].key);
            HashOk(HashInsert(l, b), chains[h := [b] + chains[h]], -1)
  {
    hide ChainOk;
    var h := Bucket(l.pool[b].key);
    InsertChain(l, chains[h], b);
    forall g | 0 <= g < 256 && g != h ensures ChainOk(HashInsert(l, b), chains[g], g, -1) {
      InsertElsewhere(l, chains[g], b, g);
    }
  }

  /** hash_remove, once the walk has found b at place k of its chain c: p is its predecessor or -1. */
  function HashUnlink(l: Lists, b: int, p: int): Lists
    requires Index(l, b) && -1 <= p < |l.pool| && |l.hash| == 256
  {
    var n := l.pool[b].hashNext;
    var l1 := if p < 0 then l.(hash := l.hash[Bucket(l.pool[b].key) := n])
              else l.(pool := l.pool[p := l.pool[p].(hashNext := n)]);
    l1.(pool := l1.pool[b := l1.pool[b].(hashNext := -1)])
  }

  lemma UnlinkLinks(l: Lists, c: seq<int>, h: nat, k: nat, j: nat)
    requires ChainOk(l, c, h, -1) && NoRepeat(c) && k < |c| && j < |c| && j != k
    requires |l.hash| == 256 && Index(l, c[k]) && -1 <= At(c, k - 1) < |l.pool|
    ensures Linked(HashUnlink(l, c[k], At(c, k - 1)), Without(c, k), if j < k then j else j - 1)
  {
    hide ChainOk, NoRepeat, Bucket;
    ChainAt(l, c, h, j);
    ChainAt(l, c, h, k);
    Same(c, j, k);
    if k > 0 { Same(c, j, k - 1); Same(c, k, k - 1); }
  }

  lemma ChainAt(l: Lists, c: seq<int>, h: nat, j: nat)
    requires ChainOk(l, c, h, -1) && j < |c|
    ensures Linked(l, c, j) && Live(l, c[j]) && Bucket(l.pool[c[j]].key) == h
  {
    hide NoRepeat, Bucket;
    assert Home(l, c, h, -1, c[j]);
  }

  lemma WithoutNoRepeat(c: seq<int>, k: nat)
    requires NoRepeat(c) && k < |c|
    ensures NoRepeat(Without(c, k))
    ensures forall x :: x in Without(c, k) <==> x in c && x != c[k]
  {
    forall x ensures x in Without(c, k) <==> x in c && x != c[k] {
      if x in c && x != c[k] {
        var i :| 0 <= i < |c| && c[i] == x;
        assert Without(c, k)[if i < k then i else i - 1] == x;
      }
    }
  }

  lemma UnlinkChain(l: Lists, c: seq<int>, h: nat, k: nat)
    requires ChainOk(l, c, h, -1) && k < |c| && |l.hash| == 256
    ensures Live(l, c[k]) && -1 <= At(c, k - 1) < |l.pool|
    ensures ChainOk(HashUnlink(l, c[k], At(c, k - 1)), Without(c, k), h, c[k])
  {
    hide NoRepeat, Bucket;
    ChainAt(l, c, h, k);
    if k > 0 { ChainAt(l, c, h, k - 1); }
    var b, p := c[k], At(c, k - 1);
    var l', c' := HashUnlink(l, b, p), Without(c, k);
    WithoutNoRepeat(c, k);
    assert Linked(l, c, k);
    forall i | 0 <= i < |c'| ensures Linked(l', c', i) {
      UnlinkLinks(l, c, h, k, if i < k then i else i + 1);
    }
    forall x ensures Home(l', c', h, b, x) { assert Home(l, c, h, -1, x); }
  }

  lemma UnlinkElsewhere(l: Lists, c: seq<int>, g: nat, b: int, p: int)
    requires ChainOk(l, c, g, -1) && |l.hash| == 256
    requires Live(l, b) && g != Bucket(l.pool[b].key)
    requires p == -1 || (Live(l, p) && Bucket(l.pool[p].key) == Bucket(l.pool[b].key))
    ensures ChainOk(HashUnlink(l, b, p), c, g, b)
  {
    hide NoRepeat, Bucket;
    var l' := HashUnlink(l, b, p);
    forall i | 0 <= i < |c| ensures Linked(l', c, i) { ChainAt(l, c, g, i); }
    forall x ensures Home(l', c, g, b, x) { assert Home(l, c, g, -1, x); }
  }

  lemma HashUnlinkOk(l: Lists, chains: seq<seq<int>>, h: nat, k: nat)
    requires HashOk(l, chains, -1) && h < 256 && k < |chains[h]|
    ensures var c := chains[h];
            && Live(l, c[k]) && -1 <= At(c, k - 1) < |l.pool|
            && HashOk(HashUnlink(l, c[k], At(c, k - 1)), chains[h := Without(c, k)], c[k])
  {
    hide ChainOk;
    var c := chains[h];
    UnlinkChain(l, c, h, k);
    ChainAt(l, c, h, k);
    if k > 0 { ChainAt(l, c, h, k - 1); }
    forall g | 0 <= g < 256 && g != h ensures ChainOk(HashUnlink(l, c[k], At(c, k - 1)), chains[g], g, c[k]) {
      UnlinkElsewhere(l, chains[g], g, c[k], At(c, k - 1));
    }
  }
}
