/** What the buffer cache means: a plain disk.  The view is the disk a client believes in, the value
    last written to each sector; the cache and the real disk together must always spell it out. */
module BufferView {
  import opened BufferLists

  /** devices: the registered devices; unreadable and unwritable: sectors whose transfers fail now;
      order and chains: the LRU and hash lists spelled out; stale: sectors whose dirty mark was
      dropped because their device was gone when they were written back. */
  datatype World = World(l: Lists, disk: map<Key, Sector>,
                         devices: set<nat>, unreadable: set<Key>, unwritable: set<Key>,
                         order: seq<int>, chains: seq<seq<int>>, view: map<Key, Sector>, stale: set<Key>)

  predicate Covers(l: Lists, order: seq<int>, skip: int) {
    skip !in order && forall b {:trigger b in order} :: 0 <= b < |l.pool| && b != skip ==> b in order
  }

  predicate HasKey(l: Lists, b: int, k: Key) {
    Live(l, b) && l.pool[b].key == k
  }

  ghost predicate Cached(l: Lists, k: Key) {
    exists b :: HasKey(l, b, k)
  }

  ghost predicate Unique(l: Lists) {
    forall a, b {:trigger Live(l, a), Live(l, b)} ::
      Live(l, a) && Live(l, b) && l.pool[a].key == l.pool[b].key ==> a == b
  }

  predicate Idle(b: Buf) {
    !b.valid ==> b.refcount == 0 && !b.dirty
  }

  predicate AllIdle(l: Lists) {
    forall b :: 0 <= b < |l.pool| ==> Idle(l.pool[b])
  }

  predicate Faithful(w: World, b: Buf) {
    && b.key in w.disk && b.key in w.view && b.data == w.view[b.key]
    && (b.dirty || b.key in w.stale || w.disk[b.key] == b.data)
  }

  ghost predicate Coherent(w: World) {
    && w.view.Keys == w.disk.Keys
    && (forall b {:trigger Live(w.l, b)} :: Live(w.l, b) ==> Faithful(w, w.l.pool[b]))
    && (forall k {:trigger k in w.disk} :: k in w.disk && !Cached(w.l, k) ==> w.disk[k] == w.view[k])
  }

  /** The state between calls (skip is -1) or while get holds the buffer skip outside the LRU list. */
  ghost predicate Ok(w: World, skip: int) {
    && |w.l.pool| == 512
    && LruOk(w.l, w.order) && Covers(w.l, w.order, skip)
    && HashOk(w.l, w.chains, -1) && Unique(w.l) && AllIdle(w.l) && Coherent(w)
  }

  predicate Writable(w: World, k: Key) {
    k.dev in w.devices && k !in w.unwritable
  }

  /** Every device is present and accepts writes, and nothing was abandoned so far. */
  ghost predicate Healthy(w: World) {
    w.stale == {} && forall k {:trigger Writable(w, k)} :: k in w.disk ==> Writable(w, k)
  }

  // ---------------------------------------------------------------- write back

  function SetDirty(l: Lists, b: int, d: bool): Lists
    requires Index(l, b)
  {
    l.(pool := l.pool[b := l.pool[b].(dirty := d)])
  }

  /** writeback */
  function WriteBack(w: World, b: int): World
    requires Index(w.l, b)
  {
    var k := w.l.pool[b].key;
    if k.dev !in w.devices then w.(l := SetDirty(w.l, b, false), stale := w.stale + {k})
    else if k in w.unwritable then w
    else w.(l := SetDirty(w.l, b, false), disk := w.disk[k := w.l.pool[b].data], stale := w.stale - {k})
  }

  /** l' is l but for data, dirty marks and counts: no link and no key moved. */
  predicate SameLinks(l: Lists, l': Lists) {
    && l'.hash == l.hash && l'.head == l.head && l'.tail == l.tail && |l'.pool| == |l.pool|
    && forall b :: 0 <= b < |l.pool| ==> LinkFields(l'.pool[b]) == LinkFields(l.pool[b])
  }

  function LinkFields(b: Buf): (Key, bool, int, int, int) { (b.key, b.valid, b.prev, b.next, b.hashNext) }

  lemma LinksFrame(l: Lists, l': Lists, order: seq<int>)
    requires SameLinks(l, l') && LruOk(l, order)
    ensures LruOk(l', order) && SameHashing(l, l')
  {
    hide NoRepeat;
    forall i | 0 <= i < |order| ensures Placed(l', order, i) { assert Placed(l, order, i); }
  }

  lemma LiveFrame(l: Lists, l': Lists)
    requires SameLinks(l, l')
    ensures forall b {:trigger Live(l', b)} :: Live(l', b) <==> Live(l, b)
    ensures Unique(l) ==> Unique(l')
    ensures forall k {:trigger Cached(l', k)} :: Cached(l', k) <==> Cached(l, k)
  {
    forall k ensures Cached(l', k) <==> Cached(l, k) {
      if Cached(l, k) { var b :| HasKey(l, b, k); assert HasKey(l', b, k); }
      if Cached(l', k) { var b :| HasKey(l', b, k); assert HasKey(l, b, k); }
    }
  }

  /** Everything but coherence survives a step that leaves the links alone. */
  lemma StructureFrame(w: World, w': World, skip: int)
    requires Ok(w, skip) && SameLinks(w.l, w'.l) && w'.order == w.order && w'.chains == w.chains
    requires AllIdle(w'.l) && Coherent(w')
    ensures Ok(w', skip)
  {
    hide LruOk, HashOk, Unique, AllIdle, Coherent, SameLinks, SameHashing;
    LinksFrame(w.l, w'.l, w.order);
    HashFrame(w.l, w'.l, w.chains, -1);
    LiveFrame(w.l, w'.l);
    SameHashes(w.l, w'.l);
  }

  lemma WriteBackCoherent(w: World, b: int)
    requires Coherent(w) && Unique(w.l) && Live(w.l, b)
    ensures Coherent(WriteBack(w, b)) && SameLinks(w.l, WriteBack(w, b).l)
  {
    hide Cached;
    var w' := WriteBack(w, b);
    var k := w.l.pool[b].key;
    assert Faithful(w, w.l.pool[b]);
    LiveFrame(w.l, w'.l);
    forall x | Live(w'.l, x) ensures Faithful(w', w'.l.pool[x]) {
      assert Live(w.l, x) && Faithful(w, w.l.pool[x]);
      assert x != b ==> w.l.pool[x].key != k;
    }
    CachedBy(w.l, b, k);
    forall x | x in w'.disk && !Cached(w'.l, x) ensures w'.disk[x] == w'.view[x] {
      assert x != k;
    }
  }

  lemma CachedBy(l: Lists, b: int, k: Key)
    requires HasKey(l, b, k)
    ensures Cached(l, k)
  {
  }

  lemma WriteBackOk(w: World, b: int, skip: int)
    requires Ok(w, skip) && Live(w.l, b)
    ensures Ok(WriteBack(w, b), skip) && SameLinks(w.l, WriteBack(w, b).l)
    ensures Healthy(w) ==> Healthy(WriteBack(w, b))
    ensures w.l.pool[b].key in w.disk
    ensures Writable(w, w.l.pool[b].key) ==>
              var w', k := WriteBack(w, b), w.l.pool[b].key;
              !w'.l.pool[b].dirty && w'.disk[k] == w.view[k] && k !in w'.stale
  {
    WriteBackCoherent(w, b);
    var w' := WriteBack(w, b);
    WriteBackIdle(w, b);
    StructureFrame(w, w', skip) by { hide *; }
    assert Faithful(w, w.l.pool[b]);
    WriteBackHealthy(w, b);
  }

  lemma WriteBackIdle(w: World, b: int)
    requires AllIdle(w.l) && Index(w.l, b)
    ensures AllIdle(WriteBack(w, b).l)
  {
  }

  lemma WriteBackHealthy(w: World, b: int)
    requires Index(w.l, b) && w.l.pool[b].key in w.disk
    ensures Healthy(w) ==> Healthy(WriteBack(w, b))
  {
    var w' := WriteBack(w, b);
    if Healthy(w) {
      assert Writable(w, w.l.pool[b].key);
      forall k | k in w'.disk ensures Writable(w', k) { assert Writable(w, k); }
    }
  }

  // ----------------------------------------------------- moving in the LRU list

  function Core(b: Buf): (Key, Sector, bool, bool, nat) { (b.key, b.data, b.dirty, b.valid, b.refcount) }

  /** Only the lists moved: every buffer holds what it held. */
  predicate SameCore(l: Lists, l': Lists) {
    |l'.pool| == |l.pool| && forall b :: 0 <= b < |l.pool| ==> Core(l'.pool[b]) == Core(l.pool[b])
  }

  lemma CoreFrame(w: World, w': World)
    requires SameCore(w.l, w'.l) && w'.disk == w.disk && w'.view == w.view && w'.stale == w.stale
    requires Unique(w.l) && AllIdle(w.l) && Coherent(w)
    ensures Unique(w'.l) && AllIdle(w'.l) && Coherent(w')
  {
    forall b ensures Live(w'.l, b) <==> Live(w.l, b) {}
    forall b | Live(w'.l, b) ensures Faithful(w', w'.l.pool[b]) { assert Live(w.l, b); }
    forall k | k in w'.disk && !Cached(w'.l, k) ensures w'.disk[k] == w'.view[k] {
      if Cached(w.l, k) { var b :| HasKey(w.l, b, k); assert HasKey(w'.l, b, k); }
    }
  }

  function Unhook(w: World, i: nat): World
    requires i < |w.order| && LinksInPool(w.l, w.order[i])
  {
    w.(l := LruRemove(w.l, w.order[i]), order := Without(w.order, i))
  }

  function Push(w: World, b: int): World
    requires Index(w.l, b) && -1 <= w.l.head < |w.l.pool|
  {
    w.(l := LruPushFront(w.l, b), order := [b] + w.order)
  }

  lemma OnlyLruMeans(l: Lists, l': Lists)
    requires OnlyLru(l, l')
    ensures SameCore(l, l') && SameHashing(l, l')
  {
  }

  lemma UnhookOk(w: World, i: nat)
    requires Ok(w, -1) && i < |w.order|
    ensures LinksInPool(w.l, w.order[i]) && Ok(Unhook(w, i), w.order[i]) && OnlyLru(w.l, Unhook(w, i).l)
  {
    hide LruOk, HashOk, Unique, AllIdle, Coherent, OnlyLru, SameCore, SameHashing;
    LruRemoveOk(w.l, w.order, i);
    var w' := Unhook(w, i);
    OnlyLruMeans(w.l, w'.l);
    CoreFrame(w, w');
    HashFrame(w.l, w'.l, w.chains, -1);
    UnhookCovers(w, i);
    SameHashes(w.l, w'.l);
  }

  lemma UnhookCovers(w: World, i: nat)
    requires LruOk(w.l, w.order) && Covers(w.l, w.order, -1) && i < |w.order|
    ensures forall l: Lists :: |l.pool| == |w.l.pool| ==> Covers(l, Without(w.order, i), w.order[i])
  {
    WithoutNoRepeat(w.order, i);
  }

  lemma PushOk(w: World, b: int)
    requires Ok(w, b) && Index(w.l, b)
    ensures -1 <= w.l.head < |w.l.pool| && Ok(Push(w, b), -1) && OnlyLru(w.l, Push(w, b).l)
  {
    hide LruOk, HashOk, Unique, AllIdle, Coherent, OnlyLru, SameCore, SameHashing;
    LruPushOk(w.l, w.order, b);
    var w' := Push(w, b);
    OnlyLruMeans(w.l, w'.l);
    CoreFrame(w, w');
    HashFrame(w.l, w'.l, w.chains, -1);
    SameHashes(w.l, w'.l);
    PushCovers(w, b);
  }

  lemma PushCovers(w: World, b: int)
    requires LruOk(w.l, w.order) && Covers(w.l, w.order, b) && Index(w.l, b)
    ensures forall l: Lists :: |l.pool| == |w.l.pool| ==> Covers(l, [b] + w.order, -1)
  {
    forall i | 0 <= i < |w.order| ensures w.order[i] != -1 { assert Index(w.l, w.order[i]); }
  }

  // -------------------------------------------------------------- dropping a buffer

  function Emptied(b: Buf, key: Key): Buf { b.(valid := false, dirty := false, refcount := 0, key := key) }

  /** hash_remove, lru_remove and the clearing of the fields; p is b's predecessor in its chain. */
  function DropLists(l: Lists, b: int, p: int, key: Key): Lists
    requires LinksInPool(l, b) && -1 <= p < |l.pool| && |l.hash| == 256
  {
    var l1 := if l.pool[b].valid then HashUnlink(l, b, p) else l;
    var l2 := LruRemove(l1, b);
    l2.(pool := l2.pool[b := Emptied(l2.pool[b], key)])
  }

  /** The world without buffer order[i], whose place in its chain is k: whatever the disk holds for
      its sector is what a client sees from now on. */
  function Drop(w: World, i: nat, k: nat, key: Key): World
    requires i < |w.order| && LinksInPool(w.l, w.order[i]) && |w.l.hash| == 256 && |w.chains| == 256
    requires var b := w.order[i];
             w.l.pool[b].valid ==>
               var c := w.chains[Bucket(w.l.pool[b].key)];
               w.l.pool[b].key in w.disk && k < |c| && -1 <= At(c, k - 1) < |w.l.pool|
  {
    var b := w.order[i];
    var old_ := w.l.pool[b].key;
    var h := Bucket(old_);
    if w.l.pool[b].valid then
      World(DropLists(w.l, b, At(w.chains[h], k - 1), key), w.disk, w.devices, w.unreadable, w.unwritable,
            Without(w.order, i), w.chains[h := Without(w.chains[h], k)], w.view[old_ := w.disk[old_]], w.stale - {old_})
    else
      w.(l := DropLists(w.l, b, -1, key), order := Without(w.order, i))
  }

  predicate SameLru(l: Lists, l': Lists) {
    && l'.head == l.head && l'.tail == l.tail && |l'.pool| == |l.pool|
    && forall b :: 0 <= b < |l.pool| ==> l'.pool[b].prev == l.pool[b].prev && l'.pool[b].next == l.pool[b].next
  }

  lemma LruFrame(l: Lists, l': Lists, order: seq<int>)
    requires SameLru(l, l') && LruOk(l, order)
    ensures LruOk(l', order)
  {
    hide NoRepeat;
    forall i | 0 <= i < |order| ensures Placed(l', order, i) { assert Placed(l, order, i); }
  }

  predicate OthersKeepCore(l: Lists, l': Lists, b: int) {
    |l'.pool| == |l.pool| && forall x :: 0 <= x < |l.pool| && x != b ==> Core(l'.pool[x]) == Core(l.pool[x])
  }

  lemma DropListsOk(l: Lists, order: seq<int>, i: nat, p: int, key: Key)
    requires LruOk(l, order) && i < |order| && -1 <= p < |l.pool| && |l.hash| == 256
    ensures LinksInPool(l, order[i])
    ensures var l' := DropLists(l, order[i], p, key);
            LruOk(l', Without(order, i)) && OthersKeepCore(l, l', order[i]) && !l'.pool[order[i]].valid
            && Idle(l'.pool[order[i]])
  {
    hide LruOk, LruRemove;
    var b := order[i];
    LinksKnown(l, order, i);
    var l1 := if l.pool[b].valid then HashUnlink(l, b, p) else l;
    assert SameLru(l, l1) && SameCore(l, l1);
    LruFrame(l, l1, order);
    LruRemoveOk(l1, order, i);
    var l2 := LruRemove(l1, b);
    OnlyLruMeans(l1, l2);
    var l3 := DropLists(l, b, p, key);
    assert SameLru(l2, l3);
    LruFrame(l2, l3, Without(order, i));
  }

  lemma DropHash(l: Lists, order: seq<int>, chains: seq<seq<int>>, i: nat, k: nat, key: Key)
    requires LruOk(l, order) && i < |order| && HashOk(l, chains, -1)
    requires LinksInPool(l, order[i])
    requires l.pool[order[i]].valid ==> At(chains[Bucket(l.pool[order[i]].key)], k) == order[i]
    ensures var b := order[i];
            var h := Bucket(l.pool[b].key);
            && (l.pool[b].valid ==>
                  -1 <= At(chains[h], k - 1) < |l.pool|
                  && HashOk(DropLists(l, b, At(chains[h], k - 1), key), chains[h := Without(chains[h], k)], -1))
            && (!l.pool[b].valid ==> HashOk(DropLists(l, b, -1, key), chains, -1))
  {
    hide LruOk, HashOk, LruRemove, OnlyLru, SameHashing, Bucket, HashUnlink;
    HashSizes(l, chains);
    var b := order[i];
    var h := Bucket(l.pool[b].key);
    if l.pool[b].valid {
      HashUnlinkOk(l, chains, h, k);
      var p := At(chains[h], k - 1);
      UnlinkFrame(l, b, p);
      var l1 := HashUnlink(l, b, p);
      LruFrame(l, l1, order);
      DropTail(l1, order, chains[h := Without(chains[h], k)], i, key);
    } else {
      SkipInvalid(l, chains, b);
      DropTail(l, order, chains, i, key);
    }
  }

  lemma HashSizes(l: Lists, chains: seq<seq<int>>)
    requires HashOk(l, chains, -1)
    ensures |l.hash| == 256 && |chains| == 256
  {
  }

  lemma UnlinkFrame(l: Lists, b: int, p: int)
    requires Index(l, b) && -1 <= p < |l.pool| && |l.hash| == 256
    ensures SameLru(l, HashUnlink(l, b, p)) && SameCore(l, HashUnlink(l, b, p))
  {
  }

  /** A buffer that is not valid is in no chain, so leaving it out makes no difference. */
  lemma SkipInvalid(l: Lists, chains: seq<seq<int>>, b: int)
    requires !Live(l, b)
    ensures HashOk(l, chains, -1) <==> HashOk(l, chains, b)
  {
    hide Bucket, NoRepeat;
    forall h | 0 <= h < |chains| ensures ChainOk(l, chains[h], h, -1) <==> ChainOk(l, chains[h], h, b) {
      assert forall x :: !Live(l, -1) && (Home(l, chains[h], h, -1, x) <==> Home(l, chains[h], h, b, x));
      if ChainOk(l, chains[h], h, -1) {
        forall x ensures Home(l, chains[h], h, b, x) { assert Home(l, chains[h], h, -1, x); }
      }
      if ChainOk(l, chains[h], h, b) {
        forall x ensures Home(l, chains[h], h, -1, x) { assert Home(l, chains[h], h, b, x); }
      }
    }
  }

  lemma DropTail(l1: Lists, order: seq<int>, chains: seq<seq<int>>, i: nat, key: Key)
    requires LruOk(l1, order) && i < |order| && HashOk(l1, chains, order[i])
    ensures LinksInPool(l1, order[i])
    ensures var l2 := LruRemove(l1, order[i]);
            HashOk(l2.(pool := l2.pool[order[i] := Emptied(l2.pool[order[i]], key)]), chains, -1)
  {
    hide LruOk, HashOk, LruRemove, OnlyLru, SameHashing;
    LruRemoveOk(l1, order, i);
    var b, l2 := order[i], LruRemove(l1, order[i]);
    OnlyLruMeans(l1, l2);
    SameHashes(l1, l2);
    HashFrame(l1, l2, chains, b);
    var l3 := l2.(pool := l2.pool[b := Emptied(l2.pool[b], key)]);
    EmptiedHash(l2, chains, b, key);
    SkipInvalid(l3, chains, b);
  }

  lemma EmptiedHash(l: Lists, chains: seq<seq<int>>, b: int, key: Key)
    requires Index(l, b) && HashOk(l, chains, b)
    ensures HashOk(l.(pool := l.pool[b := Emptied(l.pool[b], key)]), chains, b)
  {
    hide Bucket, NoRepeat;
    var l' := l.(pool := l.pool[b := Emptied(l.pool[b], key)]);
    forall h | 0 <= h < 256 ensures ChainOk(l', chains[h], h, b) {
      assert ChainOk(l, chains[h], h, b);
      forall x ensures Home(l', chains[h], h, b, x) { assert Home(l, chains[h], h, b, x); }
      forall i | 0 <= i < |chains[h]| ensures Linked(l', chains[h], i) { assert Linked(l, chains[h], i); }
    }
  }

  predicate DropReady(w: World, i: nat, k: nat) {
    && i < |w.order| && Index(w.l, w.order[i]) && |w.chains| == 256
    && (w.l.pool[w.order[i]].valid ==> At(w.chains[Bucket(w.l.pool[w.order[i]].key)], k) == w.order[i])
  }

  lemma DropFits(w: World, i: nat, k: nat)
    requires Ok(w, -1) && DropReady(w, i, k)
    ensures LinksInPool(w.l, w.order[i]) && |w.l.hash| == 256 && |w.chains| == 256
    ensures var b := w.order[i];
            w.l.pool[b].valid ==>
              var c := w.chains[Bucket(w.l.pool[b].key)];
              w.l.pool[b].key in w.disk && k < |c| && -1 <= At(c, k - 1) < |w.l.pool|
  {
    hide LruOk, HashOk, Unique, AllIdle, Bucket;
    LinksKnown(w.l, w.order, i);
    HashSizes(w.l, w.chains);
    var b := w.order[i];
    if w.l.pool[b].valid {
      HashUnlinkOk(w.l, w.chains, Bucket(w.l.pool[b].key), k);
      assert Live(w.l, b) && Faithful(w, w.l.pool[b]);
    }
  }

  /** w' is w without the buffer at order[i]. */
  ghost predicate Dropped(w: World, w': World, i: nat, k: nat, key: Key)
    requires Ok(w, -1) && DropReady(w, i, k)
  {
    DropFits(w, i, k);
    w' == Drop(w, i, k, key)
  }

  lemma DropCoherent(w: World, w': World, b: int)
    requires Coherent(w) && Unique(w.l) && AllIdle(w.l) && Index(w.l, b)
    requires OthersKeepCore(w.l, w'.l, b) && !w'.l.pool[b].valid && Idle(w'.l.pool[b]) && w'.disk == w.disk
    requires Live(w.l, b) ==>
               w.l.pool[b].key in w.disk && w'.view == w.view[w.l.pool[b].key := w.disk[w.l.pool[b].key]]
               && w'.stale == w.stale - {w.l.pool[b].key}
    requires !Live(w.l, b) ==> w'.view == w.view && w'.stale == w.stale
    ensures Coherent(w') && Unique(w'.l) && AllIdle(w'.l)
  {
    forall x | Live(w'.l, x) ensures Live(w.l, x) && x != b && Faithful(w', w'.l.pool[x]) {
      assert Live(w.l, x) && Faithful(w, w.l.pool[x]);
    }
    forall k | k in w'.disk && !Cached(w'.l, k) ensures w'.disk[k] == w'.view[k] {
      if Cached(w.l, k) {
        var x :| HasKey(w.l, x, k);
        assert x != b ==> HasKey(w'.l, x, k);
      }
    }
  }

  lemma DropOk(w: World, i: nat, k: nat, key: Key)
    requires Ok(w, -1) && DropReady(w, i, k)
    ensures LinksInPool(w.l, w.order[i]) && |w.l.hash| == 256 && |w.chains| == 256
    ensures var b := w.order[i];
            w.l.pool[b].valid ==>
              var c := w.chains[Bucket(w.l.pool[b].key)];
              w.l.pool[b].key in w.disk && k < |c| && -1 <= At(c, k - 1) < |w.l.pool|
    ensures Ok(Drop(w, i, k, key), w.order[i])
    ensures var l' := Drop(w, i, k, key).l; OthersKeepCore(w.l, l', w.order[i]) && !Live(l', w.order[i])
  {
    hide LruOk, HashOk, Unique, AllIdle, Coherent, OthersKeepCore, DropLists, Bucket;
    DropFits(w, i, k);
    var b := w.order[i];
    var w' := Drop(w, i, k, key);
    var p := if w.l.pool[b].valid then At(w.chains[Bucket(w.l.pool[b].key)], k - 1) else -1;
    DropListsOk(w.l, w.order, i, p, key);
    DropHash(w.l, w.order, w.chains, i, k, key);
    DropCoherent(w, w', b);
    UnhookCovers(w, i);
    assert |w'.l.pool| == |w.l.pool| by { OthersMeans(w.l, w'.l, b); }
  }

  lemma OthersMeans(l: Lists, l': Lists, b: int)
    requires OthersKeepCore(l, l', b)
    ensures |l'.pool| == |l.pool|
  {
  }

  // ------------------------------------------------------------- loading a sector

  function Loaded(b: Buf, k: Key, data: Sector): Buf {
    b.(key := k, data := data, valid := true, dirty := false, refcount := 1)
  }

  function LoadLists(l: Lists, b: int, k: Key, data: Sector): Lists
    requires Index(l, b) && |l.hash| == 256
  {
    HashInsert(l.(pool := l.pool[b := Loaded(l.pool[b], k, data)]), b)
  }

  function Load(w: World, b: int, k: Key): World
    requires Index(w.l, b) && |w.l.hash| == 256 && |w.chains| == 256 && k in w.disk
  {
    w.(l := LoadLists(w.l, b, k, w.disk[k]), chains := w.chains[Bucket(k) := [b] + w.chains[Bucket(k)]])
  }

  lemma LoadHash(l: Lists, chains: seq<seq<int>>, b: int, k: Key, data: Sector)
    requires Index(l, b) && !l.pool[b].valid && HashOk(l, chains, -1)
    ensures HashOk(LoadLists(l, b, k, data), chains[Bucket(k) := [b] + chains[Bucket(k)]], -1)
  {
    hide NoRepeat, Bucket, HashOk;
    HashSizes(l, chains);
    SkipInvalid(l, chains, b);
    var l' := l.(pool := l.pool[b := Loaded(l.pool[b], k, data)]);
    LoadedHash(l, chains, b, k, data);
    HashInsertOk(l', chains, b);
  }

  lemma LoadedHash(l: Lists, chains: seq<seq<int>>, b: int, k: Key, data: Sector)
    requires Index(l, b) && HashOk(l, chains, b)
    ensures HashOk(l.(pool := l.pool[b := Loaded(l.pool[b], k, data)]), chains, b)
  {
    hide NoRepeat, Bucket;
    var l' := l.(pool := l.pool[b := Loaded(l.pool[b], k, data)]);
    forall h | 0 <= h < 256 ensures ChainOk(l', chains[h], h, b) {
      assert ChainOk(l, chains[h], h, b);
      forall x ensures Home(l', chains[h], h, b, x) { assert Home(l, chains[h], h, b, x); }
      forall i | 0 <= i < |chains[h]| ensures Linked(l', chains[h], i) { assert Linked(l, chains[h], i); }
    }
  }

  lemma LoadCoherent(w: World, w': World, b: int, k: Key)
    requires Coherent(w) && Unique(w.l) && AllIdle(w.l) && Index(w.l, b) && !w.l.pool[b].valid
    requires k in w.disk && !Cached(w.l, k)
    requires OthersKeepCore(w.l, w'.l, b) && Core(w'.l.pool[b]) == (k, w.disk[k], false, true, 1)
    requires w'.disk == w.disk && w'.view == w.view && w'.stale == w.stale
    ensures Coherent(w') && Unique(w'.l) && AllIdle(w'.l)
  {
    assert w.disk[k] == w.view[k];
    forall x | Live(w'.l, x) ensures x != b ==> Live(w.l, x) && w.l.pool[x].key != k {
      assert x != b ==> Live(w.l, x) && !HasKey(w.l, x, k);
    }
    forall x | Live(w'.l, x) ensures Faithful(w', w'.l.pool[x]) {
      assert x != b ==> Faithful(w, w.l.pool[x]);
    }
    forall j | j in w'.disk && !Cached(w'.l, j) ensures w'.disk[j] == w'.view[j] {
      if Cached(w.l, j) { var x :| HasKey(w.l, x, j); assert HasKey(w'.l, x, j); }
    }
  }

  lemma LoadOk(w: World, b: int, k: Key)
    requires Ok(w, b) && Index(w.l, b) && !w.l.pool[b].valid && k in w.disk && !Cached(w.l, k)
    ensures |w.l.hash| == 256 && |w.chains| == 256 && Ok(Load(w, b, k), b)
    ensures OthersKeepCore(w.l, Load(w, b, k).l, b)
  {
    hide LruOk, HashOk, Unique, AllIdle, Coherent, Bucket;
    HashSizes(w.l, w.chains);
    var w' := Load(w, b, k);
    LoadHash(w.l, w.chains, b, k, w.disk[k]);
    assert SameLru(w.l, w'.l);
    LruFrame(w.l, w'.l, w.order);
    LoadCoherent(w, w', b, k);
  }

  // ------------------------------------------------------------------ client steps

  /** A client overwrites the buffer it holds and marks it dirty: the view takes the new value. */
  function Write(w: World, b: int, data: Sector): World
    requires Index(w.l, b)
  {
    w.(l := w.l.(pool := w.l.pool[b := w.l.pool[b].(data := data, dirty := true)]),
       view := w.view[w.l.pool[b].key := data], stale := w.stale - {w.l.pool[b].key})
  }

  lemma WriteOk(w: World, b: int, data: Sector)
    requires Ok(w, -1) && Live(w.l, b)
    ensures Ok(Write(w, b, data), -1)
  {
    hide LruOk, HashOk;
    var w' := Write(w, b, data);
    WriteCoherent(w, b, data);
    StructureFrame(w, w', -1);
  }

  lemma WriteCoherent(w: World, b: int, data: Sector)
    requires Coherent(w) && Unique(w.l) && AllIdle(w.l) && Live(w.l, b)
    ensures Coherent(Write(w, b, data)) && AllIdle(Write(w, b, data).l) && SameLinks(w.l, Write(w, b, data).l)
  {
    hide Cached;
    var w', k := Write(w, b, data), w.l.pool[b].key;
    LiveFrame(w.l, w'.l);
    assert Faithful(w, w.l.pool[b]);
    forall x | Live(w'.l, x) ensures Faithful(w', w'.l.pool[x]) {
      assert Live(w.l, x) && Faithful(w, w.l.pool[x]);
      assert x != b ==> w.l.pool[x].key != k;
    }
    CachedBy(w.l, b, k);
  }

  function SetCount(w: World, b: int, n: nat): World
    requires Index(w.l, b)
  {
    w.(l := w.l.(pool := w.l.pool[b := w.l.pool[b].(refcount := n)]))
  }

  lemma SetCountOk(w: World, b: int, n: nat)
    requires Ok(w, -1) && Index(w.l, b) && (w.l.pool[b].valid || n == 0)
    ensures Ok(SetCount(w, b, n), -1)
  {
    hide LruOk, HashOk;
    var w' := SetCount(w, b, n);
    LiveFrame(w.l, w'.l);
    CountCoherent(w, b, n);
    StructureFrame(w, w', -1);
  }

  lemma CountCoherent(w: World, b: int, n: nat)
    requires Coherent(w) && Unique(w.l) && Index(w.l, b)
    ensures Coherent(SetCount(w, b, n)) && SameLinks(w.l, SetCount(w, b, n).l)
  {
    hide Cached;
    var w' := SetCount(w, b, n);
    LiveFrame(w.l, w'.l);
    forall x | Live(w'.l, x) ensures Faithful(w', w'.l.pool[x]) {
      assert Live(w.l, x) && Faithful(w, w.l.pool[x]);
    }
  }

  // --------------------------------------------------------------------- eviction

  /** The victim is the unpinned buffer nearest the tail. */
  predicate IsVictim(w: World, b: int) {
    && Index(w.l, b) && w.l.pool[b].refcount == 0
    && exists i {:trigger w.order[i]} :: 0 <= i < |w.order| && w.order[i] == b && PinnedFrom(w, i + 1)
  }

  predicate Pinned(l: Lists, b: int) {
    Index(l, b) && l.pool[b].refcount > 0
  }

  predicate PinnedFrom(w: World, i: nat) {
    forall j {:trigger w.order[j]} :: i <= j < |w.order| ==> Pinned(w.l, w.order[j])
  }

  /** The disk after a victim was written back, if it was dirty and the write went through. */
  function DiskAfter(w: World, b: int): map<Key, Sector>
    requires Index(w.l, b)
  {
    var v := w.l.pool[b];
    if v.valid && v.dirty && Writable(w, v.key) then w.disk[v.key := v.data] else w.disk
  }

  /** s' is s without b. */
  predicate Removed(s: seq<int>, b: int, s': seq<int>) {
    exists i {:trigger s[i]} :: 0 <= i < |s| && s[i] == b && s' == Without(s, i)
  }

  /** b comes first and the others keep their order. */
  predicate MovedFirst(s: seq<int>, b: int, s': seq<int>) {
    s' != [] && s'[0] == b && Removed(s, b, s'[1..])
  }

  predicate Evicted(w: World, w': World, b: int) {
    && Index(w.l, b) && Removed(w.order, b, w'.order) && OthersKeepCore(w.l, w'.l, b) && !Live(w'.l, b)
    && w'.devices == w.devices && w'.unreadable == w.unreadable && w'.unwritable == w.unwritable
    && w'.disk == DiskAfter(w, b) && w'.disk.Keys == w.disk.Keys
    && (!Live(w.l, b) ==> w'.view == w.view && w'.stale == w.stale)
    && (Live(w.l, b) ==>
          var k := w.l.pool[b].key;
          k in w'.disk && w'.view == w.view[k := w'.disk[k]] && w'.stale == w.stale - {k})
  }

  lemma EvictedIs(w: World, w1: World, w': World, i: nat, k: nat, key: Key)
    requires Ok(w, -1) && i < |w.order| && Index(w.l, w.order[i])
    requires w1 == if w.l.pool[w.order[i]].dirty then WriteBack(w, w.order[i]) else w
    requires Ok(w1, -1) && DropReady(w1, i, k)
    requires Dropped(w1, w', i, k, key)
    ensures Evicted(w, w', w.order[i])
  {
    hide LruOk, HashOk, Unique, Coherent, Bucket, DropLists;
    var b := w.order[i];
    assert Idle(w.l.pool[b]);
    DropOk(w1, i, k, key);
    DropFits(w1, i, k);
    if w.l.pool[b].valid { LiveKeyOnDisk(w, b); }
  }

  lemma LiveKeyOnDisk(w: World, b: int)
    requires Ok(w, -1) && Live(w.l, b)
    ensures Faithful(w, w.l.pool[b])
  {
    hide LruOk, HashOk, Unique, AllIdle;
  }

  /** Eviction leaves the view alone exactly when the victim is empty, is dirty and can be written, or
      already agrees with the disk. */
  lemma EvictKeepsViewIff(w: World, w': World, b: int)
    requires Ok(w, -1) && Evicted(w, w', b)
    ensures w'.view == w.view <==>
              var v := w.l.pool[b];
              !v.valid || (v.dirty && Writable(w, v.key)) || (v.key in w.disk && w.disk[v.key] == v.data)
  {
    hide LruOk, HashOk, Unique, AllIdle;
    var v := w.l.pool[b];
    if v.valid {
      LiveKeyOnDisk(w, b);
      assert w'.view[v.key] == w'.disk[v.key];
      if w'.disk[v.key] == v.data { assert w.view[v.key := v.data] == w.view; }
    }
  }

  lemma EvictHealthy(w: World, w': World, b: int)
    requires Ok(w, -1) && Evicted(w, w', b) && Healthy(w)
    ensures w'.view == w.view && Healthy(w')
  {
    hide LruOk, HashOk, Unique, AllIdle;
    var v := w.l.pool[b];
    if v.valid { LiveKeyOnDisk(w, b); assert Writable(w, v.key); }
    EvictKeepsViewIff(w, w', b);
    forall k | k in w'.disk ensures Writable(w', k) { assert Writable(w, k); }
  }

  /** No other sector is affected, in particular none that is not cached. */
  lemma EvictOthers(w: World, w': World, b: int, k: Key)
    requires Ok(w, -1) && Evicted(w, w', b) && !Cached(w.l, k)
    ensures !Cached(w'.l, k) && SameSector(w.disk, w'.disk, k)
    ensures k in w.disk ==> k in w.view && k in w'.view && w'.view[k] == w.view[k] && w'.disk[k] == w.disk[k]
  {
    hide LruOk, HashOk, Unique, AllIdle;
    forall x ensures !HasKey(w'.l, x, k) { assert !HasKey(w.l, x, k); }
    if Live(w.l, b) { assert HasKey(w.l, b, w.l.pool[b].key); }
  }

  // ------------------------------------------------------------------ lookup results

  predicate SameEnvironment(w: World, w': World) {
    w'.devices == w.devices && w'.unreadable == w.unreadable && w'.unwritable == w.unwritable
  }

  /** A lookup of sector k leaves it alone on the disk. */
  predicate SameSector(disk: map<Key, Sector>, disk': map<Key, Sector>, k: Key) {
    disk'.Keys == disk.Keys && (k in disk ==> disk'[k] == disk[k])
  }

  /** A hit: b gains a pin and moves to the front, and nothing else happens. */
  predicate Touched(w: World, w': World, b: int) {
    && SameEnvironment(w, w') && w'.disk == w.disk && w'.view == w.view && w'.stale == w.stale
    && Index(w.l, b) && OthersKeepCore(w.l, w'.l, b)
    && w'.l.pool[b].valid == w.l.pool[b].valid && w'.l.pool[b].key == w.l.pool[b].key
    && w'.l.pool[b].data == w.l.pool[b].data && w'.l.pool[b].dirty == w.l.pool[b].dirty
    && w'.l.pool[b].refcount == w.l.pool[b].refcount + 1 && MovedFirst(w.order, b, w'.order)
  }

  lemma TouchOk(w: World, b: int, i: nat)
    requires Ok(w, -1) && Live(w.l, b) && At(w.order, i) == b
    ensures var w1 := SetCount(w, b, w.l.pool[b].refcount + 1);
            && LinksInPool(w1.l, b) && Index(Unhook(w1, i).l, b) && -1 <= Unhook(w1, i).l.head < |w.l.pool|
            && |Unhook(w1, i).l.pool| == |w.l.pool|
            && Ok(Push(Unhook(w1, i), b), -1) && Touched(w, Push(Unhook(w1, i), b), b)
  {
    hide Ok, LruRemove, LruPushFront;
    var w1 := SetCount(w, b, w.l.pool[b].refcount + 1);
    SetCountOk(w, b, w.l.pool[b].refcount + 1);
    UnhookOk(w1, i);
    var w2 := Unhook(w1, i);
    PushOk(w2, b);
    assert Push(w2, b).order[1..] == Without(w.order, i);
  }

  /** A miss that was filled: b now holds the sector as the disk has it, pinned once. */
  predicate Filled(w: World, w': World, b: int, k: Key) {
    && SameEnvironment(w, w') && w'.disk == w.disk && w'.view == w.view && w'.stale == w.stale
    && Index(w.l, b) && OthersKeepCore(w.l, w'.l, b) && k in w.disk
    && Core(w'.l.pool[b]) == (k, w.disk[k], false, true, 1) && w'.order == [b] + w.order
  }

  lemma FillOk(w: World, b: int, k: Key)
    requires Ok(w, b) && Index(w.l, b) && !w.l.pool[b].valid && k in w.disk && !Cached(w.l, k)
    ensures |w.l.hash| == 256 && |w.chains| == 256
    ensures var w1 := Load(w, b, k);
            && Index(w1.l, b) && -1 <= w1.l.head < |w1.l.pool|
            && Ok(Push(w1, b), -1) && Filled(w, Push(w1, b), b, k)
  {
    hide Ok, LruPushFront, Bucket;
    LoadOk(w, b, k);
    PushOk(Load(w, b, k), b);
  }

  /** What a lookup may change: pinned buffers other than the result stay as they are, and no other
      buffer becomes pinned. */
  ghost predicate KeepsPinned(l: Lists, l': Lists, r: int) {
    && |l'.pool| == |l.pool|
    && (forall b {:trigger Pinned(l, b)} :: Pinned(l, b) && b != r ==> Core(l'.pool[b]) == Core(l.pool[b]))
    && (forall b {:trigger Pinned(l', b)} :: Pinned(l', b) && b != r ==> Pinned(l, b))
  }

  /** A lookup that failed to read: the victim is evicted and goes to the front, empty. */
  ghost predicate Recycled(w: World, w': World) {
    exists v, w1 {:trigger Evicted(w, w1, v)} ::
      && IsVictim(w, v) && Evicted(w, w1, v) && w'.order == [v] + w1.order && SameCore(w1.l, w'.l)
      && w'.disk == w1.disk && w'.view == w1.view && w'.stale == w1.stale
  }

  lemma EvictKeepsPinned(w: World, w': World, b: int)
    requires Evicted(w, w', b) && w.l.pool[b].refcount == 0 && AllIdle(w'.l)
    ensures KeepsPinned(w.l, w'.l, -1)
  {
    assert Idle(w'.l.pool[b]);
  }

  lemma PinnedSelf(l: Lists)
    ensures KeepsPinned(l, l, -1)
  {
  }

  lemma PinnedSame(l: Lists, l1: Lists, l': Lists)
    requires KeepsPinned(l, l1, -1) && SameCore(l1, l')
    ensures KeepsPinned(l, l', -1)
  {
    forall b | Pinned(l', b) ensures Pinned(l1, b) { assert Core(l'.pool[b]) == Core(l1.pool[b]); }
  }

  lemma PinnedFilled(l: Lists, w1: World, w': World, r: int, k: Key)
    requires KeepsPinned(l, w1.l, -1) && Filled(w1, w', r, k)
    ensures KeepsPinned(l, w'.l, r)
  {
    forall b | Pinned(w'.l, b) && b != r ensures Pinned(w1.l, b) { assert Core(w'.l.pool[b]) == Core(w1.l.pool[b]); }
  }

  lemma FillHealthy(w: World, w': World, b: int, k: Key)
    requires Filled(w, w', b, k)
    ensures Healthy(w) ==> Healthy(w')
  {
    if Healthy(w) { forall j | j in w'.disk ensures Writable(w', j) { assert Writable(w, j); } }
  }

  /** The buffer of a failed read goes back unused. */
  lemma ReturnOk(w: World, b: int)
    requires Ok(w, b) && Index(w.l, b)
    ensures -1 <= w.l.head < |w.l.pool| && Ok(Push(w, b), -1) && SameCore(w.l, Push(w, b).l)
    ensures Healthy(w) ==> Healthy(Push(w, b))
  {
    hide Ok, LruPushFront;
    PushOk(w, b);
    if Healthy(w) { forall j | j in w.disk ensures Writable(Push(w, b), j) { assert Writable(w, j); } }
  }

  predicate AllPinned(l: Lists) {
    forall b :: 0 <= b < |l.pool| ==> Pinned(l, b)
  }

  lemma VictimNotPinned(w: World, b: int)
    requires IsVictim(w, b)
    ensures !AllPinned(w.l)
  {
    assert !Pinned(w.l, b);
  }

  // -------------------------------------------------------------------- flushing

  /** Which sectors a flush is about: those of dev, or all of them. */
  predicate Picked(every: bool, dev: nat, k: Key) {
    every || k.dev == dev
  }

  predicate SweptOne(w: World, b: Buf, every: bool, dev: nat) {
    b.valid && Picked(every, dev, b.key) && Writable(w, b.key) ==> !b.dirty
  }

  /** The first i buffers were written back where they were picked, dirty and writable. */
  ghost predicate Swept(w: World, w': World, i: nat, every: bool, dev: nat) {
    && Ok(w', -1) && SameEnvironment(w, w') && w'.view == w.view && SameLinks(w.l, w'.l)
    && w'.disk.Keys == w.disk.Keys && w'.order == w.order && (Healthy(w) ==> Healthy(w'))
    && (forall k :: k in w'.stale && k.dev in w.devices ==> k in w.stale)
    && (forall b :: 0 <= b < i && b < |w'.l.pool| ==> SweptOne(w, w'.l.pool[b], every, dev))
  }

  lemma SweepStep(w: World, w': World, i: nat, every: bool, dev: nat)
    requires Swept(w, w', i, every, dev) && Live(w'.l, i)
    ensures Swept(w, WriteBack(w', i), i + 1, every, dev)
  {
    hide Ok, Healthy, SameLinks;
    WriteBackOk(w', i, -1);
    var w2 := WriteBack(w', i);
    LinksTransitive(w.l, w'.l, w2.l);
    forall b | 0 <= b < i + 1 && b < |w2.l.pool| ensures SweptOne(w, w2.l.pool[b], every, dev) {
      assert b < i ==> SweptOne(w, w'.l.pool[b], every, dev);
    }
  }

  lemma LinksTransitive(l: Lists, l': Lists, l2: Lists)
    requires SameLinks(l, l') && SameLinks(l', l2)
    ensures SameLinks(l, l2)
  {
  }

  lemma SweepSkip(w: World, w': World, i: nat, every: bool, dev: nat)
    requires Swept(w, w', i, every, dev) && i < |w'.l.pool|
    requires !(w'.l.pool[i].valid && w'.l.pool[i].dirty && Picked(every, dev, w'.l.pool[i].key))
    ensures Swept(w, w', i + 1, every, dev)
  {
    hide Ok, Healthy, SameLinks;
  }

  /** After a whole sweep, every picked sector that accepts writes is on the disk as clients see it. */
  lemma SweepDone(w: World, w': World, every: bool, dev: nat)
    requires Swept(w, w', 512, every, dev)
    ensures forall k :: k in w'.disk && Picked(every, dev, k) && Writable(w, k) && k !in w.stale ==>
              k in w'.view && w'.disk[k] == w'.view[k]
    ensures every && Healthy(w) ==> w'.disk == w'.view
  {
    hide LruOk, HashOk, Unique, AllIdle, SameLinks;
    forall k | k in w'.disk && Picked(every, dev, k) && Writable(w, k) && k !in w.stale
      ensures k in w'.view && w'.disk[k] == w'.view[k]
    {
      if Cached(w'.l, k) {
        var b :| HasKey(w'.l, b, k);
        assert SweptOne(w, w'.l.pool[b], every, dev);
        assert Faithful(w', w'.l.pool[b]);
      }
    }
    if every && Healthy(w) {
      forall k | k in w'.disk ensures w'.disk[k] == w'.view[k] { assert Writable(w, k); }
    }
  }

  // ---------------------------------------------------------------- invalidation

  predicate Foreign(b: Buf, dev: nat) {
    b.valid ==> b.key.dev != dev
  }

  /** The first i buffers no longer hold sectors of dev; buffers of other devices are as they were. */
  ghost predicate Purged(w: World, w': World, i: nat, dev: nat) {
    && Ok(w', -1) && SameEnvironment(w, w') && w'.disk.Keys == w.disk.Keys && |w'.l.pool| == |w.l.pool|
    && (Healthy(w) ==> Healthy(w') && w'.view == w.view)
    && (forall k :: k in w.view && k in w'.view && k.dev != dev ==> w'.view[k] == w.view[k])
    && (forall b :: 0 <= b < i && b < |w'.l.pool| ==> Foreign(w'.l.pool[b], dev))
    && (forall b :: 0 <= b < |w.l.pool| && Foreign(w.l.pool[b], dev) ==> Core(w'.l.pool[b]) == Core(w.l.pool[b]))
  }

  lemma PurgeStep(w: World, w1: World, w2: World, w3: World, i: nat, dev: nat)
    requires Purged(w, w1, i, dev) && Live(w1.l, i) && w1.l.pool[i].key.dev == dev
    requires Evicted(w1, w2, i) && Ok(w2, i)
    requires Ok(w3, -1) && SameCore(w2.l, w3.l) && SameEnvironment(w2, w3) && w3.disk == w2.disk
    requires w3.view == w2.view && w3.stale == w2.stale
    ensures Purged(w, w3, i + 1, dev)
  {
    hide Ok, IsVictim;
    if Healthy(w) {
      EvictHealthy(w1, w2, i);
      forall k | k in w3.disk ensures Writable(w3, k) { assert Writable(w2, k); }
    }
    assert !Foreign(w1.l.pool[i], dev);
    assert !Foreign(w.l.pool[i], dev) by { PurgedFacts(w, w1, i, dev, i); }
    forall b | 0 <= b < |w.l.pool| && Foreign(w.l.pool[b], dev) ensures Core(w3.l.pool[b]) == Core(w.l.pool[b]) {
      assert b != i;
    }
    ViewKeys(w1, -1);
    ViewKeys(w2, i);
  }

  lemma ViewKeys(w: World, skip: int)
    requires Ok(w, skip)
    ensures w.view.Keys == w.disk.Keys
  {
  }

  lemma PurgedFacts(w: World, w': World, i: nat, dev: nat, b: nat)
    requires Purged(w, w', i, dev) && b < |w.l.pool| && !Foreign(w'.l.pool[b], dev)
    ensures !Foreign(w.l.pool[b], dev)
  {
  }

  // -------------------------------------------------------------- a fresh cache

  function BlankBuf(): Buf { Buf(Key(0, 0), [], false, false, 0, -1, -1, -1) }

  predicate Blank(b: Buf) { !b.valid && b.refcount == 0 && !b.dirty }

  lemma EmptyOk(w: World)
    requires |w.l.pool| == 512 && |w.l.hash| == 256 && w.chains == seq(256, _ => [])
    requires forall h :: 0 <= h < 256 ==> w.l.hash[h] == -1
    requires forall b :: 0 <= b < 512 ==> Blank(w.l.pool[b])
    requires LruOk(w.l, w.order) && Covers(w.l, w.order, -1) && w.view == w.disk
    ensures Ok(w, -1)
  {
    hide LruOk, Bucket;
    forall h | 0 <= h < 256 ensures ChainOk(w.l, w.chains[h], h, -1) {
      forall b ensures Home(w.l, w.chains[h], h, -1, b) {}
    }
  }

  /** The first i buffers are linked, the last one pushed in front. */
  ghost predicate Building(l: Lists, order: seq<int>, i: nat) {
    && |l.pool| == 512 && i <= 512 && LruOk(l, order)
    && (forall b {:trigger b in order} :: b in order <==> 0 <= b < i)
    && (forall b :: 0 <= b < 512 ==> Blank(l.pool[b]))
  }

  lemma BuildStep(l: Lists, order: seq<int>, i: nat)
    requires Building(l, order, i) && i < 512
    ensures -1 <= l.head < |l.pool| && Building(LruPushFront(l, i), [i] + order, i + 1)
    ensures LruPushFront(l, i).hash == l.hash
  {
    hide LruOk, LruPushFront;
    LruPushOk(l, order, i);
    var l' := LruPushFront(l, i);
    OnlyLruMeans(l, l');
  }

  lemma BuildDone(l: Lists, order: seq<int>)
    requires Building(l, order, 512)
    ensures Covers(l, order, -1)
  {
  }
}
