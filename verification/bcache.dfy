/** fs/bcache.c: a pool of 512 sector buffers with hash lookup, LRU replacement, pins and dirty marks. */
module BlockCache {
  import opened BufferLists
  import opened BufferView

  class BufferCache {
    const pool: array<Buf>
    const hash: array<int>
    var head: int
    var tail: int
    var disk: map<Key, Sector>
    var devices: set<nat>
    var unreadable: set<Key>
    var unwritable: set<Key>
    ghost var order: seq<int>
    ghost var chains: seq<seq<int>>
    ghost var view: map<Key, Sector>
    ghost var stale: set<Key>

    ghost function W(): World
      reads this, pool, hash
    {
      World(Lists(pool[..], hash[..], head, tail), disk, devices, unreadable, unwritable, order, chains, view, stale)
    }

    ghost predicate Valid()
      reads this, pool, hash
    {
      Ok(W(), -1)
    }

    /** bcache_init */
    constructor (disk: map<Key, Sector>, devices: set<nat>)
      ensures Valid() && fresh(pool) && fresh(hash)
      ensures this.disk == disk == view && this.devices == devices
      ensures unreadable == {} && unwritable == {} && stale == {}
      ensures forall b :: 0 <= b < pool.Length ==> !pool[b].valid
    {
      pool := new Buf[512](_ => BlankBuf());
      hash := new int[256](_ => -1);
      head, tail := -1, -1;
      this.disk, this.devices, unreadable, unwritable := disk, devices, {}, {};
      order, chains, view, stale := [], seq(256, _ => []), disk, {};
      new;
      for i := 0 to 512
        invariant Building(W().l, order, i)
        invariant forall h :: 0 <= h < 256 ==> hash[h] == -1
        modifies pool, `head, `tail, `order
      {
        BuildStep(W().l, order, i);
        LruPush(i);
        order := [i] + order;
      }
      BuildDone(W().l, order);
      EmptyOk(W());
    }

    // ------------------------------------------------------------------- lists

    method LruUnlink(b: int)
      requires LinksInPool(W().l, b)
      modifies pool, `head, `tail
      ensures W() == old(W()).(l := LruRemove(old(W().l), b))
    {
      var p, n := pool[b].prev, pool[b].next;
      if p >= 0 { pool[p] := pool[p].(next := n); } else { head := n; }
      if n >= 0 { pool[n] := pool[n].(prev := p); } else { tail := p; }
      pool[b] := pool[b].(prev := -1);
      pool[b] := pool[b].(next := -1);
    }

    method LruPush(b: int)
      requires Index(W().l, b) && -1 <= head < pool.Length
      modifies pool, `head, `tail
      ensures W() == old(W()).(l := LruPushFront(old(W().l), b))
    {
      pool[b] := pool[b].(prev := -1);
      pool[b] := pool[b].(next := head);
      if head >= 0 { pool[head] := pool[head].(prev := b); }
      head := b;
      if tail == -1 { tail := b; }
    }

    method HashLink(b: int)
      requires Index(W().l, b) && hash.Length == 256
      modifies pool, hash
      ensures W() == old(W()).(l := HashInsert(old(W().l), b))
    {
      var h := Bucket(pool[b].key);
      pool[b] := pool[b].(hashNext := hash[h]);
      hash[h] := b;
    }

    /** Walks b's chain to the place k where it is and unlinks it there; an invalid buffer is in no chain. */
    method HashRemove(b: int) returns (ghost k: nat)
      requires Valid() && Index(W().l, b)
      modifies pool, hash
      ensures |old(W()).l.hash| == 256 && |chains| == 256
      ensures !old(pool[b].valid) ==> W() == old(W())
      ensures old(pool[b].valid) ==>
                var c := chains[Bucket(old(pool[b].key))];
                At(c, k) == b && -1 <= At(c, k - 1) < pool.Length
                && W() == old(W()).(l := HashUnlink(old(W().l), b, At(c, k - 1)))
    {
      hide LruOk, Covers, Unique, AllIdle, Coherent, Bucket, ChainOk;
      k := 0;
      if !pool[b].valid { return; }
      var h := Bucket(pool[b].key);
      ghost var c := chains[h];
      ghost var l := W().l;
      assert b in c by { InOwnChain(l, chains, b); }
      var p, cur := -1, hash[h];
      assert cur == At(c, 0) by { ChainHead(l, c, h); }
      while cur != -1 && cur != b
        invariant k <= |c| && cur == At(c, k) && p == At(c, k - 1) && -1 <= p < pool.Length
        invariant b in c[k..]
        invariant W() == old(W())
        decreases |c| - k
      {
        ChainAt(l, c, h, k);
        p, cur := cur, pool[cur].hashNext;
        k := k + 1;
      }
      if k < |c| { ChainAt(l, c, h, k); }
      if cur == b {
        if p < 0 { hash[h] := pool[b].hashNext; } else { pool[p] := pool[p].(hashNext := pool[b].hashNext); }
      }
      pool[b] := pool[b].(hashNext := -1);
    }

    // -------------------------------------------------------------- replacement

    method Writeback(b: int)
      requires Valid() && Live(W().l, b)
      modifies pool, `disk, `stale
      ensures W() == WriteBack(old(W()), b) && Valid()
    {
      hide Ok;
      ghost var w := W();
      WriteBackOk(w, b, -1);
      var k := pool[b].key;
      if k.dev !in devices {
        pool[b] := pool[b].(dirty := false);
        stale := stale + {k};
      } else if k !in unwritable {
        disk := disk[k := pool[b].data];
        pool[b] := pool[b].(dirty := false);
        stale := stale - {k};
      }
      assert W() == WriteBack(w, b);
    }

    /** Takes b out of both lists and empties it (an evicted buffer's count is 0 already). */
    method Discard(b: int, key: Key) returns (ghost i: nat, ghost k: nat)
      requires Valid() && Index(W().l, b)
      modifies this, pool, hash
      ensures i < |old(order)| && old(order)[i] == b && DropReady(old(W()), i, k) && Dropped(old(W()), W(), i, k, key)
      ensures Ok(W(), b)
    {
      hide LruOk, HashOk, Unique, AllIdle, Coherent, Bucket, LruRemove, HashUnlink;
      ghost var w := W();
      assert b in order;
      i :| 0 <= i < |order| && order[i] == b;
      LinksKnown(w.l, order, i);
      k := HashRemove(b);
      DropOk(w, i, k, key);
      assert LinksInPool(W().l, b) by { UnlinkKeepsLinks(w, i, k); }
      LruUnlink(b);
      pool[b] := Emptied(pool[b], key);
      ghost var w' := Drop(w, i, k, key);
      order, chains, view, stale := w'.order, w'.chains, w'.view, w'.stale;
      assert W() == w';
    }

    method EvictOne() returns (victim: int)
      requires Valid()
      modifies this, pool, hash
      ensures victim == -1 ==> W() == old(W()) && forall b :: 0 <= b < pool.Length ==> pool[b].refcount > 0
      ensures victim != -1 ==> IsVictim(old(W()), victim) && Evicted(old(W()), W(), victim) && Ok(W(), victim)
    {
      hide LruOk, HashOk, Unique, AllIdle, Coherent, WriteBack, Evicted;
      ghost var w := W();
      ghost var j := |order| - 1;
      victim := tail;
      assert tail == At(order, j) && InPool(w.l, order) by { TailIs(w); }
      while victim != -1
        invariant -1 <= j < |order| && victim == At(order, j) && PinnedFrom(w, j + 1)
        invariant W() == w
        decreases j
      {
        LinksKnown(w.l, order, j);
        if pool[victim].refcount == 0 { break; }
        victim := pool[victim].prev;
        j := j - 1;
      }
      if victim == -1 {
        forall b | 0 <= b < pool.Length ensures pool[b].refcount > 0 {
          assert b in order;
        }
        return;
      }
      if pool[victim].dirty { DirtyIsLive(w, victim); Writeback(victim); }
      ghost var w1 := W();
      assert w1.order == w.order && |w1.l.pool| == |w.l.pool| by { WriteBackFrame(w, victim); }
      ghost var i, k := Discard(victim, Key(0, 0));
      assert i == j by { SamePlace(w, i, j); }
      EvictedIs(w, w1, W(), i, k, Key(0, 0));
    }

    // ------------------------------------------------------------------- lookup

    /** bcache_get, the hit branch. */
    method Touch(b: int)
      requires Valid() && Live(W().l, b)
      modifies this, pool
      ensures Valid() && Touched(old(W()), W(), b)
    {
      hide Ok, LruRemove, LruPushFront;
      ghost var w := W();
      ghost var i := PlaceOf(w, b);
      TouchOk(w, b, i);
      pool[b] := pool[b].(refcount := pool[b].refcount + 1);
      ghost var w1 := SetCount(w, b, w.l.pool[b].refcount + 1);
      assert W() == w1;
      LruUnlink(b);
      order := Without(order, i);
      assert W() == Unhook(w1, i);
      LruPush(b);
      order := [b] + order;
      assert W() == Push(Unhook(w1, i), b);
    }

    /** Fills the free buffer b from the device and puts it in both lists. */
    method Fill(b: int, key: Key)
      requires Ok(W(), b) && Index(W().l, b) && !pool[b].valid && key in disk && !Cached(W().l, key)
      modifies this, pool, hash
      ensures Valid() && Filled(old(W()), W(), b, key)
    {
      hide Ok, LruPushFront, HashInsert, Bucket, Cached;
      ghost var w := W();
      FillOk(w, b, key);
      pool[b] := Loaded(pool[b], key, disk[key]);
      HashLink(b);
      chains := chains[Bucket(key) := [b] + chains[Bucket(key)]];
      assert W() == Load(w, b, key);
      LruPush(b);
      order := [b] + order;
      assert W() == Push(Load(w, b, key), b);
    }

    /** bcache_get, the miss branch. */
    method Miss(key: Key) returns (r: int)
      requires Valid() && !Cached(W().l, key)
      modifies this, pool, hash
      ensures Valid() && SameEnvironment(old(W()), W()) && SameSector(old(disk), disk, key)
      ensures r == -1 <==> AllPinned(old(W().l)) || key !in old(disk) || key in unreadable
      ensures r != -1 ==>
                HasKey(W().l, r, key) && key in old(view) && key in view && pool[r].data == old(view)[key] == view[key]
                && pool[r].refcount == 1 && MovedFirst(old(order), r, order) && IsVictim(old(W()), r)
      ensures r == -1 && !AllPinned(old(W().l)) ==> Recycled(old(W()), W())
      ensures KeepsPinned(old(W().l), W().l, r)
      ensures Healthy(old(W())) ==> Healthy(W()) && view == old(view)
    {
      hide Ok, Evicted, IsVictim, LruPushFront, HashInsert, Bucket, Healthy, Cached, KeepsPinned;
      ghost var w := W();
      PinnedSelf(w.l);
      r := EvictOne();
      if r == -1 { return; }
      ghost var w1 := W();
      EvictOthers(w, w1, r, key);
      VictimFacts(w, w1, r);
      if key !in disk || key in unreadable {
        ReturnOk(w1, r);
        LruPush(r);
        order := [r] + order;
        assert W() == Push(w1, r);
        PinnedSame(w.l, w1.l, W().l);
        r := -1;
        return;
      }
      SeenOnDisk(w1, r, key);
      Fill(r, key);
      assert order[1..] == w1.order && Removed(w.order, r, w1.order) by { EvictedOrder(w, w1, r); }
      FillHealthy(w1, W(), r, key);
      PinnedFilled(w.l, w1, W(), r, key);
    }

    /** The buffer holding (dev, lba), pinned once more, or -1 when there is no buffer or no data. */
    method Get(dev: nat, lba: nat) returns (r: int)
      requires Valid()
      modifies this, pool, hash
      ensures Valid() && SameEnvironment(old(W()), W()) && SameSector(old(disk), disk, Key(dev, lba))
      ensures r == -1 <==> !Cached(old(W().l), Key(dev, lba)) &&
                           (AllPinned(old(W().l)) || Key(dev, lba) !in old(disk) || Key(dev, lba) in unreadable)
      ensures r != -1 ==>
                var k := Key(dev, lba);
                HasKey(W().l, r, k) && k in old(view) && k in view && pool[r].data == old(view)[k] == view[k]
                && pool[r].refcount == (if HasKey(old(W().l), r, k) then old(pool[r].refcount) else 0) + 1
                && MovedFirst(old(order), r, order)
      ensures r != -1 && !HasKey(old(W().l), r, Key(dev, lba)) ==> IsVictim(old(W()), r)
      ensures r == -1 && !AllPinned(old(W().l)) ==> Recycled(old(W()), W())
      ensures KeepsPinned(old(W().l), W().l, r)
      ensures Cached(old(W().l), Key(dev, lba)) ==> view == old(view)
      ensures Healthy(old(W())) ==> Healthy(W()) && view == old(view)
    {
      hide LruOk, Covers, Unique, AllIdle, Coherent, Bucket, ChainOk, Healthy, Cached, IsVictim, Recycled, KeepsPinned;
      ghost var w := W();
      var key := Key(dev, lba);
      var h := Bucket(key);
      ghost var c := chains[h];
      ghost var i := 0;
      var b := hash[h];
      assert b == At(c, 0) by { ChainHead(w.l, c, h); }
      while b != -1
        invariant i <= |c| && b == At(c, i) && W() == w
        invariant forall j :: 0 <= j < i ==> !HasKey(w.l, c[j], key)
        decreases |c| - i
      {
        ChainAt(w.l, c, h, i);
        if pool[b].key == key && pool[b].valid {
          HitFacts(w, b, key);
          Touch(b);
          TouchedFacts(w, W(), b);
          return b;
        }
        b := pool[b].hashNext;
        i := i + 1;
      }
      if i < |c| { ChainAt(w.l, c, h, i); }
      NotInChain(w.l, chains, key);
      r := Miss(key);
      NewToKey(w.l, r, key);
    }

    // ------------------------------------------------------------- held buffers

    /** A client's update of a buffer it holds, with bcache_mark_dirty. */
    method Update(b: int, data: Sector)
      requires Valid() && Live(W().l, b) && pool[b].refcount > 0
      modifies pool, `view, `stale
      ensures Valid() && W() == Write(old(W()), b, data)
      ensures pool[b] == old(pool[b]).(data := data, dirty := true) && view == old(view)[pool[b].key := data] && disk == old(disk)
    {
      hide Ok;
      ghost var w := W();
      WriteOk(w, b, data);
      pool[b] := pool[b].(data := data, dirty := true);
      view, stale := view[pool[b].key := data], stale - {pool[b].key};
      assert W() == Write(w, b, data);
    }

    method Release(b: int)
      requires Valid() && -1 <= b < pool.Length
      modifies pool, `disk, `stale
      ensures Valid() && view == old(view)
      ensures b == -1 ==> W() == old(W())
      ensures b != -1 ==>
                var n := old(pool[b].refcount);
                var w := SetCount(old(W()), b, if n > 0 then n - 1 else 0);
                W() == if n <= 1 && old(pool[b].dirty) then WriteBack(w, b) else w
      ensures b != -1 && (old(pool[b].refcount) > 1 || !old(pool[b].dirty)) ==> disk == old(disk)
      ensures b != -1 && old(pool[b].refcount) <= 1 && old(pool[b].dirty) && Writable(old(W()), old(pool[b].key)) ==>
                var k := pool[b].key;
                !pool[b].dirty && k in disk && k in view && disk[k] == view[k] && k !in stale
      ensures Healthy(old(W())) ==> Healthy(W())
    {
      hide Ok, WriteBack, Healthy;
      if b == -1 { return; }
      ghost var w := W();
      ghost var w1 := SetCount(w, b, if pool[b].refcount > 0 then pool[b].refcount - 1 else 0);
      if pool[b].refcount > 0 { pool[b] := pool[b].(refcount := pool[b].refcount - 1); }
      assert W() == w1;
      CountReleased(w, b);
      if pool[b].refcount == 0 && pool[b].dirty {
        DirtyIsLive(w1, b);
        WriteBackOk(w1, b, -1);
        SavedOnDisk(w1, b);
        Writeback(b);
      }
    }

    // ----------------------------------------------------------------- flushing

    method FlushDev(dev: nat)
      requires Valid()
      modifies pool, `disk, `stale
      ensures Valid() && Swept(old(W()), W(), 512, false, dev)
      ensures forall k :: k in disk && k.dev == dev && Writable(W(), k) && k !in old(stale) ==>
                k in view && disk[k] == view[k]
    {
      hide Ok, Healthy, WriteBack;
      ghost var w := W();
      assert pool.Length == 512 by { PoolSize(w); }
      NothingSwept(w, false, dev);
      for i := 0 to 512
        invariant Swept(w, W(), i, false, dev)
        invariant order == w.order && chains == w.chains
      {
        if pool[i].valid && pool[i].dirty && pool[i].key.dev == dev {
          SweepStep(w, W(), i, false, dev);
          Writeback(i);
        } else {
          SweepSkip(w, W(), i, false, dev);
        }
      }
      SweepDone(w, W(), false, dev);
    }

    method SyncAll()
      requires Valid()
      modifies pool, `disk, `stale
      ensures Valid() && view == old(view)
      ensures forall k :: k in disk && Writable(W(), k) && k !in old(stale) ==> k in view && disk[k] == view[k]
      ensures Healthy(old(W())) ==> Healthy(W()) && disk == old(view)
    {
      hide Ok, Healthy, WriteBack;
      ghost var w := W();
      assert pool.Length == 512 by { PoolSize(w); }
      NothingSwept(w, true, 0);
      for i := 0 to 512
        invariant Swept(w, W(), i, true, 0)
        invariant order == w.order && chains == w.chains
      {
        if pool[i].valid && pool[i].dirty {
          SweepStep(w, W(), i, true, 0);
          Writeback(i);
        } else {
          SweepSkip(w, W(), i, true, 0);
        }
      }
      SweepDone(w, W(), true, 0);
    }

    // ------------------------------------------------------------- invalidation

    /** One round of bcache_invalidate_dev: buffer b goes back to the front of the LRU list, empty. */
    method Purge(b: int)
      requires Valid() && Live(W().l, b)
      modifies this, pool, hash
      ensures Valid() && PurgedOne(old(W()), W(), b)
    {
      hide Ok, WriteBack, Evicted, LruPushFront;
      ghost var w := W();
      var key := pool[b].key;
      if pool[b].dirty { Writeback(b); }
      ghost var w1 := W();
      ghost var i, k := Discard(b, key);
      ghost var w2 := W();
      EvictedIs(w, w1, w2, i, k, key);
      ReturnOk(w2, b);
      LruPush(b);
      order := [b] + order;
      assert W() == Push(w2, b);
    }

    method InvalidateDev(dev: nat)
      requires Valid()
      modifies this, pool, hash
      ensures Valid() && Purged(old(W()), W(), 512, dev)
    {
      hide Ok, Healthy, PurgedOne;
      ghost var w := W();
      assert pool.Length == 512 by { PoolSize(w); }
      NothingPurged(w, dev);
      for i := 0 to 512
        invariant Purged(w, W(), i, dev)
      {
        ghost var w1 := W();
        if pool[i].valid && pool[i].key.dev == dev {
          Purge(i);
          PurgeRound(w, w1, W(), i, dev);
        } else {
          PurgeSkip(w, w1, i, dev);
        }
      }
    }
  }

  lemma ChainHead(l: Lists, c: seq<int>, h: nat)
    requires ChainOk(l, c, h, -1)
    ensures h < |l.hash| && l.hash[h] == At(c, 0)
  {
  }

  lemma InOwnChain(l: Lists, chains: seq<seq<int>>, b: int)
    requires HashOk(l, chains, -1) && Live(l, b)
    ensures b in chains[Bucket(l.pool[b].key)]
  {
    hide Bucket, NoRepeat;
    var h := Bucket(l.pool[b].key);
    assert ChainOk(l, chains[h], h, -1);
    assert Home(l, chains[h], h, -1, b);
  }

  lemma UnlinkKeepsLinks(w: World, i: nat, k: nat)
    requires Ok(w, -1) && DropReady(w, i, k)
    ensures LinksInPool(w.l, w.order[i]) && |w.l.hash| == 256 && |w.chains| == 256
    ensures var b := w.order[i];
            var c := w.chains[Bucket(w.l.pool[b].key)];
            w.l.pool[b].valid ==> -1 <= At(c, k - 1) < |w.l.pool| && LinksInPool(HashUnlink(w.l, b, At(c, k - 1)), b)
  {
    hide LruOk, HashOk, Unique, AllIdle, Coherent, Bucket;
    DropFits(w, i, k);
  }

  lemma TailIs(w: World)
    requires Ok(w, -1)
    ensures w.l.tail == At(w.order, |w.order| - 1) && InPool(w.l, w.order)
  {
  }

  lemma DirtyIsLive(w: World, b: int)
    requires Ok(w, -1) && Index(w.l, b) && w.l.pool[b].dirty
    ensures Live(w.l, b)
  {
    assert Idle(w.l.pool[b]);
  }

  lemma WriteBackFrame(w: World, b: int)
    requires Index(w.l, b)
    ensures WriteBack(w, b).order == w.order && |WriteBack(w, b).l.pool| == |w.l.pool|
  {
  }

  lemma SamePlace(w: World, i: nat, j: nat)
    requires Ok(w, -1) && i < |w.order| && j < |w.order| && w.order[i] == w.order[j]
    ensures i == j
  {
  }

  ghost function PlaceOf(w: World, b: int): (i: nat)
    requires Ok(w, -1) && Index(w.l, b)
    ensures At(w.order, i) == b
  {
    assert b in w.order;
    var i :| 0 <= i < |w.order| && w.order[i] == b;
    i
  }

  lemma VictimFacts(w: World, w': World, b: int)
    requires Ok(w, -1) && IsVictim(w, b) && Evicted(w, w', b) && Ok(w', b)
    ensures !AllPinned(w.l) && Index(w'.l, b) && !w'.l.pool[b].valid && SameEnvironment(w, w')
    ensures KeepsPinned(w.l, w'.l, -1) && !Pinned(w.l, b)
    ensures Healthy(w) ==> w'.view == w.view && Healthy(w')
  {
    VictimNotPinned(w, b);
    EvictKeepsPinned(w, w', b);
    if Healthy(w) { EvictHealthy(w, w', b); }
  }

  lemma SeenOnDisk(w: World, skip: int, k: Key)
    requires Ok(w, skip) && k in w.disk && !Cached(w.l, k)
    ensures k in w.view && w.disk[k] == w.view[k]
  {
  }

  lemma HitFacts(w: World, b: int, k: Key)
    requires Ok(w, -1) && HasKey(w.l, b, k)
    ensures Cached(w.l, k) && k in w.view && w.l.pool[b].data == w.view[k]
  {
    LiveKeyOnDisk(w, b);
  }

  lemma SavedOnDisk(w: World, b: int)
    requires Ok(w, -1) && Live(w.l, b)
    ensures var w', k := WriteBack(w, b), w.l.pool[b].key;
            k in w'.disk && k in w'.view && w'.view == w.view && w'.l.pool[b].key == k
  {
    LiveKeyOnDisk(w, b);
  }

  lemma EvictedOrder(w: World, w': World, b: int)
    requires Evicted(w, w', b)
    ensures Removed(w.order, b, w'.order)
  {
  }

  lemma TouchedFacts(w: World, w': World, b: int)
    requires Touched(w, w', b)
    ensures KeepsPinned(w.l, w'.l, b) && (Healthy(w) ==> Healthy(w'))
  {
    if Healthy(w) { forall j | j in w'.disk ensures Writable(w', j) { assert Writable(w, j); } }
  }

  /** A key that its own chain lacks is in no valid buffer. */
  lemma NotInChain(l: Lists, chains: seq<seq<int>>, k: Key)
    requires HashOk(l, chains, -1)
    requires forall j :: 0 <= j < |chains[Bucket(k)]| ==> !HasKey(l, chains[Bucket(k)][j], k)
    ensures !Cached(l, k)
  {
    hide Bucket, NoRepeat, ChainOk;
    forall b ensures !HasKey(l, b, k) {
      if HasKey(l, b, k) { InOwnChain(l, chains, b); }
    }
  }

  lemma NewToKey(l: Lists, r: int, k: Key)
    requires !Cached(l, k)
    ensures !HasKey(l, r, k)
  {
    assert HasKey(l, r, k) ==> Cached(l, k);
  }

  lemma CountReleased(w: World, b: int)
    requires Ok(w, -1) && Index(w.l, b)
    ensures var w' := SetCount(w, b, if w.l.pool[b].refcount > 0 then w.l.pool[b].refcount - 1 else 0);
            Ok(w', -1) && (Healthy(w) ==> Healthy(w'))
  {
    hide LruOk, HashOk, Unique, Coherent;
    assert Idle(w.l.pool[b]);
    var n := if w.l.pool[b].refcount > 0 then w.l.pool[b].refcount - 1 else 0;
    SetCountOk(w, b, n);
    if Healthy(w) {
      forall j | j in w.disk ensures Writable(SetCount(w, b, n), j) { assert Writable(w, j); }
    }
  }

  lemma PoolSize(w: World)
    requires Ok(w, -1)
    ensures |w.l.pool| == 512
  {
  }

  lemma NothingSwept(w: World, every: bool, dev: nat)
    requires Ok(w, -1)
    ensures Swept(w, w, 0, every, dev)
  {
  }

  lemma NothingPurged(w: World, dev: nat)
    requires Ok(w, -1)
    ensures Purged(w, w, 0, dev)
  {
  }

  lemma PurgeSkip(w: World, w': World, i: nat, dev: nat)
    requires Purged(w, w', i, dev) && i < |w'.l.pool| && Foreign(w'.l.pool[i], dev)
    ensures Purged(w, w', i + 1, dev)
  {
    hide Ok, Healthy;
  }

  /** b was evicted and its buffer put back at the front. */
  ghost predicate PurgedOne(w: World, w': World, b: int) {
    exists w2 {:trigger Evicted(w, w2, b)} ::
      Evicted(w, w2, b) && Ok(w2, b) && SameCore(w2.l, w'.l) && SameEnvironment(w2, w')
      && w'.disk == w2.disk && w'.view == w2.view && w'.stale == w2.stale
  }

  lemma PurgeRound(w: World, w1: World, w3: World, i: nat, dev: nat)
    requires Purged(w, w1, i, dev) && Live(w1.l, i) && w1.l.pool[i].key.dev == dev
    requires Ok(w3, -1) && PurgedOne(w1, w3, i)
    ensures Purged(w, w3, i + 1, dev)
  {
    hide Ok, Healthy, Purged, Evicted, SameCore, SameEnvironment;
    var w2 :| Evicted(w1, w2, i) && Ok(w2, i) && SameCore(w2.l, w3.l) && SameEnvironment(w2, w3)
              && w3.disk == w2.disk && w3.view == w2.view && w3.stale == w2.stale;
    PurgeStep(w, w1, w2, w3, i, dev);
  }
}
