/** Why the view needs working devices: evict_one clears the dirty mark even when the write failed. */
module BufferLoss {
  import opened BufferLists
  import opened BufferView
  import opened BlockCache

  /** Nothing is pinned, and buffer b, at place n of the LRU list, holds data for sector k that the
      disk, which has other data, does not accept. */
  ghost predicate Stuck(w: World, b: int, k: Key, data: Sector, other: Sector, n: nat) {
    && Ok(w, -1) && (forall x :: !Pinned(w.l, x)) && At(w.order, n) == b
    && Index(w.l, b) && Core(w.l.pool[b]) == (k, data, true, true, 0)
    && k in w.disk && w.disk[k] == other && k in w.view && k in w.unwritable
  }

  /** With nothing pinned the buffer at the tail goes first. */
  lemma LastIsVictim(w: World, v: int)
    requires Ok(w, -1) && IsVictim(w, v) && forall x :: !Pinned(w.l, x)
    ensures |w.order| > 0 && v == w.order[|w.order| - 1] == w.l.tail
  {
    var i :| 0 <= i < |w.order| && w.order[i] == v && PinnedFrom(w, i + 1);
    NotPinnedFrom(w);
  }

  lemma NotPinnedFrom(w: World)
    requires forall x :: !Pinned(w.l, x)
    ensures forall i: nat :: i < |w.order| ==> !PinnedFrom(w, i)
  {
    forall i: nat | i < |w.order| ensures !PinnedFrom(w, i) { assert !Pinned(w.l, w.order[i]); }
  }

  lemma RemovedLast(w: World, v: int, s: seq<int>)
    requires Ok(w, -1) && |w.order| > 0 && v == w.order[|w.order| - 1] && Removed(w.order, v, s)
    ensures s == w.order[..|w.order| - 1]
  {
    var i :| 0 <= i < |w.order| && w.order[i] == v && s == Without(w.order, i);
  }

  /** A failed lookup moves every other buffer one place towards the tail. */
  lemma OnePlaceOn(w: World, w': World, b: int, k: Key, data: Sector, other: Sector, n: nat)
    requires Stuck(w, b, k, data, other, n) && n + 1 < |w.order| && Recycled(w, w') && Ok(w', -1)
    requires SameEnvironment(w, w') && KeepsPinned(w.l, w'.l, -1)
    ensures Stuck(w', b, k, data, other, n + 1) && |w'.order| == |w.order|
  {
    hide HashOk, Covers, Unique, AllIdle, Coherent;
    var v, w1 :| IsVictim(w, v) && Evicted(w, w1, v) && w'.order == [v] + w1.order && SameCore(w1.l, w'.l)
                 && w'.disk == w1.disk && w'.view == w1.view && w'.stale == w1.stale;
    LastIsVictim(w, v);
    RemovedLast(w, v, w1.order);
    assert v != b;
    assert w'.order[n + 1] == w1.order[n] == b;
    assert Core(w'.l.pool[b]) == Core(w1.l.pool[b]) == Core(w.l.pool[b]);
    OthersOnDisk(w, w1, v, b, k);
  }

  lemma OthersOnDisk(w: World, w1: World, v: int, b: int, k: Key)
    requires Ok(w, -1) && Evicted(w, w1, v) && v != b && HasKey(w.l, b, k) && k in w.disk && k in w.view
    ensures k in w1.disk && w1.disk[k] == w.disk[k] && k in w1.view
  {
    hide LruOk, HashOk, Covers;
    assert Live(w.l, b);
    assert w.l.pool[v].dirty ==> Idle(w.l.pool[v]);
  }

  /** At the tail its turn has come, and the disk's data is all that is left. */
  lemma TurnComes(w: World, w': World, b: int, k: Key, data: Sector, other: Sector, n: nat)
    requires Stuck(w, b, k, data, other, n) && n + 1 == |w.order| && Recycled(w, w') && Ok(w', -1)
    ensures !Cached(w'.l, k) && k in w'.disk && k in w'.view && w'.view[k] == other
    ensures !AllPinned(w'.l)
  {
    hide HashOk, Covers, Coherent;
    var v, w1 :| IsVictim(w, v) && Evicted(w, w1, v) && w'.order == [v] + w1.order && SameCore(w1.l, w'.l)
                 && w'.disk == w1.disk && w'.view == w1.view && w'.stale == w1.stale;
    LastIsVictim(w, v);
    assert v == b && HasKey(w.l, b, k);
    forall x ensures !HasKey(w'.l, x, k) {
      if Index(w'.l, x) {
        assert Core(w'.l.pool[x]) == Core(w1.l.pool[x]);
        assert x != b ==> Core(w1.l.pool[x]) == Core(w.l.pool[x]) && !HasKey(w.l, x, k);
      }
    }
    assert Idle(w'.l.pool[b]) && !Pinned(w'.l, b);
  }

  /** A client reads sector k, writes data to it and releases it while the device refuses writes. */
  method WriteInVain(k: Key, other: Sector, data: Sector) returns (c: BufferCache, b: int)
    ensures fresh(c) && fresh(c.pool) && fresh(c.hash) && c.Valid() && c.unreadable == {} && c.disk.Keys == {k}
    ensures |c.order| > 0 && Stuck(c.W(), b, k, data, other, 0)
  {
    hide Ok, Stuck, Healthy, Write, WriteBack, KeepsPinned, Recycled, MovedFirst, IsVictim, Writable;
    c := new BufferCache(map[k := other], {k.dev});
    ghost var w0 := c.W();
    NonePinned(w0);
    b := c.Get(k.dev, k.lba);
    ghost var w1 := c.W();
    c.Update(b, data);
    UnwritableOk(c.W(), {k});
    c.unwritable := {k};
    ghost var w2 := c.W();
    assert w2 == Write(w1, b, data).(unwritable := {k});
    WriteFields(w1, b, data);
    c.Release(b);
    NowStuck(w0, w1, w2, c.W(), b, k, data, other);
  }

  /** Lookups of a sector that cannot be read push the buffer out. */
  method PushOut(c: BufferCache, b: int, k: Key, bad: Key, ghost other: Sector, ghost data: Sector)
    requires c.Valid() && c.unreadable == {} && c.disk.Keys == {k} && bad != k
    requires |c.order| > 0 && Stuck(c.W(), b, k, data, other, 0)
    modifies c, c.pool, c.hash
    ensures c.Valid() && c.unreadable == {} && c.disk.Keys == {k}
    ensures !Cached(c.W().l, k) && !AllPinned(c.W().l) && k in c.view && c.view[k] == other
  {
    hide Ok, Stuck, Healthy, Recycled, KeepsPinned;
    ghost var n := 0;
    while c.tail != b
      invariant c.Valid() && c.unreadable == {} && c.disk.Keys == {k}
      invariant n < |c.order| && Stuck(c.W(), b, k, data, other, n)
      decreases |c.order| - n
    {
      ghost var w := c.W();
      StuckTail(w, b, k, data, other, n);
      var r := c.Get(bad.dev, bad.lba);
      OnePlaceOn(w, c.W(), b, k, data, other, n);
      n := n + 1;
    }
    ghost var w := c.W();
    StuckTail(w, b, k, data, other, n);
    var r := c.Get(bad.dev, bad.lba);
    TurnComes(w, c.W(), b, k, data, other, n);
  }

  /** A run of calls on a new cache that loses an update: the client wrote data, and the next read
      gives what the disk had. */
  method FailedWriteLosesData(k: Key, bad: Key, other: Sector, data: Sector) returns (seen: Sector)
    requires bad != k
    ensures seen == other
  {
    hide Ok, Stuck, Healthy;
    var c, b := WriteInVain(k, other, data);
    PushOut(c, b, k, bad, other, data);
    var r := c.Get(k.dev, k.lba);
    seen := c.pool[r].data;
  }

  lemma NonePinned(w: World)
    requires Ok(w, -1) && forall b :: 0 <= b < |w.l.pool| ==> !w.l.pool[b].valid
    ensures (forall x :: !Pinned(w.l, x)) && !AllPinned(w.l) && forall k :: !Cached(w.l, k)
  {
    forall x | Index(w.l, x) ensures !Pinned(w.l, x) { assert Idle(w.l.pool[x]); }
    assert !Pinned(w.l, 0);
  }

  lemma UnwritableOk(w: World, bad: set<Key>)
    ensures Ok(w.(unwritable := bad), -1) <==> Ok(w, -1)
  {
    var w' := w.(unwritable := bad);
    forall b ensures Live(w.l, b) ==> (Faithful(w', w.l.pool[b]) <==> Faithful(w, w.l.pool[b])) {}
  }

  lemma WriteFields(w: World, b: int, data: Sector)
    requires Index(w.l, b)
    ensures var w' := Write(w, b, data); w'.l.pool[b].refcount == w.l.pool[b].refcount && w'.l.pool[b].dirty
  {
  }

  lemma NowStuck(w0: World, w1: World, w2: World, w: World, b: int, k: Key, data: Sector, other: Sector)
    requires Ok(w1, -1) && Ok(w, -1) && (forall x :: !Pinned(w0.l, x)) && KeepsPinned(w0.l, w1.l, b)
    requires HasKey(w1.l, b, k) && w1.l.pool[b].refcount == 1 && MovedFirst(w0.order, b, w1.order)
    requires w1.disk == map[k := other] && k.dev in w1.devices
    requires w2 == Write(w1, b, data).(unwritable := {k}) && w == WriteBack(SetCount(w2, b, 0), b)
    ensures |w.order| > 0 && Stuck(w, b, k, data, other, 0) && w.disk.Keys == {k} && w.unreadable == w1.unreadable
  {
    hide Ok;
    forall x ensures !Pinned(w.l, x) { assert !Pinned(w0.l, x); assert Pinned(w1.l, x) && x != b ==> Pinned(w0.l, x); }
  }

  lemma StuckTail(w: World, b: int, k: Key, data: Sector, other: Sector, n: nat)
    requires Stuck(w, b, k, data, other, n) && n < |w.order|
    ensures w.l.tail == b <==> n + 1 == |w.order|
    ensures !AllPinned(w.l) && w.view.Keys == w.disk.Keys
  {
    hide HashOk, Covers, Unique, AllIdle;
    assert !Pinned(w.l, b);
    assert w.order[|w.order| - 1] == b ==> n == |w.order| - 1;
  }
}
