/** sched/sched.c on one CPU: the run queue is linked through next and the sleep list through
    sleepNext, fields of the task table; -1 stands for null. */
module Scheduler {
  import opened SchedModel
  import opened SchedConserve
  import SchedFair
  import opened SchedTick

  function Ref(s: seq<nat>, i: int): int {
    if 0 <= i < |s| then s[i] else -1
  }

  predicate Step(next: seq<int>, s: seq<nat>, i: nat)
    requires i < |s|
  {
    s[i] < |next| && next[s[i]] == Ref(s, i + 1)
  }

  /** The list that starts at head and follows next is s. */
  predicate Chain(next: seq<int>, head: int, s: seq<nat>) {
    head == Ref(s, 0) && forall i {:trigger Step(next, s, i)} :: 0 <= i < |s| ==> Step(next, s, i)
  }

  lemma ChainPush(next: seq<int>, head: int, s: seq<nat>, t: nat)
    requires Chain(next, head, s) && t < |next| && t !in s
    ensures Chain(next[t := head], t, [t] + s)
  {
    var s', next' := [t] + s, next[t := head];
    forall i | 0 <= i < |s'| ensures Step(next', s', i) {
      if i > 0 { assert Step(next, s, i - 1); assert s'[i] == s[i - 1]; assert s[i - 1] in s; }
    }
  }

  /** Unlinking s[k] through its predecessor, or through the head. */
  lemma ChainUnlink(next: seq<int>, head: int, s: seq<nat>, k: nat)
    requires Chain(next, head, s) && k < |s| && NoRepeat(s)
    ensures s[k] < |next|
    ensures k == 0 ==> Chain(next[s[k] := -1], next[s[k]], Without(s, k))
    ensures k > 0 ==> s[k - 1] < |next| && Chain(next[s[k - 1] := next[s[k]]][s[k] := -1], head, Without(s, k))
  {
    assert Step(next, s, k);
    if k > 0 { assert Step(next, s, k - 1); }
    var s' := Without(s, k);
    var next' := if k > 0 then next[s[k - 1] := next[s[k]]][s[k] := -1] else next[s[k] := -1];
    forall i | 0 <= i < |s'| ensures Step(next', s', i) {
      var j := if i < k then i else i + 1;
      assert s'[i] == s[j];
      assert Step(next, s, j);
    }
  }

  /** No finite list starts at head and follows next. */
  ghost predicate Endless(next: seq<int>, head: int) {
    forall s: seq<nat> :: !Chain(next, head, s)
  }

  lemma LoopStep(next: seq<int>, head: int, s: seq<nat>, i: nat, j: nat)
    requires Chain(next, head, s) && NoRepeat(s) && j <= i < |s|
    ensures s[i] < |next| && s[j] < |next| && next[s[i] := head][s[j]] == s[if j == i then 0 else j + 1]
  {
    assert Step(next, s, i) && Step(next, s, j);
  }

  lemma {:induction false} StaysInLoop(next: seq<int>, head: int, s: seq<nat>, i: nat, r: seq<nat>, k: nat)
    requires Chain(next, head, s) && NoRepeat(s) && i < |s| && s[i] < |next| && Chain(next[s[i] := head], s[i], r) && k < |r|
    ensures exists j :: 0 <= j <= i && r[k] == s[j]
  {
    if k > 0 {
      StaysInLoop(next, head, s, i, r, k - 1);
      var j :| 0 <= j <= i && r[k - 1] == s[j];
      LoopStep(next, head, s, i, j);
      assert Step(next[s[i] := head], r, k - 1);
    }
  }

  /** Pushing a task that is in the list already ties the list to itself. */
  lemma PushTwice(next: seq<int>, head: int, s: seq<nat>, i: nat)
    requires Chain(next, head, s) && NoRepeat(s) && i < |s|
    ensures s[i] < |next| && Endless(next[s[i] := head], s[i])
  {
    LoopStep(next, head, s, i, i);
    var next' := next[s[i] := head];
    forall r: seq<nat> ensures !Chain(next', s[i], r) {
      if Chain(next', s[i], r) {
        var k := |r| - 1;
        ChainAt(next', s[i], r, k);
        StaysInLoop(next, head, s, i, r, k);
        var j :| 0 <= j <= i && r[k] == s[j];
        LoopStep(next, head, s, i, j);
      }
    }
  }

  lemma ChainAt(next: seq<int>, head: int, s: seq<nat>, i: nat)
    requires Chain(next, head, s) && i < |s|
    ensures s[i] < |next| && next[s[i]] == Ref(s, i + 1)
  {
    assert Step(next, s, i);
  }

  // ------------------------------------------------------------ the scans of rq_dequeue

  /** Among the first i queued tasks, place b has the earliest deadline of the eligible ones, or none is. */
  predicate Earliest(c: Cpu, i: nat, b: int, dl: nat)
    requires QueueKnown(c) && Known(c, c.current) && i <= |c.rq|
  {
    if b < 0 then b == -1 && dl == MAX && forall j :: 0 <= j < i ==> !Eligible(c, j)
    else
      && b < i && Eligible(c, b) && dl == c.tasks[c.rq[b]].deadline
      && (forall j :: 0 <= j < i && Eligible(c, j) ==> dl <= c.tasks[c.rq[j]].deadline)
      && (forall j :: 0 <= j < b && Eligible(c, j) ==> dl < c.tasks[c.rq[j]].deadline)
  }

  lemma EarliestStep(c: Cpu, i: nat, b: int, dl: nat)
    requires QueueKnown(c) && Known(c, c.current) && i < |c.rq| && Earliest(c, i, b, dl)
    ensures var t := c.tasks[c.rq[i]];
            if t.vruntime <= SystemTime(c) && t.deadline < dl then Earliest(c, i + 1, i, t.deadline)
            else Earliest(c, i + 1, b, dl)
  {
    hide SystemTime;
  }

  /** Place b of the queue and its predecessor, -1 for none. */
  predicate PlacedAt(rq: seq<nat>, b: int, best: int, bestPrev: int) {
    -1 <= b < |rq| && best == Ref(rq, b) && bestPrev == Ref(rq, b - 1)
  }

  ghost predicate IsEarliest(c: Cpu, b: int)
    requires QueueKnown(c) && Known(c, c.current)
  {
    exists dl: nat :: Earliest(c, |c.rq|, b, dl)
  }

  ghost predicate IsLeast(c: Cpu, b: int)
    requires QueueKnown(c)
  {
    exists v: nat :: LeastYet(c, |c.rq|, b, v)
  }

  predicate LeastYet(c: Cpu, i: nat, b: int, v: nat)
    requires QueueKnown(c) && i <= |c.rq|
  {
    if b < 0 then b == -1 && v == MAX && forall j :: 0 <= j < i ==> c.tasks[c.rq[j]].vruntime >= MAX
    else
      && b < i && v == c.tasks[c.rq[b]].vruntime < MAX
      && (forall j :: 0 <= j < i ==> v <= c.tasks[c.rq[j]].vruntime)
      && (forall j :: 0 <= j < b ==> v < c.tasks[c.rq[j]].vruntime)
  }

  lemma LeastStep(c: Cpu, i: nat, b: int, v: nat)
    requires QueueKnown(c) && i < |c.rq| && LeastYet(c, i, b, v)
    ensures var w := c.tasks[c.rq[i]].vruntime;
            if w < v then LeastYet(c, i + 1, i, w) else LeastYet(c, i + 1, b, v)
  {
  }

  class Sched {
    const task: array<Task>
    const next: array<int>
    const sleepNext: array<int>
    var rqHead: int
    var sleepHead: int
    var current: nat
    const idle: nat
    var vsystem: nat
    var queueLen: nat
    ghost var rq: seq<nat>
    ghost var sleepers: seq<nat>
    ghost var waking: set<nat>

    ghost function C(): Cpu
      reads this, task
    {
      Cpu(task[..], rq, sleepers, waking, current, idle, vsystem, queueLen)
    }

    ghost predicate Linked()
      reads this, task, next, sleepNext
    {
      && next != sleepNext && next.Length == task.Length && sleepNext.Length == task.Length
      && Chain(next[..], rqHead, rq) && Chain(sleepNext[..], sleepHead, sleepers)
    }

    ghost predicate Valid()
      reads this, task, next, sleepNext
    {
      Linked() && Inv(C())
    }

    /** sched_init, with every other slot of the task table unused. */
    constructor (size: nat, idle: nat)
      requires idle < size
      ensures Valid() && Start(C()) && task.Length == size && this.idle == idle
      ensures fresh(task) && fresh(next) && fresh(sleepNext)
    {
      task := new Task[size](i => Task(if i == idle then Runnable else Dead, 0, false, 1024, 0, 10, 0, 0));
      next := new int[size](_ => -1);
      sleepNext := new int[size](_ => -1);
      rqHead, sleepHead, current, this.idle, vsystem, queueLen := -1, -1, idle, idle, 0, 0;
      rq, sleepers, waking := [], [], {};
      new;
      assert forall t :: 0 <= t < size && t != idle ==> InPlace(C(), t);
    }

    method RqEnqueue(t: nat)
      requires Linked() && t < task.Length && t !in rq
      modifies this`rqHead, this`queueLen, this`rq, task, next
      ensures Linked() && C() == Enqueue(old(C()), t)
    {
      hide DeadlineFrom;
      if t == idle { return; }
      var k := task[t];
      if !k.inited {
        k := k.(vruntime := vsystem, inited := true);
      } else if vsystem > THRESHOLD && k.vruntime < vsystem - THRESHOLD {
        k := k.(vruntime := vsystem - THRESHOLD);
      }
      if k.weight == 0 { k := k.(weight := 1024); }
      k := k.(deadline := DeadlineFrom(k.vruntime, k.slice, k.weight));
      assert k == Refreshed(task[t], vsystem);
      ChainPush(next[..], rqHead, rq, t);
      task[t] := k;
      next[t] := rqHead;
      rqHead := t;
      rq := [t] + rq;
      queueLen := queueLen + 1;
    }

    /** rq_dequeue, step 1. */
    method UpdateSystemTime()
      requires Linked() && QueueKnown(C()) && Known(C(), current)
      modifies this`vsystem
      ensures vsystem == SystemTime(old(C()))
    {
      ghost var c := C();
      var m, cur := MAX, rqHead;
      ghost var i := 0;
      while cur >= 0
        invariant i <= |rq| && cur == Ref(rq, i) && m == Least(c.tasks, rq, i) && C() == c
        decreases |rq| - i
      {
        ChainAt(next[..], rqHead, rq, i);
        if task[cur].vruntime < m { m := task[cur].vruntime; }
        cur := next[cur];
        i := i + 1;
      }
      if current != idle && task[current].state == Running {
        if task[current].vruntime < m { m := task[current].vruntime; }
      }
      if m != MAX { vsystem := m; }
    }

    /** rq_dequeue, step 2: the eligible task with the earliest deadline and its predecessor. */
    method FindEarliest(ghost c: Cpu) returns (best: int, bestPrev: int)
      requires Linked() && QueueKnown(c) && Known(c, c.current)
      requires c.rq == rq && c.tasks == task[..] && vsystem == SystemTime(c)
      ensures exists b :: PlacedAt(rq, b, best, bestPrev) && IsEarliest(c, b)
    {
      hide SystemTime, Earliest;
      best, bestPrev := -1, -1;
      ghost var b := -1;
      var dl: nat := MAX;
      var prev, cur := -1, rqHead;
      ghost var i := 0;
      assert Earliest(c, 0, -1, MAX) by { NothingYet(c); }
      while cur >= 0
        invariant i <= |rq| && cur == Ref(rq, i) && prev == Ref(rq, i - 1)
        invariant PlacedAt(rq, b, best, bestPrev)
        invariant Earliest(c, i, b, dl)
        decreases |rq| - i
      {
        ChainAt(next[..], rqHead, rq, i);
        EarliestStep(c, i, b, dl);
        if task[cur].vruntime <= vsystem {
          if task[cur].deadline < dl {
            dl := task[cur].deadline;
            best, bestPrev := cur, prev;
            b := i;
          }
        }
        prev, cur := cur, next[cur];
        i := i + 1;
      }
      assert i == |rq| && Earliest(c, |rq|, b, dl);
      assert IsEarliest(c, b);
    }

    /** The fallback of rq_dequeue: the first task with the least virtual time. */
    method FindLeast(ghost c: Cpu) returns (best: int, bestPrev: int)
      requires Linked() && QueueKnown(c) && c.rq == rq && c.tasks == task[..]
      ensures exists b :: PlacedAt(rq, b, best, bestPrev) && IsLeast(c, b)
    {
      hide LeastYet;
      best, bestPrev := -1, -1;
      ghost var b := -1;
      var v: nat := MAX;
      var prev, cur := -1, rqHead;
      ghost var i := 0;
      assert LeastYet(c, 0, -1, MAX) by { NoneYet(c); }
      while cur >= 0
        invariant i <= |rq| && cur == Ref(rq, i) && prev == Ref(rq, i - 1)
        invariant PlacedAt(rq, b, best, bestPrev)
        invariant LeastYet(c, i, b, v)
        decreases |rq| - i
      {
        ChainAt(next[..], rqHead, rq, i);
        LeastStep(c, i, b, v);
        if task[cur].vruntime < v {
          v := task[cur].vruntime;
          best, bestPrev := cur, prev;
          b := i;
        }
        prev, cur := cur, next[cur];
        i := i + 1;
      }
      assert i == |rq| && LeastYet(c, |rq|, b, v);
      assert IsLeast(c, b);
    }

    /** Step 2 of rq_dequeue as a whole: the place the specification picks. */
    method FindBest(ghost c: Cpu) returns (best: int, bestPrev: int)
      requires Linked() && QueueKnown(c) && Known(c, c.current)
      requires c.rq == rq && c.tasks == task[..] && vsystem == SystemTime(c)
      ensures exists b :: PlacedAt(rq, b, best, bestPrev) && Decided(c, b)
    {
      hide SystemTime, Linked, IsEarliest, IsLeast, Decided;
      best, bestPrev := FindEarliest(c);
      ghost var e :| PlacedAt(rq, e, best, bestPrev) && IsEarliest(c, e);
      ghost var b := e;
      if best == -1 {
        best, bestPrev := FindLeast(c);
        b :| PlacedAt(rq, b, best, bestPrev) && IsLeast(c, b);
      }
      Decide(c, e, b);
    }

    /** Step 3 of rq_dequeue. */
    method Unlink(best: nat, bestPrev: int, ghost k: nat)
      requires Linked() && NoRepeat(rq) && queueLen == |rq| && PlacedAt(rq, k, best, bestPrev)
      modifies this`rqHead, this`queueLen, this`rq, next
      ensures Linked() && k < |old(rq)| && old(queueLen) > 0 && C() == Remove(old(C()), k)
    {
      ChainUnlink(next[..], rqHead, rq, k);
      if bestPrev >= 0 { next[bestPrev] := next[best]; } else { rqHead := next[best]; }
      next[best] := -1;
      rq := Without(rq, k);
      queueLen := queueLen - 1;
    }

    /** rq_dequeue: the task it takes, which was at place k, or -1. */
    method RqDequeue() returns (best: int, ghost k: nat)
      requires Linked() && QueueKnown(C()) && Known(C(), current) && NoRepeat(rq) && queueLen == |rq|
      modifies this`rqHead, this`queueLen, this`rq, this`vsystem, next
      ensures Linked()
      ensures best == -1 ==>
                PicksNone(old(C())) && C() == if old(rq) == [] then old(C()) else old(C()).(vsystem := SystemTime(old(C())))
      ensures best != -1 ==>
                k < |old(rq)| && Picks(old(C()), k) && best == old(rq)[k] && queueLen + 1 == |old(rq)|
                && C() == Remove(old(C()).(vsystem := SystemTime(old(C()))), k)
    {
      hide SystemTime, Picks, PicksNone, Chain;
      ghost var c := C();
      k := 0;
      if rqHead == -1 { ChainEmpty(next[..], rqHead, rq); NonePicked(c); return -1, 0; }
      ChainNotEmpty(next[..], rqHead, rq);
      UpdateSystemTime();
      var bestPrev;
      best, bestPrev := FindBest(c);
      ghost var b :| PlacedAt(rq, b, best, bestPrev) && Decided(c, b);
      if best != -1 {
        k := b;
        Unlink(best, bestPrev, k);
      }
    }

    // -------------------------------------------------------------------- the tick

    /** The wake-up walk: sp is the place of the link being followed, -1 for the head. */
    method WakeSleepers(now: nat)
      requires Valid()
      modifies this, task, next, sleepNext
      ensures Valid() && C() == Wake(old(C()), now, 0)
      ensures SleepersKnown(old(C())) && Awoken(old(C()), C(), now, 0)
    {
      hide Inv, WakeAt, Enqueue, InPlace, Awoken;
      ghost var c := C();
      WakeKeeps(c, now, 0);
      InvKnown(c);
      WakeAwakens(c, now, 0);
      var prev, cur := -1, sleepHead;
      ghost var i := 0;
      while cur >= 0
        invariant Valid() && i <= |sleepers| && cur == Ref(sleepers, i) && prev == Ref(sleepers, i - 1)
        invariant SleepersKnown(C()) && Wake(C(), now, i) == Wake(c, now, 0)
        decreases |sleepers| - i
      {
        InvKnown(C());
        ChainAt(sleepNext[..], sleepHead, sleepers, i);
        if now >= task[cur].wakeAt {
          var nxt := sleepNext[cur];
          WakeOne(prev, cur, i);
          InvKnown(C());
          cur := nxt;
        } else {
          prev, cur := cur, sleepNext[cur];
          i := i + 1;
        }
      }
    }

    method WakeOne(prev: int, cur: nat, ghost i: nat)
      requires Valid() && i < |sleepers| && cur == sleepers[i] && prev == Ref(sleepers, i - 1)
      modifies this, task, next, sleepNext
      ensures Valid() && |old(sleepers)| > i && Known(old(C()), old(sleepers)[i]) && C() == WakeAt(old(C()), i)
      ensures sleepers == Without(old(sleepers), i)
    {
      ghost var c := C();
      WakeOneKeeps(c, i);
      assert cur != idle ==> InPlace(c, cur);
      ChainUnlink(sleepNext[..], sleepHead, sleepers, i);
      if prev >= 0 { sleepNext[prev] := sleepNext[cur]; } else { sleepHead := sleepNext[cur]; }
      sleepNext[cur] := -1;
      sleepers := Without(sleepers, i);
      task[cur] := task[cur].(wakeAt := 0, state := Runnable);
      RqEnqueue(cur);
      assert C() == WakeAt(c, i);
    }

    /** A task that stops running is runnable again and queued. */
    method Requeue(t: nat)
      requires Valid() && t == current && task[t].state == Running
      modifies this`rqHead, this`queueLen, this`rq, task, next
      ensures Valid() && C() == Yield(old(C()))
    {
      ghost var c := C();
      YieldKeeps(c);
      assert t != idle ==> InPlace(c, t);
      task[t] := task[t].(state := Runnable);
      RqEnqueue(t);
      assert C() == Yield(c);
    }

    /** sched_tick, charging and slice. */
    method ChargeAndExpire()
      requires Valid()
      modifies this`rqHead, this`queueLen, this`rq, task, next
      ensures Valid() && C() == Expire(ChargeCurrent(old(C())))
    {
      hide Inv, Yield, Charged;
      ghost var c := C();
      InvKnown(c);
      ExpireKeeps(c);
      var prev := current;
      if task[prev].state == Running {
        if prev != idle { task[prev] := Charged(task[prev]); }
        task[prev] := task[prev].(used := task[prev].used + 1);
      }
      assert C() == ChargeCurrent(c) by { ChargeIs(c, C()); }
      ghost var c1 := C();
      if task[prev].state == Running {
        var maxTicks := if prev == idle then 1 else task[prev].slice;
        if task[prev].used >= maxTicks || (prev != idle && task[prev].vruntime >= task[prev].deadline) {
          task[prev] := task[prev].(used := 0);
          StatesKeep(c1, C());
          Requeue(prev);
        }
      }
    }

    method Tick(now: nat)
      requires Valid()
      modifies this, task, next, sleepNext
      ensures Valid() && TickStep(old(C()), C(), now)
      ensures WakesDue(old(C()), C(), now)
      ensures SchedFair.Primed(old(C())) && SchedFair.IsRunning(old(C()), old(current)) ==> Pays(old(C()), C())
      ensures SchedFair.Primed(old(C())) && current != idle ==> TimeIsLeast(C())
    {
      hide Inv, Expire, ChargeCurrent, Wake, Picks, PicksNone, SystemTime, Yield, Awoken, WakesDue, TimeIsLeast, SchedFair.Primed, Pays;
      ghost var c := C();
      InvKnown(c);
      ExpireKeeps(c);
      PrepareKeeps(c, now);
      var prev := current;
      ChargeAndExpire();
      WakeSleepers(now);
      ghost var d := C();
      assert d == Prepare(c, now);
      InvKnown(d);
      InvDistinct(d);
      var nxt := -1;
      ghost var k := 0;
      // queued tasks are runnable, so the first round of the loop always ends it
      var t;
      t, k := RqDequeue();
      if t != -1 {
        QueuedIsRunnable(d, k);
        if task[t].state == Runnable { nxt := t; } else { assert false; }
      }
      SwitchOver(d, nxt, k);
      assert nxt >= 0 ==> Picks(d, k) && C() == Switch(d, k);
      TickWakes(c, C(), now);
      if SchedFair.Primed(c) {
        TickTime(c, C(), now);
        if SchedFair.IsRunning(c, c.current) { TickPays(c, C(), now); }
      }
    }

    /** The end of sched_tick, once the queue gave nxt or nothing. */
    method SwitchOver(ghost d: Cpu, nxt: int, ghost k: nat)
      requires Linked() && Inv(d) && QueueKnown(d) && Known(d, d.current) && Known(d, d.idle)
      requires nxt == -1 ==> C() == if d.rq == [] then d else d.(vsystem := SystemTime(d))
      requires nxt != -1 ==> k < |d.rq| && nxt == d.rq[k] && d.queueLen > 0 && C() == Remove(d.(vsystem := SystemTime(d)), k)
      modifies this, task, next, sleepNext
      ensures Valid() && C() == if nxt == -1 then SwitchIdle(d) else Switch(d, k)
    {
      hide Inv, Homeless, SystemTime, Enqueue;
      ghost var c := C();
      if nxt != -1 { SwitchKeeps(d, k); RemoveKeeps(d, k, SystemTime(d)); HomelessFacts(c, d.rq[k]); }
      else { SwitchIdleKeeps(d); StatesKeep(d, c); }
      var next_ := if nxt == -1 then idle else nxt;
      var prev := current;
      if task[prev].state == Running && prev != next_ {
        assert prev !in rq by { NotQueued(d, c, nxt, k); }
        task[prev] := task[prev].(state := Runnable);
        RqEnqueue(prev);
        assert C() == Yield(c);
      }
      task[next_] := task[next_].(used := 0, state := Running);
      current := next_;
      assert C() == SwitchTo(c, next_);
    }

    // ---------------------------------------------------- blocking, sleeping, waking

    /** sched_block up to its tick. */
    method BlockSelf()
      requires Valid() && (current == idle || task[current].state == Running)
      modifies task
      ensures Valid() && Next(old(C()), StoreBlocked, C())
    {
      hide Inv;
      ghost var c := C();
      InvKnown(c);
      SelfKeeps(c, Blocked);
      task[current] := task[current].(state := Blocked);
      assert C() == SetState(c, current, Blocked);
    }

    method Block(now: nat)
      requires Valid() && (current == idle || task[current].state == Running)
      modifies this, task, next, sleepNext
      ensures Valid() && exists c {:trigger Next(old(C()), StoreBlocked, c)} ::
                Next(old(C()), StoreBlocked, c) && Inv(c) && TickStep(c, C(), now)
    {
      hide Inv, TickStep, Next;
      BlockSelf();
      ghost var c := C();
      Tick(now);
    }

    /** The locked region of sched_sleep.  If the idle task is in the sleep list already, the list has no
        end afterwards. */
    method SleepSelf(now: nat, ms: nat)
      requires Valid() && (current == idle || task[current].state == Running)
      modifies this`sleepHead, this`sleepers, task, sleepNext
      ensures C() == Asleep(old(C()), now + ms)
      ensures sleepers == [current] + old(sleepers) && task[current] == old(task[current]).(state := Sleeping, wakeAt := now + ms)
      ensures current !in old(sleepers) ==> Valid() && Next(old(C()), StoreSleep(now + ms), C())
      ensures current in old(sleepers) ==> current == idle && Endless(sleepNext[..], sleepHead)
    {
      hide Inv, Endless;
      ghost var c := C();
      InvKnown(c);
      SleepKeepsIff(c, now + ms);
      PushSleeper(c, sleepNext[..], sleepHead);
      task[current] := task[current].(wakeAt := now + ms, state := Sleeping);
      sleepNext[current] := sleepHead;
      sleepHead := current;
      sleepers := [current] + sleepers;
    }

    method Sleep(now: nat, ms: nat)
      requires Valid() && (current == idle || task[current].state == Running) && (ms > 0 ==> current !in sleepers)
      modifies this, task, next, sleepNext
      ensures Valid() && (ms == 0 ==> C() == old(C()))
      ensures ms > 0 ==> exists c {:trigger Next(old(C()), StoreSleep(now + ms), c)} ::
                Next(old(C()), StoreSleep(now + ms), c) && Inv(c) && TickStep(c, C(), now)
      ensures ms > 0 ==> old(current) in sleepers
      ensures ms > 0 && old(current) != idle ==>
                current != old(current) && task[old(current)] == old(task[current]).(state := Sleeping, wakeAt := now + ms)
    {
      hide Inv, TickStep, Next, Pays, SchedFair.Primed, TimeIsLeast;
      if ms == 0 { return; }
      SleepSelf(now, ms);
      ghost var c := C();
      assert c.sleepers[0] == c.current;
      Tick(now);
    }

    /** The compare-and-exchange of sched_unblock: true if t was blocked. */
    method TryMark(t: nat) returns (was: bool)
      requires Valid() && t < task.Length
      modifies this`waking, task
      ensures Valid() && Next(old(C()), MarkRunnable(t), C())
      ensures was == (old(task[t].state) == Blocked) && (was ==> t in waking)
    {
      hide Inv;
      ghost var c := C();
      was := task[t].state == Blocked;
      if was {
        MarkKeeps(c, t);
        task[t] := task[t].(state := Runnable);
        waking := waking + {t};
      }
    }

    /** The locked region of sched_unblock. */
    method QueueMarked(t: nat)
      requires Valid() && t in waking
      modifies this`rqHead, this`queueLen, this`rq, this`waking, task, next
      ensures Valid() && Next(old(C()), QueueWoken(t), C())
    {
      hide Inv, Enqueue;
      ghost var c := C();
      WokenKeeps(c, t);
      waking := waking - {t};
      RqEnqueue(t);
    }

    method Unblock(t: nat)
      requires Valid() && t < task.Length
      modifies this, task, next
      ensures Valid()
      ensures old(task[t].state) != Blocked ==> C() == old(C())
      ensures old(task[t].state) == Blocked ==> (t in rq <==> t != idle) && t !in waking && task[t].state == Runnable
    {
      var was := TryMark(t);
      if was { QueueMarked(t); }
    }

    /** sched_add_task of a task in an unused slot. */
    method AddTask(t: nat, weight: nat, slice: nat)
      requires Valid() && t < task.Length && t != idle && t != current && task[t].state == Dead && weight <= 16384
      modifies this`rqHead, this`queueLen, this`rq, task, next
      ensures Valid() && Next(old(C()), Add(t, weight, slice), C())
      ensures rq == [t] + old(rq) && task[t].state == Runnable && task[t].vruntime == vsystem == old(vsystem)
      ensures task[t].weight == (if weight == 0 then 1024 else weight) && task[t].slice == slice && task[t].used == 0
    {
      hide Inv, Enqueue;
      ghost var c := C();
      AddHomeless(c, t, Task(Runnable, 0, false, weight, 0, slice, 0, 0));
      task[t] := Task(Runnable, 0, false, weight, 0, slice, 0, 0);
      EnqueueKeeps(C(), t);
      ghost var d := C();
      RqEnqueue(t);
      AddedIs(d, t);
    }

    /** sched_task_exit, up to its tick: a task with a parent of another process becomes a zombie. */
    method StoreExit(orphan: bool, thread: bool)
      requires Valid() && (current == idle || task[current].state == Running)
      modifies task
      ensures Valid() && Next(old(C()), Exit(if orphan || thread then Dead else Zombie), C())
    {
      hide Inv;
      ghost var c := C();
      var s := if orphan || thread then Dead else Zombie;
      InvKnown(c);
      SelfKeeps(c, s);
      task[current] := task[current].(state := s);
      assert C() == SetState(c, current, s);
    }

    method ChangePriority(t: nat, priority: nat)
      requires Valid() && t < task.Length
      modifies task
      ensures Valid() && Next(old(C()), SetPriority(t, priority), C())
    {
      hide Inv, DeadlineFrom;
      ghost var c := C();
      var w := PriorityWeight(priority);
      task[t] := task[t].(weight := w, used := 0, deadline := DeadlineFrom(task[t].vruntime, task[t].slice, w));
      StatesKeep(c, C());
    }
  }

  lemma AddedIs(c: Cpu, t: nat)
    requires Known(c, t) && t != c.idle && !c.tasks[t].inited
    ensures var c', u := Enqueue(c, t), c.tasks[t];
            && c'.rq == [t] + c.rq && c'.vsystem == c.vsystem
            && c'.tasks[t] == u.(vruntime := c.vsystem, inited := true, weight := if u.weight == 0 then 1024 else u.weight,
                                 deadline := c'.tasks[t].deadline)
  {
    hide DeadlineFrom;
  }

  lemma NothingYet(c: Cpu)
    requires QueueKnown(c) && Known(c, c.current)
    ensures Earliest(c, 0, -1, MAX)
  {
  }

  lemma NoneYet(c: Cpu)
    requires QueueKnown(c)
    ensures LeastYet(c, 0, -1, MAX)
  {
  }

  lemma NonePicked(c: Cpu)
    requires QueueKnown(c) && Known(c, c.current) && c.rq == []
    ensures PicksNone(c)
  {
  }

  predicate Decided(c: Cpu, b: int)
    requires QueueKnown(c) && Known(c, c.current)
  {
    if b >= 0 then Picks(c, b) else PicksNone(c)
  }

  lemma ChainEmpty(next: seq<int>, head: int, s: seq<nat>)
    requires Chain(next, head, s) && head == -1
    ensures s == []
  {
  }

  lemma ChainNotEmpty(next: seq<int>, head: int, s: seq<nat>)
    requires Chain(next, head, s) && head != -1
    ensures s != []
  {
  }

  /** What the two scans found decides the pick. */
  lemma Decide(c: Cpu, e: int, b: int)
    requires QueueKnown(c) && Known(c, c.current) && -1 <= e < |c.rq| && -1 <= b < |c.rq|
    requires IsEarliest(c, e) && if e >= 0 then b == e else IsLeast(c, b)
    ensures Decided(c, b)
  {
    hide SystemTime;
    var dl: nat :| Earliest(c, |c.rq|, e, dl);
    if e >= 0 { assert Eligible(c, e); }
  }

  lemma ChargeIs(c: Cpu, c1: Cpu)
    requires Known(c, c.current)
    requires c1 == c.(tasks := c1.tasks)
    requires c.tasks[c.current].state != Running ==> c1.tasks == c.tasks
    requires c.tasks[c.current].state == Running ==>
               var t := if c.current == c.idle then c.tasks[c.current] else Charged(c.tasks[c.current]);
               c1.tasks == c.tasks[c.current := t.(used := t.used + 1)]
    ensures c1 == ChargeCurrent(c)
  {
  }

  lemma InvDistinct(c: Cpu)
    requires Inv(c)
    ensures NoRepeat(c.rq)
  {
  }

  /** Linking the running task in front of the sleep list. */
  lemma PushSleeper(c: Cpu, next: seq<int>, head: int)
    requires Inv(c) && Chain(next, head, c.sleepers) && c.current < |next|
    ensures c.current !in c.sleepers ==> Chain(next[c.current := head], c.current, [c.current] + c.sleepers)
    ensures c.current in c.sleepers ==> Endless(next[c.current := head], c.current)
  {
    hide Chain, Endless, NoRepeat;
    if c.current in c.sleepers {
      var i :| 0 <= i < |c.sleepers| && c.sleepers[i] == c.current;
      PushTwice(next, head, c.sleepers, i);
    } else {
      ChainPush(next, head, c.sleepers, c.current);
    }
  }

  lemma QueuedIsRunnable(c: Cpu, k: nat)
    requires Inv(c) && k < |c.rq|
    ensures Known(c, c.rq[k]) && c.tasks[c.rq[k]].state == Runnable
  {
    assert InPlace(c, c.rq[k]);
  }

  /** The running task is not in the queue. */
  lemma NotQueued(d: Cpu, c: Cpu, nxt: int, k: nat)
    requires Inv(d) && c.tasks == d.tasks && c.current == d.current && d.tasks[d.current].state == Running
    requires nxt == -1 ==> c.rq == d.rq
    requires nxt != -1 ==> k < |d.rq| && c.rq == Without(d.rq, k)
    ensures d.current !in c.rq
  {
    assert d.current != d.idle ==> InPlace(d, d.current);
  }
}
