/** No starvation: a queued task is dispatched within a number of ticks that depends only on how far
    the virtual times of the others lie below its own. */
module SchedFair {
  import opened SchedModel
  import opened SchedConserve

  // --------------------------------------------------- every task is fit to be charged

  predicate Fit(t: Task) {
    t.weight <= 16384 && t.vruntime <= MAX && (t.state != Dead ==> t.inited)
  }

  predicate Primed(c: Cpu) {
    c.vsystem <= MAX && forall t :: 0 <= t < |c.tasks| && t != c.idle ==> Fit(c.tasks[t])
  }

  /** d agrees with c but for task t, which d has made fit. */
  predicate Refit(c: Cpu, d: Cpu, t: nat) {
    && |d.tasks| == |c.tasks| && d.idle == c.idle && d.vsystem <= MAX
    && (forall x :: 0 <= x < |c.tasks| && x != t ==> d.tasks[x] == c.tasks[x])
    && (t < |d.tasks| && t != d.idle ==> Fit(d.tasks[t]))
  }

  lemma RefitPrimed(c: Cpu, d: Cpu, t: nat)
    requires Primed(c) && Refit(c, d, t)
    ensures Primed(d)
  {
  }

  lemma RefreshedFit(t: Task, v: nat)
    requires t.weight <= 16384 && t.vruntime <= MAX && v <= MAX
    ensures Fit(Refreshed(t, v)) && (t.inited ==> Refreshed(t, v).vruntime >= t.vruntime)
  {
  }

  lemma EnqueuePrimed(c: Cpu, t: nat)
    requires Known(c, t) && c.vsystem <= MAX && (t != c.idle ==> c.tasks[t].weight <= 16384 && c.tasks[t].vruntime <= MAX)
    requires forall x :: 0 <= x < |c.tasks| && x != c.idle && x != t ==> Fit(c.tasks[x])
    ensures Primed(Enqueue(c, t))
  {
    hide Refreshed;
    if t != c.idle { RefreshedFit(c.tasks[t], c.vsystem); }
  }

  lemma YieldPrimed(c: Cpu)
    requires Primed(c) && Known(c, c.current)
    ensures Primed(Yield(c))
  {
    hide Enqueue;
    assert c.current != c.idle ==> Fit(c.tasks[c.current]);
    EnqueuePrimed(c.(tasks := c.tasks[c.current := c.tasks[c.current].(state := Runnable)]), c.current);
  }

  lemma ExpirePrimed(c: Cpu)
    requires Primed(c) && Known(c, c.current)
    ensures Primed(ChargeCurrent(c)) && Primed(Expire(ChargeCurrent(c)))
  {
    hide Yield;
    assert c.current != c.idle ==> Fit(c.tasks[c.current]);
    var c1 := ChargeCurrent(c);
    RefitPrimed(c, c1, c.current);
    if SliceOver(c1) {
      var c2 := c1.(tasks := c1.tasks[c1.current := c1.tasks[c1.current].(used := 0)]);
      RefitPrimed(c1, c2, c.current);
      YieldPrimed(c2);
    }
  }

  lemma {:induction false} WakePrimed(c: Cpu, now: nat, i: nat)
    requires Primed(c) && SleepersKnown(c) && i <= |c.sleepers|
    ensures Primed(Wake(c, now, i))
    decreases |c.sleepers| - i
  {
    hide Enqueue;
    if i < |c.sleepers| {
      if now >= c.tasks[c.sleepers[i]].wakeAt {
        var t := c.sleepers[i];
        assert t != c.idle ==> Fit(c.tasks[t]);
        EnqueuePrimed(c.(sleepers := Without(c.sleepers, i), tasks := c.tasks[t := c.tasks[t].(wakeAt := 0, state := Runnable)]), t);
        WokenKnown(c, i);
        WakePrimed(WakeAt(c, i), now, i);
      } else {
        WakePrimed(c, now, i + 1);
      }
    }
  }

  lemma WokenKnown(c: Cpu, i: nat)
    requires SleepersKnown(c) && i < |c.sleepers|
    ensures SleepersKnown(WakeAt(c, i)) && |WakeAt(c, i).sleepers| == |c.sleepers| - 1
  {
  }

  lemma SystemTimeBound(c: Cpu)
    requires QueueKnown(c) && Known(c, c.current) && c.vsystem <= MAX
    ensures SystemTime(c) <= MAX
  {
  }

  lemma SwitchToPrimed(c: Cpu, next: nat)
    requires Primed(c) && Known(c, c.current) && Known(c, next) && (next != c.idle ==> c.tasks[next].state != Dead)
    ensures Primed(SwitchTo(c, next))
  {
    hide Yield;
    if c.tasks[c.current].state == Running && c.current != next {
      YieldPrimed(c);
      YieldKeepsOthers(c, next);
      assert next != c.idle ==> Fit(Yield(c).tasks[next]);
    } else {
      assert next != c.idle ==> Fit(c.tasks[next]);
    }
  }

  lemma YieldKeepsOthers(c: Cpu, x: nat)
    requires Known(c, c.current) && Known(c, x) && x != c.current
    ensures Known(Yield(c), x) && Yield(c).tasks[x] == c.tasks[x] && Yield(c).idle == c.idle
  {
  }

  lemma TickPrimed(c: Cpu, c': Cpu, now: nat)
    requires Inv(c) && Primed(c) && TickStep(c, c', now)
    ensures Primed(c')
  {
    hide Inv, Primed, Expire, ChargeCurrent, Wake, Picks, PicksNone, SystemTime, SwitchTo;
    InvKnown(c);
    ExpireKeeps(c);
    ExpirePrimed(c);
    InvKnown(ChargeCurrent(c));
    var e := Expire(ChargeCurrent(c));
    InvKnown(e);
    PrepareKeeps(c, now);
    WakePrimed(e, now, 0);
    var d := Prepare(c, now);
    InvKnown(d);
    PrimedTime(d);
    if k :| 0 <= k < |d.rq| && Picks(d, k) && c' == Switch(d, k) {
      QueuedRunnable(d, k);
      SwitchToPrimed(Remove(d.(vsystem := SystemTime(d)), k), d.rq[k]);
    } else {
      SwitchToPrimed(if d.rq == [] then d else d.(vsystem := SystemTime(d)), d.idle);
    }
  }

  lemma QueuedRunnable(c: Cpu, k: nat)
    requires Inv(c) && k < |c.rq|
    ensures Known(c, c.rq[k]) && c.rq[k] != c.idle && c.tasks[c.rq[k]].state == Runnable
  {
    assert InPlace(c, c.rq[k]);
  }

  lemma PrimedTime(c: Cpu)
    requires Primed(c) && QueueKnown(c) && Known(c, c.current)
    ensures Primed(c.(vsystem := SystemTime(c))) && forall k :: 0 <= k < |c.rq| && c.queueLen > 0 ==> Primed(Remove(c.(vsystem := SystemTime(c)), k))
  {
    SystemTimeBound(c);
  }

  lemma NextPrimed(c: Cpu, e: Event, c': Cpu)
    requires Inv(c) && Primed(c) && Next(c, e, c')
    ensures Primed(c')
  {
    hide TickStep, Enqueue, DeadlineFrom, Inv;
    InvKnown(c);
    assert c.current != c.idle ==> Fit(c.tasks[c.current]);
    match e
    case Tick(now) => TickPrimed(c, c', now);
    case MarkRunnable(t) => assert t != c.idle ==> Fit(c.tasks[t]); RefitPrimed(c, c', t);
    case QueueWoken(t) => WakingFit(c, t); EnqueuePrimed(c.(waking := c.waking - {t}), t);
    case Add(t, weight, slice) => EnqueuePrimed(c.(tasks := c.tasks[t := Task(Runnable, 0, false, weight, 0, slice, 0, 0)]), t);
    case SetPriority(t, p) => assert t != c.idle ==> Fit(c.tasks[t]); RefitPrimed(c, c', t);
    case StoreBlocked => RefitPrimed(c, c', c.current);
    case StoreSleep(_) => RefitPrimed(c, c', c.current);
    case Exit(_) => RefitPrimed(c, c', c.current);
  }

  lemma WakingFit(c: Cpu, t: nat)
    requires Inv(c) && Primed(c) && t in c.waking
    ensures Known(c, t) && (t != c.idle ==> Fit(c.tasks[t]))
  {
  }

  lemma {:induction false} RunPrimed(cs: seq<Cpu>, es: seq<Event>, i: nat)
    requires Run(cs, es) && Start(cs[0]) && Primed(cs[0]) && i < |cs|
    ensures Inv(cs[i]) && Primed(cs[i])
  {
    RunInv(cs, es, i);
    if i > 0 {
      RunPrimed(cs, es, i - 1);
      NextPrimed(cs[i - 1], es[i - 1], cs[i]);
    }
  }

  // ------------------------------------------------------------ dispatch order

  /** rq_dequeue always takes a task with the least virtual time in the queue. */
  lemma PickIsLeast(c: Cpu, k: nat, i: nat)
    requires Inv(c) && Primed(c) && Picks(c, k) && i < |c.rq|
    ensures c.tasks[c.rq[k]].vruntime <= c.tasks[c.rq[i]].vruntime
  {
    hide NoRepeat;
    assert c.rq[k] in c.rq && c.rq[i] in c.rq;
    assert Fit(c.tasks[c.rq[k]]);
  }

  /** The queue gives nothing only when it is empty or every queued virtual time is saturated. */
  lemma PicksSome(c: Cpu, i: nat)
    requires Inv(c) && i < |c.rq| && c.tasks[c.rq[i]].vruntime < MAX
    ensures !PicksNone(c)
  {
  }

  // --------------------------------------------------------------- one tick

  predicate IsRunning(c: Cpu, x: nat) {
    Known(c, x) && x != c.idle && x == c.current && c.tasks[x].state == Running
  }

  /** The running task's charge does not wrap around. */
  predicate NoWrap(c: Cpu) {
    IsRunning(c, c.current) ==> c.tasks[c.current].vruntime + SCALE <= MAX
  }

  /** Virtual times grow: the running task's by at least step, no other's at all. */
  predicate Grows(c: Cpu, c': Cpu, step: nat) {
    && |c'.tasks| == |c.tasks| && Known(c, c.current)
    && (forall x :: 0 <= x < |c.tasks| && x != c.current ==> c'.tasks[x].vruntime == c.tasks[x].vruntime)
    && (IsRunning(c, c.current) ==> c'.tasks[c.current].vruntime >= c.tasks[c.current].vruntime + step)
    && (!IsRunning(c, c.current) ==> c'.tasks[c.current].vruntime == c.tasks[c.current].vruntime)
  }

  /** s' is s, perhaps with the running task in front. */
  predicate Rejoins(c: Cpu, s: seq<nat>, s': seq<nat>) {
    s' == s || (s' == [c.current] + s && IsRunning(c, c.current))
  }

  lemma YieldEffect(c: Cpu)
    requires Primed(c) && Known(c, c.current) && c.tasks[c.current].state == Running
    ensures Grows(c, Yield(c), 0) && Rejoins(c, c.rq, Yield(c).rq)
    ensures Yield(c).current == c.current && Yield(c).idle == c.idle && Yield(c).sleepers == c.sleepers
    ensures Yield(c).tasks[c.current].state == Runnable
  {
    hide DeadlineFrom;
    assert c.current != c.idle ==> Fit(c.tasks[c.current]);
  }

  lemma ChargePositive(t: Task)
    requires Fit(t) && t.vruntime + SCALE <= MAX
    ensures t.vruntime + 64 <= Charged(t).vruntime <= t.vruntime + SCALE
  {
    Divides(WeightOf(t));
  }

  lemma Divides(w: nat)
    requires 1 <= w <= 16384
    ensures 64 <= 1048576 / w <= 1048576
  {
    DivBound(1048576, w);
    assert w * (1048576 / w + 1) <= 16384 * (1048576 / w + 1);
  }

  lemma DivBound(x: nat, w: nat)
    requires w >= 1
    ensures x < w * (x / w + 1)
  {
  }

  lemma ExpireEffect(c: Cpu)
    requires Primed(c) && Known(c, c.current) && NoWrap(c)
    ensures var e := Expire(ChargeCurrent(c));
            && Grows(c, e, 64) && Rejoins(c, c.rq, e.rq)
            && e.current == c.current && e.idle == c.idle && e.sleepers == c.sleepers
            && (IsRunning(e, e.current) ==> IsRunning(c, c.current))
  {
    hide Yield, Charged, Primed;
    var t := c.tasks[c.current];
    if IsRunning(c, c.current) { PrimedFit(c, c.current); ChargePositive(t); }
    ExpirePrimed(c);
    var c1 := ChargeCurrent(c);
    assert Grows(c, c1, 64);
    if SliceOver(c1) {
      var c2 := c1.(tasks := c1.tasks[c1.current := c1.tasks[c1.current].(used := 0)]);
      UsedPrimed(c1);
      YieldEffect(c2);
    }
  }

  lemma PrimedFit(c: Cpu, t: nat)
    requires Primed(c) && Known(c, t) && t != c.idle
    ensures Fit(c.tasks[t])
  {
  }

  lemma UsedPrimed(c: Cpu)
    requires Primed(c) && Known(c, c.current)
    ensures Primed(c.(tasks := c.tasks[c.current := c.tasks[c.current].(used := 0)]))
  {
  }

  lemma SwitchEffect(d: Cpu, k: nat)
    requires Inv(d) && Primed(d) && k < |d.rq|
    ensures d.queueLen > 0 && QueueKnown(d) && Known(d, d.current)
    ensures var c' := Switch(d, k);
            && Grows(d, c', 0) && c'.current == d.rq[k] && c'.idle == d.idle && c'.sleepers == d.sleepers
            && Rejoins(d, Without(d.rq, k), c'.rq) && IsRunning(c', c'.current)
  {
    hide Inv, Primed, Yield, SystemTime, Without;
    InvKnown(d);
    QueuedRunnable(d, k);
    PrimedTime(d);
    var r := Remove(d.(vsystem := SystemTime(d)), k);
    if r.tasks[r.current].state == Running && r.current != d.rq[k] {
      YieldEffect(r);
      YieldKeepsOthers(r, d.rq[k]);
    }
  }

  // ------------------------------------------------------------------- the bound

  predicate Competes(c: Cpu, x: nat) {
    Known(c, x) && (x in c.rq || IsRunning(c, x))
  }

  /** How many ticks x can still run before t goes first: no tick charges less than 64. */
  function Lag(c: Cpu, t: nat, x: nat): nat
    requires Known(c, t) && Known(c, x)
  {
    if x != t && Competes(c, x) && c.tasks[x].vruntime <= c.tasks[t].vruntime
    then (c.tasks[t].vruntime - c.tasks[x].vruntime) / 64 + 1 else 0
  }

  function TotalLag(c: Cpu, t: nat, n: nat): nat
    requires Known(c, t) && n <= |c.tasks|
  {
    if n == 0 then 0 else TotalLag(c, t, n - 1) + Lag(c, t, n - 1)
  }

  /** A task ahead of t is running. */
  predicate Ahead(c: Cpu, t: nat) {
    Known(c, t) && IsRunning(c, c.current) && c.current != t && c.tasks[c.current].vruntime <= c.tasks[t].vruntime
  }

  /** A tick that passes over the queued task t. */
  predicate Waits(c: Cpu, c': Cpu, t: nat) {
    && Known(c, t) && |c'.tasks| == |c.tasks| && c'.sleepers == [] && t in c'.rq && Ahead(c', t)
    && c'.tasks[t].vruntime == c.tasks[t].vruntime
    && (forall x :: 0 <= x < |c.tasks| ==> Lag(c', t, x) <= Lag(c, t, x))
    && (Ahead(c, t) ==> Lag(c', t, c.current) < Lag(c, t, c.current))
  }

  /** Without sleepers a tick picks from the old queue and the running task, by virtual time. */
  lemma TickPicks(c: Cpu, c': Cpu, now: nat, t: nat) returns (d: Cpu, k: nat)
    requires Inv(c) && Primed(c) && TickStep(c, c', now) && c.sleepers == [] && t in c.rq
    requires NoWrap(c) && Known(c, t) && c.tasks[t].vruntime < MAX
    ensures Grows(c, d, 64) && Rejoins(c, c.rq, d.rq) && d.current == c.current && d.idle == c.idle && d.sleepers == []
    ensures IsRunning(d, d.current) ==> IsRunning(c, c.current)
    ensures Inv(d) && Primed(d) && k < |d.rq| && d.queueLen > 0 && QueueKnown(d) && Known(d, d.current) && c' == Switch(d, k)
    ensures t < |d.tasks| && d.tasks[d.rq[k]].vruntime <= d.tasks[t].vruntime
  {
    hide Inv, Primed, Picks, PicksNone, Expire, ChargeCurrent, Switch, SwitchIdle, NoWrap;
    InvKnown(c);
    ExpireKeeps(c);
    ExpireEffect(c);
    ExpirePrimed(c);
    InvKnown(ChargeCurrent(c));
    d := Expire(ChargeCurrent(c));
    PrepareKeeps(c, now);
    assert Prepare(c, now) == d;
    InvKnown(d);
    QueuedNotRunning(c, t);
    var j := PlaceIn(d.rq, t);
    PicksSome(d, j);
    k :| 0 <= k < |d.rq| && Picks(d, k) && c' == Switch(d, k);
    PickIsLeast(d, k, j);
  }

  lemma PlaceIn(s: seq<nat>, t: nat) returns (j: nat)
    requires t in s
    ensures j < |s| && s[j] == t
  {
    j :| 0 <= j < |s| && s[j] == t;
  }

  lemma TickWaits(c: Cpu, c': Cpu, now: nat, t: nat)
    requires Inv(c) && Primed(c) && TickStep(c, c', now) && c.sleepers == [] && t in c.rq
    requires NoWrap(c) && Known(c, t) && c.tasks[t].vruntime < MAX
    ensures c'.current == t || Waits(c, c', t)
  {
    hide Inv, Primed, TickStep, Switch, Grows, Rejoins, NoWrap, Waits, Without;
    InvKnown(c);
    var d, k := TickPicks(c, c', now, t);
    SwitchEffect(d, k);
    QueuedNotRunning(c, t);
    QueuedRunnable(d, k);
    if d.rq[k] != t { PassedOver(c, d, c', k, t); }
  }

  lemma QueuedNotRunning(c: Cpu, t: nat)
    requires Inv(c) && t in c.rq
    ensures t != c.idle && !IsRunning(c, t)
  {
    assert Known(c, t) ==> t == c.idle || InPlace(c, t);
  }

  lemma Fewer64(a: nat, b: nat)
    ensures a <= b ==> a / 64 <= b / 64
    ensures a + 64 <= b ==> a / 64 < b / 64
  {
  }

  /** A task that ran a tick has used up at least one of its rounds. */
  lemma LagShrinks(c: Cpu, c': Cpu, t: nat, x: nat)
    requires Known(c, t) && Known(c, x) && |c'.tasks| == |c.tasks| && c'.tasks[t].vruntime == c.tasks[t].vruntime
    requires (Competes(c', x) ==> Competes(c, x)) && c'.tasks[x].vruntime >= c.tasks[x].vruntime
    ensures Lag(c', t, x) <= Lag(c, t, x)
    ensures Lag(c, t, x) > 0 && c'.tasks[x].vruntime >= c.tasks[x].vruntime + 64 ==> Lag(c', t, x) < Lag(c, t, x)
  {
    hide Competes;
    if c'.tasks[x].vruntime <= c.tasks[t].vruntime {
      Fewer64(c.tasks[t].vruntime - c'.tasks[x].vruntime, c.tasks[t].vruntime - c.tasks[x].vruntime);
    }
  }

  lemma PassedOver(c: Cpu, d: Cpu, c': Cpu, k: nat, t: nat)
    requires Known(c, c.current) && Known(c, t) && t in c.rq && !IsRunning(c, t)
    requires Grows(c, d, 64) && Rejoins(c, c.rq, d.rq) && d.current == c.current && d.idle == c.idle
    requires IsRunning(d, d.current) ==> IsRunning(c, c.current)
    requires Grows(d, c', 0) && k < |d.rq| && c'.current == d.rq[k] && c'.idle == d.idle && c'.sleepers == []
    requires Rejoins(d, Without(d.rq, k), c'.rq) && IsRunning(c', c'.current) && d.rq[k] != t && QueueKnown(d)
    requires d.tasks[d.rq[k]].vruntime <= d.tasks[t].vruntime && !IsRunning(d, d.rq[k])
    ensures Waits(c, c', t)
  {
    assert t in d.rq;
    StillThere(d.rq, k, t);
    assert t in c'.rq;
    forall x | 0 <= x < |c.tasks| && Competes(c', x) ensures Competes(c, x) {
      assert x in c'.rq ==> x in Without(d.rq, k) || x == d.current;
      assert x in Without(d.rq, k) ==> x in d.rq;
    }
    forall x | 0 <= x < |c.tasks| ensures Lag(c', t, x) <= Lag(c, t, x) {
      assert c'.tasks[x].vruntime >= c.tasks[x].vruntime;
      LagShrinks(c, c', t, x);
    }
    LagShrinks(c, c', t, c.current);
  }

  lemma StillThere(s: seq<nat>, k: nat, t: nat)
    requires k < |s| && s[k] != t && t in s
    ensures t in Without(s, k)
  {
    var i :| 0 <= i < |s| && s[i] == t;
    assert Without(s, k)[if i < k then i else i - 1] == t;
  }

  lemma {:induction false} LagSum(c: Cpu, c': Cpu, t: nat, x: nat, n: nat)
    requires Known(c, t) && |c'.tasks| == |c.tasks| && n <= |c.tasks| && x < |c.tasks|
    requires forall y :: 0 <= y < |c.tasks| ==> Lag(c', t, y) <= Lag(c, t, y)
    ensures TotalLag(c', t, n) <= TotalLag(c, t, n)
    ensures x < n && Lag(c', t, x) < Lag(c, t, x) ==> TotalLag(c', t, n) < TotalLag(c, t, n)
  {
    hide Lag;
    if n > 0 { LagSum(c, c', t, x, n - 1); }
  }

  lemma {:induction false} LagAtLeast(c: Cpu, t: nat, x: nat, n: nat)
    requires Known(c, t) && n <= |c.tasks| && x < n
    ensures Lag(c, t, x) <= TotalLag(c, t, n)
  {
    hide Lag;
    if x < n - 1 { LagAtLeast(c, t, x, n - 1); }
  }

  /** Consecutive ticks, and nothing but ticks. */
  ghost predicate Ticks(cs: seq<Cpu>, nows: seq<nat>) {
    && |cs| == |nows| + 1
    && forall i :: 0 <= i < |nows| ==> Inv(cs[i]) ==> TickStep(cs[i], cs[i + 1], nows[i])
  }

  /** t has been passed over n times and the others' total lag has shrunk accordingly. */
  ghost predicate Waiting(c: Cpu, first: Cpu, t: nat, n: nat) {
    && Inv(c) && Primed(c) && Known(first, t) && |c.tasks| == |first.tasks| && c.sleepers == []
    && t in c.rq && c.tasks[t].vruntime == first.tasks[t].vruntime
    && (n > 0 ==> Ahead(c, t))
    && (n == 0 ==> c == first)
    && TotalLag(c, t, |c.tasks|) + n <= TotalLag(first, t, |first.tasks|) + 1
    && (n == 0 ==> NoWrap(c))
  }

  lemma WaitingStep(c: Cpu, c': Cpu, first: Cpu, now: nat, t: nat, n: nat)
    requires Waiting(c, first, t, n) && TickStep(c, c', now) && c'.current != t
    requires first.tasks[t].vruntime + SCALE <= MAX
    ensures Waiting(c', first, t, n + 1)
  {
    hide Inv, Primed, TickStep, TotalLag, Lag;
    TickKeeps(c, c', now);
    TickPrimed(c, c', now);
    TickWaits(c, c', now, t);
    LagSum(c, c', t, c.current, |c.tasks|) by { InvKnown(c); }
    InvKnown(c);
  }

  /** A queued task is dispatched by the time the ticks outnumber the total lag of the others, a 64th
      of the virtual time they have before them. */
  lemma {:induction false} NoStarvation(cs: seq<Cpu>, nows: seq<nat>, t: nat)
    requires Ticks(cs, nows) && Inv(cs[0]) && Primed(cs[0]) && cs[0].sleepers == [] && t in cs[0].rq && NoWrap(cs[0])
    requires Known(cs[0], t) && cs[0].tasks[t].vruntime + SCALE <= MAX
    requires |nows| > TotalLag(cs[0], t, |cs[0].tasks|)
    ensures exists i :: 1 <= i <= TotalLag(cs[0], t, |cs[0].tasks|) + 1 && cs[i].current == t
  {
    hide Inv, Primed, TickStep, TotalLag, Lag, NoWrap;
    var bound := TotalLag(cs[0], t, |cs[0].tasks|);
    var n := 0;
    assert Waiting(cs[0], cs[0], t, 0);
    while n < bound + 1
      invariant n <= bound + 1 && Waiting(cs[n], cs[0], t, n)
    {
      if cs[n + 1].current == t { return; }
      WaitingStep(cs[n], cs[n + 1], cs[0], nows[n], t, n);
      n := n + 1;
    }
    LagPositive(cs[n], t);
    assert false;
  }

  lemma LagPositive(c: Cpu, t: nat)
    requires Ahead(c, t)
    ensures TotalLag(c, t, |c.tasks|) >= 1
  {
    hide TotalLag;
    assert Lag(c, t, c.current) >= 1;
    LagAtLeast(c, t, c.current, |c.tasks|);
  }
}
