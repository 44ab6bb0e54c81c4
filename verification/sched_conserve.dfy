/** Conservation: every step of the scheduler keeps each task in the one place its state says. */
module SchedConserve {
  import opened SchedModel

  lemma WithoutFacts(s: seq<nat>, k: nat)
    requires NoRepeat(s) && k < |s|
    ensures NoRepeat(Without(s, k))
    ensures forall x :: x in Without(s, k) <==> x in s && x != s[k]
  {
    forall x ensures x in Without(s, k) <==> x in s && x != s[k] {
      if x in s && x != s[k] {
        var i :| 0 <= i < |s| && s[i] == x;
        assert Without(s, k)[if i < k then i else i - 1] == x;
      }
    }
  }

  /** The invariant while task t is in neither list and about to be queued. */
  predicate Homeless(c: Cpu, t: nat) {
    && Known(c, t) && t != c.idle && Known(c, c.current) && Known(c, c.idle)
    && AllKnown(c, c.rq) && AllKnown(c, c.sleepers) && (forall x :: x in c.waking ==> Known(c, x))
    && NoRepeat(c.rq) && NoRepeat(c.sleepers) && c.queueLen == |c.rq|
    && IdleOk(c)
    && c.tasks[t].state == Runnable && t !in c.rq && t !in c.sleepers && t !in c.waking
    && (forall x {:trigger InPlace(c, x)} :: 0 <= x < |c.tasks| && x != c.idle && x != t ==> InPlace(c, x))
  }

  lemma EnqueueKeeps(c: Cpu, t: nat)
    requires Homeless(c, t)
    ensures Inv(Enqueue(c, t))
  {
    var c' := Enqueue(c, t);
    PushNoRepeat(c.rq, t);
    forall x | 0 <= x < |c'.tasks| && x != c'.idle ensures InPlace(c', x) {
      assert x != t ==> InPlace(c, x);
    }
  }

  lemma PushNoRepeat(s: seq<nat>, t: nat)
    requires NoRepeat(s) && t !in s
    ensures NoRepeat([t] + s)
  {
  }

  /** Fields that say nothing about where a task is may change freely. */
  predicate SameStates(c: Cpu, c': Cpu) {
    && |c'.tasks| == |c.tasks| && c'.rq == c.rq && c'.sleepers == c.sleepers && c'.waking == c.waking
    && c'.current == c.current && c'.idle == c.idle && c'.queueLen == c.queueLen
    && forall t :: 0 <= t < |c.tasks| ==> c'.tasks[t].state == c.tasks[t].state
  }

  lemma StatesKeep(c: Cpu, c': Cpu)
    requires Inv(c) && SameStates(c, c')
    ensures Inv(c')
  {
    forall x | 0 <= x < |c'.tasks| && x != c'.idle ensures InPlace(c', x) { assert InPlace(c, x); }
  }

  /** A running task that gives up the CPU is queued; idle just becomes runnable. */
  lemma YieldKeeps(c: Cpu)
    requires Inv(c) && c.tasks[c.current].state == Running
    ensures Inv(Yield(c)) && Yield(c).current == c.current && Yield(c).idle == c.idle
    ensures Yield(c).tasks[c.current].state == Runnable
    ensures c.current != c.idle ==> c.current in Yield(c).rq
    ensures Yield(c).sleepers == c.sleepers && |Yield(c).tasks| == |c.tasks|
  {
    var d := c.(tasks := c.tasks[c.current := c.tasks[c.current].(state := Runnable)]);
    if c.current == c.idle {
      forall x | 0 <= x < |d.tasks| && x != d.idle ensures InPlace(d, x) { assert InPlace(c, x); }
    } else {
      assert InPlace(c, c.current);
      forall x | 0 <= x < |d.tasks| && x != d.idle && x != c.current ensures InPlace(d, x) { assert InPlace(c, x); }
      EnqueueKeeps(d, c.current);
    }
  }

  lemma ExpireKeeps(c: Cpu)
    requires Inv(c)
    ensures Inv(ChargeCurrent(c)) && Inv(Expire(ChargeCurrent(c)))
  {
    hide Inv, Yield;
    InvKnown(c);
    var c1 := ChargeCurrent(c);
    StatesKeep(c, c1);
    if SliceOver(c1) {
      var c2 := c1.(tasks := c1.tasks[c1.current := c1.tasks[c1.current].(used := 0)]);
      StatesKeep(c1, c2);
      YieldKeeps(c2);
    }
  }

  lemma InvKnown(c: Cpu)
    requires Inv(c)
    ensures Known(c, c.current) && Known(c, c.idle) && QueueKnown(c) && SleepersKnown(c) && c.queueLen == |c.rq|
  {
  }

  lemma WakeOneKeeps(c: Cpu, i: nat)
    requires Inv(c) && i < |c.sleepers|
    ensures Known(c, c.sleepers[i]) && Inv(WakeAt(c, i))
  {
    var t := c.sleepers[i];
    WithoutFacts(c.sleepers, i);
    var d := c.(sleepers := Without(c.sleepers, i), tasks := c.tasks[t := c.tasks[t].(wakeAt := 0, state := Runnable)]);
    forall x | 0 <= x < |d.tasks| && x != d.idle && x != t ensures InPlace(d, x) { assert InPlace(c, x); }
    if t != c.idle {
      assert InPlace(c, t);
      EnqueueKeeps(d, t);
    }
  }

  lemma {:induction false} WakeKeeps(c: Cpu, now: nat, i: nat)
    requires Inv(c) && i <= |c.sleepers|
    ensures SleepersKnown(c) && Inv(Wake(c, now, i))
    ensures Wake(c, now, i).current == c.current && Wake(c, now, i).idle == c.idle
    ensures |Wake(c, now, i).tasks| == |c.tasks|
    decreases |c.sleepers| - i
  {
    hide Inv;
    InvKnown(c);
    if i < |c.sleepers| {
      if now >= c.tasks[c.sleepers[i]].wakeAt {
        WakeOneKeeps(c, i);
        WakeKeeps(WakeAt(c, i), now, i);
      } else {
        WakeKeeps(c, now, i + 1);
      }
    }
  }

  lemma PrepareKeeps(c: Cpu, now: nat)
    requires Inv(c)
    ensures Known(c, c.current) && SleepersKnown(c) && Inv(Prepare(c, now))
    ensures Prepare(c, now).current == c.current && Prepare(c, now).idle == c.idle
    ensures |Prepare(c, now).tasks| == |c.tasks|
  {
    hide Inv, Wake;
    InvKnown(c);
    ExpireKeeps(c);
    WakeKeeps(Expire(ChargeCurrent(c)), now, 0);
  }

  lemma RemoveKeeps(c: Cpu, k: nat, v: nat)
    requires Inv(c) && k < |c.rq|
    ensures c.queueLen > 0 && Homeless(Remove(c.(vsystem := v), k), c.rq[k])
  {
    var d, t := Remove(c.(vsystem := v), k), c.rq[k];
    WithoutFacts(c.rq, k);
    assert InPlace(c, t);
    forall x | 0 <= x < |d.tasks| && x != d.idle && x != t ensures InPlace(d, x) { assert InPlace(c, x); }
  }

  /** While t waits to be dispatched, the running task, if it is another one, is queued. */
  lemma YieldBeside(c: Cpu, t: nat)
    requires Homeless(c, t) && c.tasks[c.current].state == Running && c.current != t
    ensures Homeless(Yield(c), t) && Yield(c).current == c.current && Yield(c).tasks[c.current].state == Runnable
    ensures c.current != c.idle ==> c.current in Yield(c).rq
  {
    var d := c.(tasks := c.tasks[c.current := c.tasks[c.current].(state := Runnable)]);
    assert c.current != c.idle ==> InPlace(c, c.current);
    forall x | 0 <= x < |d.tasks| && x != d.idle && x != t && x != c.current ensures InPlace(d, x) { assert InPlace(c, x); }
    if c.current != c.idle {
      PushNoRepeat(d.rq, c.current);
      var e := Yield(c);
      forall x | 0 <= x < |e.tasks| && x != e.idle && x != t ensures InPlace(e, x) {
        assert x != c.current ==> InPlace(d, x);
      }
    }
  }

  lemma DispatchKeeps(c: Cpu, t: nat)
    requires Homeless(c, t) && (c.tasks[c.current].state == Running ==> c.current == t)
    ensures Inv(Dispatch(c, t))
  {
    var d := Dispatch(c, t);
    forall x | 0 <= x < |d.tasks| && x != d.idle ensures InPlace(d, x) {
      assert x != t ==> InPlace(c, x);
    }
  }

  lemma DispatchIdleKeeps(c: Cpu)
    requires Inv(c) && (c.tasks[c.current].state == Running ==> c.current == c.idle)
    ensures Inv(Dispatch(c, c.idle))
  {
    var d := Dispatch(c, c.idle);
    forall x | 0 <= x < |d.tasks| && x != d.idle ensures InPlace(d, x) { assert InPlace(c, x); }
  }

  lemma SwitchKeeps(c: Cpu, k: nat)
    requires Inv(c) && k < |c.rq|
    ensures c.queueLen > 0 && QueueKnown(c) && Known(c, c.current) && Inv(Switch(c, k))
    ensures Switch(c, k).current == c.rq[k] && Switch(c, k).tasks[c.rq[k]].state == Running
    ensures c.tasks[c.current].state == Running && c.current != c.idle ==> c.current in Switch(c, k).rq
  {
    hide Inv, Homeless, Yield, SystemTime;
    InvKnown(c);
    var d, t := Remove(c.(vsystem := SystemTime(c)), k), c.rq[k];
    RemoveKeeps(c, k, SystemTime(c));
    HomelessFacts(d, t);
    if d.tasks[d.current].state == Running {
      YieldBeside(d, t);
      HomelessFacts(Yield(d), t);
      DispatchKeeps(Yield(d), t);
    } else {
      DispatchKeeps(d, t);
    }
  }

  lemma HomelessFacts(c: Cpu, t: nat)
    requires Homeless(c, t)
    ensures Known(c, t) && Known(c, c.current) && c.tasks[t].state == Runnable
  {
  }

  lemma SwitchIdleKeeps(c: Cpu)
    requires Inv(c)
    ensures QueueKnown(c) && Known(c, c.current) && Known(c, c.idle) && Inv(SwitchIdle(c))
    ensures c.tasks[c.current].state == Running && c.current != c.idle ==> c.current in SwitchIdle(c).rq
  {
    hide Inv, Yield, SystemTime;
    InvKnown(c);
    var d := if c.rq == [] then c else c.(vsystem := SystemTime(c));
    StatesKeep(c, d);
    if d.tasks[d.current].state == Running && d.current != d.idle {
      YieldKeeps(d);
      DispatchIdleKeeps(Yield(d));
    } else {
      DispatchIdleKeeps(d);
    }
  }

  // ------------------------------------------------------------------------ runs

  datatype Event =
    | Tick(now: nat)
    | StoreBlocked                  // sched_block, before its tick
    | StoreSleep(wakeAt: nat)       // the locked region of sched_sleep, before its tick
    | MarkRunnable(t: nat)          // the compare-and-exchange of sched_unblock
    | QueueWoken(t: nat)            // the locked region of sched_unblock
    | Add(t: nat, weight: nat, slice: nat)
    | Exit(state: State)            // sched_task_exit, before its tick
    | SetPriority(t: nat, priority: nat)

  function PriorityWeight(p: nat): nat {
    if p == 0 then 16384 else if p == 1 then 8192 else if p == 2 then 4096 else if p == 3 then 2048
    else if p == 4 then 1024 else if p == 5 then 512 else if p == 6 then 256 else 128
  }

  function Reweighted(t: Task, p: nat): Task {
    var w := PriorityWeight(p);
    t.(weight := w, used := 0, deadline := DeadlineFrom(t.vruntime, t.slice, w))
  }

  /** The locked region of sched_sleep. */
  function Asleep(c: Cpu, wakeAt: nat): Cpu
    requires Known(c, c.current)
  {
    c.(tasks := c.tasks[c.current := c.tasks[c.current].(state := Sleeping, wakeAt := wakeAt)], sleepers := [c.current] + c.sleepers)
  }

  ghost predicate TickStep(c: Cpu, c': Cpu, now: nat)
    requires Inv(c)
  {
    PrepareKeeps(c, now);
    var d := Prepare(c, now);
    (exists k :: 0 <= k < |d.rq| && Picks(d, k) && c' == Switch(d, k)) || (PicksNone(d) && c' == SwitchIdle(d))
  }

  /** The code that runs now belongs to the current task; the start-up code runs as the idle task. */
  predicate MayCall(c: Cpu)
    requires Known(c, c.current)
  {
    c.current == c.idle || c.tasks[c.current].state == Running
  }

  /** The calls the running code makes on itself are made while it runs; a new task takes a dead slot. */
  ghost predicate Next(c: Cpu, e: Event, c': Cpu)
    requires Inv(c)
  {
    match e
    case Tick(now) => TickStep(c, c', now)
    case StoreBlocked =>
      MayCall(c) && c' == SetState(c, c.current, Blocked)
    case StoreSleep(wakeAt) =>
      MayCall(c) && c.current !in c.sleepers && c' == Asleep(c, wakeAt)
    case MarkRunnable(t) =>
      && Known(c, t)
      && c' == if c.tasks[t].state == Blocked then SetState(c, t, Runnable).(waking := c.waking + {t}) else c
    case QueueWoken(t) => t in c.waking && c' == Enqueue(c.(waking := c.waking - {t}), t)
    case Add(t, weight, slice) =>
      && Known(c, t) && t != c.idle && t != c.current && c.tasks[t].state == Dead && weight <= 16384
      && c' == Enqueue(c.(tasks := c.tasks[t := Task(Runnable, 0, false, weight, 0, slice, 0, 0)]), t)
    case Exit(s) =>
      MayCall(c) && (s == Dead || s == Zombie) && c' == SetState(c, c.current, s)
    case SetPriority(t, p) => Known(c, t) && c' == c.(tasks := c.tasks[t := Reweighted(c.tasks[t], p)])
  }

  lemma TickKeeps(c: Cpu, c': Cpu, now: nat)
    requires Inv(c) && TickStep(c, c', now)
    ensures Inv(c')
  {
    hide Inv, Prepare, Picks, PicksNone, Switch, SwitchIdle;
    PrepareKeeps(c, now);
    var d := Prepare(c, now);
    InvKnown(d);
    if k :| 0 <= k < |d.rq| && Picks(d, k) && c' == Switch(d, k) { SwitchKeeps(d, k); } else { SwitchIdleKeeps(d); }
  }

  lemma SelfKeeps(c: Cpu, s: State)
    requires Inv(c) && MayCall(c)
    requires s == Blocked || s == Dead || s == Zombie
    ensures Inv(SetState(c, c.current, s))
  {
    var d := SetState(c, c.current, s);
    forall x | 0 <= x < |d.tasks| && x != d.idle ensures InPlace(d, x) { assert InPlace(c, x); }
  }

  /** Going to sleep keeps the invariant exactly if the task is not in the sleep list yet.  A task other
      than idle that runs never is; idle may be, since it runs again before its time when nothing else
      can. */
  lemma SleepKeepsIff(c: Cpu, wakeAt: nat)
    requires Inv(c) && MayCall(c)
    ensures Inv(Asleep(c, wakeAt)) <==> c.current !in c.sleepers
    ensures c.current != c.idle ==> c.current !in c.sleepers
  {
    var d := Asleep(c, wakeAt);
    assert c.current != c.idle ==> InPlace(c, c.current);
    if c.current in c.sleepers {
      var i :| 0 <= i < |c.sleepers| && c.sleepers[i] == c.current;
      assert d.sleepers[0] == d.sleepers[i + 1];
    } else {
      PushNoRepeat(c.sleepers, c.current);
      forall x | 0 <= x < |d.tasks| && x != d.idle ensures InPlace(d, x) { assert InPlace(c, x); }
    }
  }

  lemma MarkKeeps(c: Cpu, t: nat)
    requires Inv(c) && Known(c, t) && c.tasks[t].state == Blocked
    ensures Inv(SetState(c, t, Runnable).(waking := c.waking + {t}))
  {
    var d := SetState(c, t, Runnable).(waking := c.waking + {t});
    forall x | 0 <= x < |d.tasks| && x != d.idle ensures InPlace(d, x) { assert InPlace(c, x); }
  }

  /** A marked task is queued; idle needs no queue. */
  lemma WokenKeeps(c: Cpu, t: nat)
    requires Inv(c) && t in c.waking
    ensures Known(c, t) && Inv(Enqueue(c.(waking := c.waking - {t}), t)) && t !in c.rq
  {
    var d := c.(waking := c.waking - {t});
    forall x | 0 <= x < |d.tasks| && x != d.idle && x != t ensures InPlace(d, x) { assert InPlace(c, x); }
    if t != c.idle {
      assert InPlace(c, t);
      EnqueueKeeps(d, t);
    }
  }

  lemma AddHomeless(c: Cpu, t: nat, k: Task)
    requires Inv(c) && Known(c, t) && t != c.idle && t != c.current && c.tasks[t].state == Dead && k.state == Runnable
    ensures Homeless(c.(tasks := c.tasks[t := k]), t)
  {
    var d := c.(tasks := c.tasks[t := k]);
    assert InPlace(c, t);
    forall x | 0 <= x < |d.tasks| && x != d.idle && x != t ensures InPlace(d, x) { assert InPlace(c, x); }
  }

  lemma NextInv(c: Cpu, e: Event, c': Cpu)
    requires Inv(c) && Next(c, e, c')
    ensures Inv(c')
  {
    hide Inv, Homeless, TickStep, Enqueue, Reweighted;
    InvKnown(c);
    match e
    case Tick(now) => TickKeeps(c, c', now);
    case StoreBlocked => SelfKeeps(c, Blocked);
    case StoreSleep(wakeAt) => SleepKeepsIff(c, wakeAt);
    case MarkRunnable(t) => if c.tasks[t].state == Blocked { MarkKeeps(c, t); }
    case QueueWoken(t) => WokenKeeps(c, t);
    case Add(t, weight, slice) =>
      var k := Task(Runnable, 0, false, weight, 0, slice, 0, 0);
      AddHomeless(c, t, k);
      EnqueueKeeps(c.(tasks := c.tasks[t := k]), t);
    case Exit(s) => SelfKeeps(c, s);
    case SetPriority(t, p) =>
      assert Reweighted(c.tasks[t], p).state == c.tasks[t].state by { ReweightedState(c.tasks[t], p); }
      StatesKeep(c, c');
  }

  lemma ReweightedState(t: Task, p: nat)
    ensures Reweighted(t, p).state == t.state
  {
  }

  /** cs[0] to the last state, one event at a time. */
  ghost predicate Run(cs: seq<Cpu>, es: seq<Event>) {
    && |cs| == |es| + 1
    && forall i :: 0 <= i < |es| ==> Inv(cs[i]) ==> Next(cs[i], es[i], cs[i + 1])
  }

  /** sched_init: idle is current and the lists are empty. */
  predicate Start(c: Cpu) {
    && Known(c, c.idle) && c.current == c.idle && c.rq == [] && c.sleepers == [] && c.waking == {} && c.queueLen == 0
    && c.tasks[c.idle].state == Runnable
    && forall t :: 0 <= t < |c.tasks| && t != c.idle ==> c.tasks[t].state == Dead
  }

  /** In every state of every run, each task is in the one place its state says. */
  lemma {:induction false} RunInv(cs: seq<Cpu>, es: seq<Event>, i: nat)
    requires Run(cs, es) && Start(cs[0]) && i < |cs|
    ensures Inv(cs[i])
  {
    if i > 0 {
      RunInv(cs, es, i - 1);
      NextInv(cs[i - 1], es[i - 1], cs[i]);
    }
  }

  /** That the idle task sleeps while it is in the list is reached from sched_init by two calls of
      sched_sleep: the tick of the first finds nothing else to run and resumes idle before its time. */
  lemma IdleSleepsTwice(c: Cpu, first: nat, now: nat, second: nat) returns (c2: Cpu)
    requires Start(c) && now < first
    ensures Run([c, Asleep(c, first), c2], [StoreSleep(first), Tick(now)])
    ensures Inv(c2) && MayCall(c2) && c2.current == c2.idle && c2.current in c2.sleepers
    ensures !Inv(Asleep(c2, second))
  {
    var cs, es := [c, Asleep(c, first)], [StoreSleep(first)];
    var c1 := cs[1];
    RunInv(cs, es, 0);
    SleepKeepsIff(c, first);
    RunInv(cs, es, 1);
    c2 := Dispatch(c1, c1.idle);
    NothingDue(c1, now);
    NextInv(c1, Tick(now), c2);
    SleepKeepsIff(c2, second);
  }

  /** A tick with an empty queue, no due sleeper and no running task goes to idle. */
  lemma NothingDue(c: Cpu, now: nat)
    requires Inv(c) && c.rq == [] && c.tasks[c.current].state != Running
    requires |c.sleepers| == 1 && now < c.tasks[c.sleepers[0]].wakeAt
    ensures TickStep(c, Dispatch(c, c.idle), now)
  {
    PrepareKeeps(c, now);
    assert Wake(c, now, 0) == Wake(c, now, 1) == c;
  }

  /** What the invariant says of one task: exactly one place, and the queue length is right. */
  lemma OnePlace(c: Cpu, t: nat)
    requires Inv(c) && Known(c, t) && t != c.idle
    ensures var s := c.tasks[t].state;
            && (s == Running ==> t == c.current && t !in c.rq && t !in c.sleepers)
            && (s == Runnable ==> t !in c.sleepers && ((t in c.rq && t !in c.waking) || (t !in c.rq && t in c.waking)))
            && (s == Sleeping ==> t in c.sleepers && t !in c.rq && t !in c.waking)
            && (s == Blocked || s == Zombie || s == Dead ==> t !in c.rq && t !in c.sleepers && t !in c.waking)
            && multiset(c.rq)[t] <= 1 && multiset(c.sleepers)[t] <= 1
    ensures c.queueLen == |c.rq|
  {
    assert InPlace(c, t);
    CountOnce(c.rq, t);
    CountOnce(c.sleepers, t);
  }

  lemma {:induction false} CountOnce(s: seq<nat>, t: nat)
    requires NoRepeat(s)
    ensures multiset(s)[t] <= 1
  {
    if s != [] {
      CountOnce(s[1..], t);
      assert s == [s[0]] + s[1..];
      if t == s[0] { assert t !in s[1..]; assert multiset(s[1..])[t] == 0; }
    }
  }

  predicate Ready(c: Cpu, t: nat) {
    Known(c, t) && (c.tasks[t].state == Running || c.tasks[t].state == Runnable)
  }

  /** Steps that take no task out of the ready states. */
  ghost predicate KeepsReady(c: Cpu, c': Cpu) {
    c'.waking == c.waking && forall t {:trigger Ready(c', t)} :: Ready(c, t) ==> Ready(c', t)
  }

  lemma YieldReady(c: Cpu)
    requires Known(c, c.current)
    ensures KeepsReady(c, Yield(c))
  {
  }

  lemma ExpireReady(c: Cpu)
    requires Known(c, c.current)
    ensures KeepsReady(c, Expire(ChargeCurrent(c)))
  {
    hide Yield;
    var c1 := ChargeCurrent(c);
    YieldReady(c1.(tasks := c1.tasks[c1.current := c1.tasks[c1.current].(used := 0)]));
  }

  lemma {:induction false} WakeReady(c: Cpu, now: nat, i: nat)
    requires SleepersKnown(c) && i <= |c.sleepers|
    ensures KeepsReady(c, Wake(c, now, i))
    decreases |c.sleepers| - i
  {
    if i < |c.sleepers| {
      if now >= c.tasks[c.sleepers[i]].wakeAt {
        var d := WakeAt(c, i);
        WakeReady(d, now, i);
        forall t | Ready(c, t) ensures Ready(d, t) {}
      } else {
        WakeReady(c, now, i + 1);
      }
    }
  }

  lemma SwitchReady(c: Cpu, next: nat)
    requires Known(c, c.current) && Known(c, next)
    ensures KeepsReady(c, SwitchTo(c, next))
  {
    YieldReady(c);
    var d := if c.tasks[c.current].state == Running && c.current != next then Yield(c) else c;
    forall t | Ready(c, t) ensures Ready(d, t) {}
  }

  lemma TickReady(c: Cpu, c': Cpu, now: nat)
    requires Inv(c) && TickStep(c, c', now)
    ensures KeepsReady(c, c')
  {
    hide Inv, Expire, ChargeCurrent, Wake, Picks, PicksNone, SwitchTo, SystemTime, KeepsReady;
    InvKnown(c);
    ExpireKeeps(c);
    InvKnown(ChargeCurrent(c));
    PrepareKeeps(c, now);
    ExpireReady(c);
    var e := Expire(ChargeCurrent(c));
    InvKnown(e);
    WakeReady(e, now, 0);
    var d := Prepare(c, now);
    InvKnown(d);
    ReadyTrans(c, e, d);
    if k :| 0 <= k < |d.rq| && Picks(d, k) && c' == Switch(d, k) {
      var r := Remove(d.(vsystem := SystemTime(d)), k);
      SwitchReady(r, d.rq[k]);
      ReadySame(d, r);
      ReadyTrans(d, r, c');
    } else {
      var r := if d.rq == [] then d else d.(vsystem := SystemTime(d));
      SwitchReady(r, d.idle);
      ReadySame(d, r);
      ReadyTrans(d, r, c');
    }
    ReadyTrans(c, d, c');
  }

  lemma ReadyTrans(c: Cpu, d: Cpu, e: Cpu)
    requires KeepsReady(c, d) && KeepsReady(d, e)
    ensures KeepsReady(c, e)
  {
    forall t | Ready(c, t) ensures Ready(e, t) { assert Ready(d, t); }
  }

  lemma ReadySame(c: Cpu, d: Cpu)
    requires d.tasks == c.tasks && d.waking == c.waking
    ensures KeepsReady(c, d)
  {
  }

  /** A task that was running before a tick is running or queued after it: it is never dropped. */
  lemma RunningNotDropped(c: Cpu, c': Cpu, now: nat)
    requires Inv(c) && TickStep(c, c', now) && c.tasks[c.current].state == Running && c.current != c.idle
    ensures Inv(c') && c'.idle == c.idle && (c'.current == c.current || c.current in c'.rq)
  {
    hide TickStep;
    TickKeeps(c, c', now);
    TickReady(c, c', now);
    TickIdle(c, c', now);
    assert InPlace(c, c.current);
    assert Ready(c', c.current);
    assert InPlace(c', c.current);
  }

  lemma TickIdle(c: Cpu, c': Cpu, now: nat)
    requires Inv(c) && TickStep(c, c', now)
    ensures c'.idle == c.idle && |c'.tasks| == |c.tasks|
  {
    hide Inv, Prepare, Picks, PicksNone, SystemTime;
    PrepareKeeps(c, now);
    InvKnown(Prepare(c, now));
  }
}
