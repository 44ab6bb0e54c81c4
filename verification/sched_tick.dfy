/** What one tick does to the tasks, said without the functions that compute it: who wakes, who stays
    asleep, what the running task is charged and what the system's virtual time becomes. */
module SchedTick {
  import opened SchedModel
  import opened SchedConserve
  import opened SchedFair

  // ------------------------------------------------------------------ the sleep list

  predicate Due(c: Cpu, t: nat, now: nat) {
    t in c.sleepers && Known(c, t) && now >= c.tasks[t].wakeAt
  }

  /** Those of s whose time has not come, in their order. */
  function Pending(tasks: seq<Task>, s: seq<nat>, now: nat): seq<nat>
    requires forall i :: 0 <= i < |s| ==> s[i] < |tasks|
  {
    if s == [] then []
    else (if now < tasks[s[0]].wakeAt then [s[0]] else []) + Pending(tasks, s[1..], now)
  }

  lemma {:induction false} PendingAre(tasks: seq<Task>, s: seq<nat>, now: nat)
    requires forall i :: 0 <= i < |s| ==> s[i] < |tasks|
    ensures forall t :: t in Pending(tasks, s, now) <==> t in s && now < tasks[t].wakeAt
  {
    if s != [] {
      PendingAre(tasks, s[1..], now);
      assert s == [s[0]] + s[1..];
    }
  }

  lemma {:induction false} PendingSame(tasks: seq<Task>, tasks': seq<Task>, s: seq<nat>, now: nat)
    requires forall i :: 0 <= i < |s| ==> s[i] < |tasks| && s[i] < |tasks'| && tasks'[s[i]].wakeAt == tasks[s[i]].wakeAt
    ensures Pending(tasks', s, now) == Pending(tasks, s, now)
  {
    if s != [] {
      PendingSame(tasks, tasks', s[1..], now);
    }
  }

  /** t is in the list at place i or later, and its time has come. */
  predicate DueFrom(c: Cpu, t: nat, now: nat, i: nat)
    requires i <= |c.sleepers|
  {
    t in c.sleepers[i..] && Known(c, t) && now >= c.tasks[t].wakeAt
  }

  /** c' differs from c only in who sleeps: from place i of the list on, the due ones went to the queue. */
  ghost predicate Awoken(c: Cpu, c': Cpu, now: nat, i: nat)
    requires SleepersKnown(c) && i <= |c.sleepers|
  {
    && |c'.tasks| == |c.tasks| && c'.current == c.current && c'.idle == c.idle && c'.vsystem == c.vsystem
    && c'.sleepers == c.sleepers[..i] + Pending(c.tasks, c.sleepers[i..], now)
    && forall t: nat :: WokenRight(c, c', now, i, t)
  }

  /** What becomes of task t when the list is walked from place i on. */
  predicate WokenRight(c: Cpu, c': Cpu, now: nat, i: nat, t: nat)
    requires i <= |c.sleepers| && |c'.tasks| == |c.tasks|
  {
    && (Known(c, t) ==> if DueFrom(c, t, now, i) then AtReady(c', t) else c'.tasks[t] == c.tasks[t])
    && (t in c'.rq <==> t in c.rq || (t != c.idle && DueFrom(c, t, now, i)))
  }

  predicate AtReady(c: Cpu, t: nat) {
    Known(c, t) && c.tasks[t].wakeAt == 0 && c.tasks[t].state == Runnable
  }

  lemma WakeAtIs(c: Cpu, i: nat)
    requires SleepersKnown(c) && i < |c.sleepers|
    ensures var t, d := c.sleepers[i], WakeAt(c, i);
            && |d.tasks| == |c.tasks| && d.current == c.current && d.idle == c.idle && d.vsystem == c.vsystem
            && d.sleepers == c.sleepers[..i] + c.sleepers[i + 1..]
            && (forall x :: 0 <= x < |c.tasks| && x != t ==> d.tasks[x] == c.tasks[x])
            && d.tasks[t].wakeAt == 0 && d.tasks[t].state == Runnable
            && d.rq == (if t == c.idle then c.rq else [t] + c.rq)
  {
    hide Refreshed;
    RefreshedPlace(c.tasks[c.sleepers[i]].(wakeAt := 0, state := Runnable), c.vsystem);
  }

  lemma RefreshedPlace(t: Task, v: nat)
    ensures var r := Refreshed(t, v); r.state == t.state && r.wakeAt == t.wakeAt && r.used == t.used && r.slice == t.slice
  {
  }

  lemma DueSplit(c: Cpu, d: Cpu, now: nat, i: nat, x: nat)
    requires SleepersKnown(c) && NoRepeat(c.sleepers) && i < |c.sleepers| && now >= c.tasks[c.sleepers[i]].wakeAt
    requires i <= |d.sleepers| && d.sleepers[i..] == c.sleepers[i + 1..] && |d.tasks| == |c.tasks|
    requires forall y :: 0 <= y < |c.tasks| && y != c.sleepers[i] ==> d.tasks[y] == c.tasks[y]
    ensures DueFrom(c, x, now, i) <==> x == c.sleepers[i] || DueFrom(d, x, now, i)
    ensures !DueFrom(d, c.sleepers[i], now, i)
  {
    assert c.sleepers[i..] == [c.sleepers[i]] + c.sleepers[i + 1..];
    assert c.sleepers[i] !in c.sleepers[i + 1..];
  }

  lemma AwokenMore(c: Cpu, e: Cpu, now: nat, i: nat)
    requires SleepersKnown(c) && NoRepeat(c.sleepers) && i < |c.sleepers| && now >= c.tasks[c.sleepers[i]].wakeAt
    requires var d := WakeAt(c, i); SleepersKnown(d) && i <= |d.sleepers| && Awoken(d, e, now, i)
    ensures Awoken(c, e, now, i)
  {
    hide WakeAt, Pending, DueFrom, NoRepeat;
    WakeAtIs(c, i);
    var d := WakeAt(c, i);
    var t, rest := c.sleepers[i], c.sleepers[i + 1..];
    assert d.sleepers[..i] == c.sleepers[..i] && d.sleepers[i..] == rest;
    forall x: nat ensures WokenRight(c, e, now, i, x) {
      assert WokenRight(d, e, now, i, x);
      DueSplit(c, d, now, i, x);
      RightMore(c, d, e, now, i, x);
    }
    assert e.sleepers == c.sleepers[..i] + Pending(c.tasks, c.sleepers[i..], now) by {
      RestApart(c, i, rest);
      PendingSame(c.tasks, d.tasks, rest, now);
      assert c.sleepers[i..] == [t] + rest;
      PendingSkips(c.tasks, t, rest, now);
    }
  }

  lemma RightMore(c: Cpu, d: Cpu, e: Cpu, now: nat, i: nat, x: nat)
    requires i < |c.sleepers| && i <= |d.sleepers| && |d.tasks| == |c.tasks| == |e.tasks| && Known(c, c.sleepers[i])
    requires var t := c.sleepers[i];
             && (DueFrom(c, x, now, i) <==> x == t || DueFrom(d, x, now, i)) && !DueFrom(d, t, now, i)
             && (Known(c, x) && x != t ==> d.tasks[x] == c.tasks[x]) && AtReady(d, t)
             && d.rq == (if t == c.idle then c.rq else [t] + c.rq) && d.idle == c.idle
    requires WokenRight(d, e, now, i, x)
    ensures WokenRight(c, e, now, i, x)
  {
    hide DueFrom;
  }

  lemma RestApart(c: Cpu, i: nat, rest: seq<nat>)
    requires SleepersKnown(c) && NoRepeat(c.sleepers) && i < |c.sleepers| && rest == c.sleepers[i + 1..]
    ensures forall j :: 0 <= j < |rest| ==> Known(c, rest[j]) && rest[j] != c.sleepers[i]
  {
  }

  lemma PendingSkips(tasks: seq<Task>, t: nat, rest: seq<nat>, now: nat)
    requires t < |tasks| && now >= tasks[t].wakeAt && forall i :: 0 <= i < |rest| ==> rest[i] < |tasks|
    ensures Pending(tasks, [t] + rest, now) == Pending(tasks, rest, now)
  {
    assert ([t] + rest)[1..] == rest;
  }

  lemma PendingStays(tasks: seq<Task>, t: nat, rest: seq<nat>, now: nat)
    requires t < |tasks| && now < tasks[t].wakeAt && forall i :: 0 <= i < |rest| ==> rest[i] < |tasks|
    ensures Pending(tasks, [t] + rest, now) == [t] + Pending(tasks, rest, now)
  {
    assert ([t] + rest)[1..] == rest;
  }

  lemma AwokenNext(c: Cpu, e: Cpu, now: nat, i: nat)
    requires SleepersKnown(c) && i < |c.sleepers| && now < c.tasks[c.sleepers[i]].wakeAt && Awoken(c, e, now, i + 1)
    ensures Awoken(c, e, now, i)
  {
    hide Pending;
    var t, rest := c.sleepers[i], c.sleepers[i + 1..];
    assert c.sleepers[i..] == [t] + rest;
    forall x: nat ensures WokenRight(c, e, now, i, x) {
      assert WokenRight(c, e, now, i + 1, x);
      assert DueFrom(c, x, now, i) <==> DueFrom(c, x, now, i + 1);
    }
    assert c.sleepers[..i + 1] == c.sleepers[..i] + [t];
    PendingStays(c.tasks, t, rest, now);
    var kept := Pending(c.tasks, rest, now);
    assert c.sleepers[..i] + [t] + kept == c.sleepers[..i] + ([t] + kept);
  }

  lemma {:induction false} WakeAwakens(c: Cpu, now: nat, i: nat)
    requires Inv(c) && SleepersKnown(c) && i <= |c.sleepers|
    ensures Awoken(c, Wake(c, now, i), now, i)
    decreases |c.sleepers| - i
  {
    if i == |c.sleepers| {
      assert c.sleepers[..i] + [] == c.sleepers;
    } else {
      hide Inv, Awoken, WakeAt;
      assert NoRepeat(c.sleepers) by { Distinct(c); }
      if now >= c.tasks[c.sleepers[i]].wakeAt {
        WakeOneKeeps(c, i);
        WokenKnown(c, i);
        WakeAwakens(WakeAt(c, i), now, i);
        AwokenMore(c, Wake(c, now, i), now, i);
      } else {
        WakeAwakens(c, now, i + 1);
        AwokenNext(c, Wake(c, now, i), now, i);
      }
    }
  }

  lemma Distinct(c: Cpu)
    requires Inv(c)
    ensures NoRepeat(c.sleepers)
  {
  }

  // ---------------------------------------------------------- the parts of a tick that touch two tasks

  /** From c to c' only tasks a and b change, and they stay in or out of the sleep list. */
  predicate Touches(c: Cpu, c': Cpu, a: nat, b: nat) {
    && |c'.tasks| == |c.tasks| && c'.idle == c.idle && c'.sleepers == c.sleepers
    && (forall t :: 0 <= t < |c.tasks| ==> c'.tasks[t].wakeAt == c.tasks[t].wakeAt)
    && (forall t :: 0 <= t < |c.tasks| && t != a && t != b ==> c'.tasks[t] == c.tasks[t])
  }

  lemma YieldTouches(c: Cpu)
    requires Known(c, c.current)
    ensures Touches(c, Yield(c), c.current, c.current) && Yield(c).vsystem == c.vsystem && Yield(c).current == c.current
    ensures Yield(c).rq == (if c.current == c.idle then c.rq else [c.current] + c.rq)
  {
    hide Refreshed;
    RefreshedPlace(c.tasks[c.current].(state := Runnable), c.vsystem);
  }

  lemma ExpireTouches(c: Cpu)
    requires Known(c, c.current)
    ensures var e := Expire(ChargeCurrent(c));
            && Touches(c, e, c.current, c.current) && e.vsystem == c.vsystem && e.current == c.current
            && (c.tasks[c.current].state != Running ==> e == c)
            && (e.rq == c.rq || e.rq == [c.current] + c.rq)
  {
    hide Yield, Charged;
    assert Charged(c.tasks[c.current]) == c.tasks[c.current].(vruntime := Charged(c.tasks[c.current]).vruntime) by {
      ChargedOnly(c.tasks[c.current]);
    }
    var c1 := ChargeCurrent(c);
    YieldTouches(c1.(tasks := c1.tasks[c1.current := c1.tasks[c1.current].(used := 0)]));
  }

  lemma ChargedOnly(t: Task)
    ensures Charged(t) == t.(vruntime := Charged(t).vruntime)
  {
  }

  lemma SwitchTouches(c: Cpu, next: nat)
    requires Known(c, c.current) && Known(c, next)
    ensures var c' := SwitchTo(c, next);
            && Touches(c, c', c.current, next) && c'.current == next
            && c'.tasks[next].state == Running && c'.tasks[next].used == 0
            && (c.tasks[c.current].state != Running && c.current != next ==> c'.tasks[c.current] == c.tasks[c.current])
            && (forall t :: t in c.rq ==> t in c'.rq)
  {
    hide Yield;
    YieldTouches(c);
  }

  // ------------------------------------------------------------------------ who wakes

  /** After a tick the sleep list holds those whose time has not come, in their old order and as they
      were, and every other sleeper but idle is queued or runs.  A task that neither gave up the CPU nor
      got it nor woke is as before. */
  ghost predicate WakesDue(c: Cpu, c': Cpu, now: nat) {
    && AllKnown(c, c.sleepers) && |c'.tasks| == |c.tasks| && c'.idle == c.idle
    && Known(c', c'.current) && c'.tasks[c'.current].state == Running && c'.tasks[c'.current].used == 0
    && c'.sleepers == Pending(c.tasks, c.sleepers, now)
    && (forall t :: t in c'.sleepers <==> t in c.sleepers && Known(c, t) && now < c.tasks[t].wakeAt)
    && (forall t: nat {:trigger Due(c, t, now)} :: Due(c, t, now) ==> c'.tasks[t].wakeAt == 0)
    && (forall t: nat {:trigger Due(c, t, now)} :: Due(c, t, now) && t != c.idle ==>
          (t in c'.rq && c'.tasks[t].state == Runnable) || (t == c'.current && c'.tasks[t].state == Running))
    && (forall t :: t in c'.sleepers && Known(c, t) && t != c.idle ==> c'.tasks[t] == c.tasks[t] && c'.tasks[t].state == Sleeping)
    && (forall t: nat {:trigger Due(c, t, now)} ::
          Known(c, t) && t != c.current && t != c'.current && !Due(c, t, now) ==> c'.tasks[t] == c.tasks[t])
  }

  lemma DueSame(c: Cpu, e: Cpu, now: nat, t: nat)
    requires Touches(c, e, c.current, c.current)
    ensures Due(c, t, now) <==> DueFrom(e, t, now, 0)
  {
    assert e.sleepers[0..] == c.sleepers;
  }

  /** c was charged and woken up to d; the switch from d is the rest of the tick. */
  lemma PrepareWakes(c: Cpu, now: nat)
    requires Inv(c)
    ensures Known(c, c.current) && SleepersKnown(c)
    ensures var d := Prepare(c, now);
            && |d.tasks| == |c.tasks| && d.idle == c.idle && d.current == c.current && d.vsystem == c.vsystem
            && d.sleepers == Pending(c.tasks, c.sleepers, now)
            && (forall t: nat {:trigger Due(c, t, now)} :: Due(c, t, now) ==> AtReady(d, t) && (t != c.idle ==> t in d.rq))
            && (forall t: nat {:trigger Due(c, t, now)} :: Known(c, t) && t != c.current && !Due(c, t, now) ==> d.tasks[t] == c.tasks[t])
            && (c.tasks[c.current].state != Running && !Due(c, c.current, now) ==> d.tasks[c.current] == c.tasks[c.current])
            && (!Due(c, c.current, now) ==> d.tasks[c.current].wakeAt == c.tasks[c.current].wakeAt)
  {
    hide Inv, Expire, ChargeCurrent, Wake, Pending, AtReady, DueFrom;
    InvKnown(c);
    ExpireKeeps(c);
    ExpireTouches(c);
    InvKnown(ChargeCurrent(c));
    var e := Expire(ChargeCurrent(c));
    InvKnown(e);
    WakeAwakens(e, now, 0);
    PendingSame(c.tasks, e.tasks, c.sleepers, now);
    assert e.sleepers[0..] == c.sleepers && e.sleepers[..0] == [];
    var d := Prepare(c, now);
    forall t: nat ensures (Due(c, t, now) <==> DueFrom(e, t, now, 0)) && WokenRight(e, d, now, 0, t) { DueSame(c, e, now, t); }
  }

  /** A queued task that is not picked stays queued, and the picked one runs. */
  lemma TickEnd(c: Cpu, c': Cpu, now: nat)
    requires Inv(c) && TickStep(c, c', now)
    ensures Known(c, c.current) && SleepersKnown(c)
    ensures var d := Prepare(c, now);
            && Touches(d, c', d.current, c'.current) && Known(c', c'.current)
            && c'.tasks[c'.current].state == Running && c'.tasks[c'.current].used == 0
            && (forall t :: t in d.rq ==> t in c'.rq || t == c'.current)
            && Known(d, d.current)
            && (d.tasks[d.current].state != Running && d.current != c'.current ==> c'.tasks[d.current] == d.tasks[d.current])
  {
    hide Inv, Prepare, Picks, PicksNone, SwitchTo, SystemTime, Touches;
    InvKnown(c);
    PrepareKeeps(c, now);
    var d := Prepare(c, now);
    InvKnown(d);
    if k :| 0 <= k < |d.rq| && Picks(d, k) && c' == Switch(d, k) {
      var r := Remove(d.(vsystem := SystemTime(d)), k);
      SwitchTouches(r, d.rq[k]);
      TouchesSame(d, r, c', d.current, d.rq[k]);
      forall t | t in d.rq && t != d.rq[k] ensures t in r.rq { StillThere(d.rq, k, t); }
    } else {
      var r := if d.rq == [] then d else d.(vsystem := SystemTime(d));
      SwitchTouches(r, d.idle);
      TouchesSame(d, r, c', d.current, d.idle);
    }
  }

  lemma TouchesSame(d: Cpu, r: Cpu, c': Cpu, a: nat, b: nat)
    requires Touches(r, c', a, b) && r.tasks == d.tasks && r.idle == d.idle && r.sleepers == d.sleepers
    ensures Touches(d, c', a, b)
  {
  }

  lemma TickWakes(c: Cpu, c': Cpu, now: nat)
    requires Inv(c) && TickStep(c, c', now)
    ensures WakesDue(c, c', now)
  {
    hide Prepare, Pending, TickStep;
    PrepareWakes(c, now);
    TickEnd(c, c', now);
    TickKeeps(c, c', now);
    PendingAre(c.tasks, c.sleepers, now);
    forall t: nat | t in c'.sleepers && Known(c, t) && t != c.idle
      ensures c'.tasks[t] == c.tasks[t] && c'.tasks[t].state == Sleeping
    {
      assert !Due(c, t, now);
      assert InPlace(c, t) && InPlace(c', t);
    }
    forall t: nat | Due(c, t, now) && t != c.idle
      ensures (t in c'.rq && c'.tasks[t].state == Runnable) || (t == c'.current && c'.tasks[t].state == Running)
    {
      assert InPlace(c', t);
    }
  }

  // ------------------------------------------------------------- what the running task pays

  /** The running task after one more tick. */
  function VirtualTime(t: Task): nat {
    (t.vruntime + 1048576 / (if t.weight == 0 then 1024 else t.weight)) % 0x1_0000_0000_0000_0000
  }

  predicate UsedUp(t: Task) {
    t.used + 1 >= t.slice || VirtualTime(t) >= t.deadline
  }

  /** v, or the system's time less the threshold if v lies further behind. */
  predicate CaughtUp(v: nat, vsystem: nat, v': nat) {
    v' == if v + THRESHOLD < vsystem then vsystem - THRESHOLD else v
  }

  lemma RefreshedTime(t: Task, vsystem: nat)
    requires t.inited
    ensures CaughtUp(t.vruntime, vsystem, Refreshed(t, vsystem).vruntime)
  {
    hide DeadlineFrom;
  }

  /** The running task is charged; it competes in this tick only if its slice or its deadline is over. */
  lemma ExpireIs(c: Cpu)
    requires Primed(c) && IsRunning(c, c.current)
    ensures var e, t := Expire(ChargeCurrent(c)), c.tasks[c.current];
            var t' := e.tasks[c.current];
            if UsedUp(t) then t'.state == Runnable && t'.used == 0 && t'.inited && CaughtUp(VirtualTime(t), c.vsystem, t'.vruntime)
            else t' == t.(vruntime := VirtualTime(t), used := t.used + 1)
  {
    hide Refreshed;
    PrimedFit(c, c.current);
    var u := c.tasks[c.current].(vruntime := VirtualTime(c.tasks[c.current]), used := 0, state := Runnable);
    RefreshedTime(u, c.vsystem);
    RefreshedPlace(u, c.vsystem);
    assert Refreshed(u, c.vsystem).inited by { RefreshedFit(u, c.vsystem); }
  }

  /** The task that gives up the CPU to another one at the end of the tick. */
  lemma SwitchIs(c: Cpu, next: nat)
    requires Known(c, c.current) && Known(c, next) && c.current != next
    ensures var t, t' := c.tasks[c.current], SwitchTo(c, next).tasks[c.current];
            && (t.state != Running ==> t' == t)
            && (t.state == Running && c.current != c.idle ==>
                  t'.state == Runnable && t'.used == t.used && (t.inited ==> CaughtUp(t.vruntime, c.vsystem, t'.vruntime)))
    ensures SwitchTo(c, next).vsystem == c.vsystem
  {
    hide Refreshed, CaughtUp;
    var u := c.tasks[c.current].(state := Runnable);
    if c.tasks[c.current].inited { RefreshedTime(u, c.vsystem); }
    RefreshedPlace(u, c.vsystem);
  }

  /** The system's time never passes a running task. */
  lemma TimeBelowRunning(d: Cpu)
    requires QueueKnown(d) && Primed(d) && IsRunning(d, d.current)
    ensures SystemTime(d) <= d.tasks[d.current].vruntime || SystemTime(d) == d.vsystem
  {
  }

  /** What a tick does to the task it interrupts. */
  ghost predicate Pays(c: Cpu, c': Cpu)
    requires Known(c, c.current) && |c'.tasks| == |c.tasks|
  {
    var t, t' := c.tasks[c.current], c'.tasks[c.current];
    && (c'.current == c.current ==> UsedUp(t) && t'.used == 0)
    && (c'.current != c.current ==> c.current in c'.rq && t'.state == Runnable && t'.used == if UsedUp(t) then 0 else t.used + 1)
    && (t'.vruntime == VirtualTime(t) || CaughtUp(VirtualTime(t), c.vsystem, t'.vruntime))
    && (UsedUp(t) ==> CaughtUp(VirtualTime(t), c.vsystem, t'.vruntime))
  }

  lemma PreparePays(c: Cpu, now: nat)
    requires Inv(c) && Primed(c) && IsRunning(c, c.current)
    ensures SleepersKnown(c)
    ensures var d := Prepare(c, now);
            && Known(d, d.current) && d.tasks[d.current] == Expire(ChargeCurrent(c)).tasks[c.current]
  {
    hide Inv, Primed, Expire, ChargeCurrent, Wake, Pending;
    InvKnown(c);
    ExpireKeeps(c);
    ExpireTouches(c);
    InvKnown(ChargeCurrent(c));
    var e := Expire(ChargeCurrent(c));
    InvKnown(e);
    WakeAwakens(e, now, 0);
    RunningAwake(c);
    assert WokenRight(e, Prepare(c, now), now, 0, c.current);
  }

  lemma RunningAwake(c: Cpu)
    requires Inv(c) && IsRunning(c, c.current)
    ensures c.current !in c.sleepers
  {
    assert InPlace(c, c.current);
  }

  lemma SwitchPays(d: Cpu, r: Cpu, next: nat)
    requires Known(d, d.current) && Known(d, next) && d.current != d.idle
    requires r.tasks == d.tasks && r.current == d.current && r.idle == d.idle
    requires d.tasks[d.current].state == Running ==> r.vsystem <= d.tasks[d.current].vruntime || r.vsystem == d.vsystem
    requires d.tasks[d.current].inited
    ensures var t, t' := d.tasks[d.current], SwitchTo(r, next).tasks[d.current];
            && (t.state != Running ==> t'.vruntime == t.vruntime && (next != d.current ==> t' == t))
            && (t.state == Running && next != d.current ==>
                  && t'.state == Runnable && t'.used == t.used
                  && (t'.vruntime == t.vruntime || CaughtUp(t.vruntime, d.vsystem, t'.vruntime)))
  {
    hide Yield;
    if next != d.current { SwitchIs(r, next); }
  }

  /** The end of a tick, with the state r that the dequeue leaves. */
  ghost predicate EndsFrom(d: Cpu, r: Cpu, next: nat, c': Cpu) {
    && QueueKnown(d) && Known(d, d.current) && Known(d, next) && r.tasks == d.tasks && r.current == d.current && r.idle == d.idle
    && (r.vsystem == SystemTime(d) || r.vsystem == d.vsystem)
    && c' == SwitchTo(r, next) && (next in d.rq || next == d.idle)
    && (forall t :: t in r.rq ==> t in d.rq)
  }

  lemma TickEnds(c: Cpu, c': Cpu, now: nat) returns (r: Cpu)
    requires Inv(c) && TickStep(c, c', now)
    ensures Known(c, c.current) && SleepersKnown(c) && EndsFrom(Prepare(c, now), r, c'.current, c')
    ensures var d := Prepare(c, now);
            if c'.current in d.rq then r.vsystem == SystemTime(d) && exists k :: 0 <= k < |d.rq| && Picks(d, k) && d.rq[k] == c'.current
            else c'.current == d.idle
  {
    hide Inv, Prepare, Picks, PicksNone, SystemTime, Yield;
    InvKnown(c);
    PrepareKeeps(c, now);
    var d := Prepare(c, now);
    InvKnown(d);
    if k :| 0 <= k < |d.rq| && Picks(d, k) && c' == Switch(d, k) {
      r := Remove(d.(vsystem := SystemTime(d)), k);
    } else {
      r := if d.rq == [] then d else d.(vsystem := SystemTime(d));
      assert d.idle !in d.rq by { IdleApart(d); }
    }
  }

  lemma IdleApart(c: Cpu)
    requires Inv(c)
    ensures c.idle !in c.rq
  {
  }

  lemma RunningApart(c: Cpu)
    requires Inv(c) && c.tasks[c.current].state == Running && c.current != c.idle
    ensures c.current !in c.rq
  {
    assert InPlace(c, c.current);
  }

  lemma PreparePrimed(c: Cpu, now: nat)
    requires Inv(c) && Primed(c)
    ensures Known(c, c.current) && SleepersKnown(c) && Primed(Prepare(c, now))
  {
    hide Inv, Primed, Expire, ChargeCurrent, Wake;
    InvKnown(c);
    ExpireKeeps(c);
    ExpirePrimed(c);
    InvKnown(ChargeCurrent(c));
    InvKnown(Expire(ChargeCurrent(c)));
    WakePrimed(Expire(ChargeCurrent(c)), now, 0);
  }

  /** The running task is charged one tick by its weight, loses its slice exactly if it has used it up or
      reached its deadline, and keeps the CPU only then. */
  lemma TickPays(c: Cpu, c': Cpu, now: nat)
    requires Inv(c) && Primed(c) && TickStep(c, c', now) && IsRunning(c, c.current)
    ensures |c'.tasks| == |c.tasks| && Pays(c, c')
  {
    hide Inv, Primed, Prepare, TickStep, Expire, ChargeCurrent, SystemTime, SwitchTo, CaughtUp, UsedUp, VirtualTime, Picks;
    PrepareKeeps(c, now);
    var d := Prepare(c, now);
    PreparePrimed(c, now);
    PreparePays(c, now);
    PrepareWakes(c, now);
    ExpireIs(c);
    var r := TickEnds(c, c', now);
    TickEnd(c, c', now);
    RunningNotDropped(c, c', now);
    PrimedFit(c, c.current);
    if d.tasks[d.current].state == Running {
      RunningApart(d);
      TimeBelowRunning(d);
    }
    SwitchPays(d, r, c'.current);
  }

  // ----------------------------------------------------------- the system's virtual time

  predicate Contends(c: Cpu, t: nat) {
    Known(c, t) && t != c.idle && (t in c.rq || t == c.current)
  }

  /** The system's time is the least virtual time among the tasks that are queued or run. */
  ghost predicate TimeIsLeast(c: Cpu) {
    && (forall t {:trigger Contends(c, t)} :: 0 <= t && Contends(c, t) ==> c.vsystem <= c.tasks[t].vruntime)
    && (exists t {:trigger Contends(c, t)} :: 0 <= t && Contends(c, t) && c.tasks[t].vruntime == c.vsystem)
  }

  predicate Counts(d: Cpu, t: nat) {
    Known(d, t) && (t in d.rq || IsRunning(d, t))
  }

  lemma SystemTimeIs(d: Cpu, k: nat) returns (t: nat)
    requires QueueKnown(d) && Primed(d) && d.idle !in d.rq && Known(d, d.current) && Picks(d, k)
    ensures Counts(d, t) && d.tasks[t].vruntime == SystemTime(d)
    ensures forall x: nat {:trigger Counts(d, x)} :: Counts(d, x) ==> SystemTime(d) <= d.tasks[x].vruntime
  {
    var q := Least(d.tasks, d.rq, |d.rq|);
    forall x: nat | Counts(d, x) ensures q <= d.tasks[x].vruntime || x == d.current {
      if x in d.rq { var i :| 0 <= i < |d.rq| && d.rq[i] == x; }
    }
    assert Fit(d.tasks[d.rq[k]]);
    var s := SystemTime(d);
    if IsRunning(d, d.current) && d.tasks[d.current].vruntime <= q && d.tasks[d.current].vruntime < MAX {
      t := d.current;
    } else if q < MAX {
      var i :| 0 <= i < |d.rq| && d.tasks[d.rq[i]].vruntime == q;
      t := d.rq[i];
    } else {
      t := d.rq[k];
      assert Eligible(d, k);
    }
  }

  lemma SwitchQueue(c: Cpu, next: nat)
    requires Known(c, c.current) && Known(c, next)
    ensures SwitchTo(c, next).rq ==
              if c.tasks[c.current].state == Running && c.current != next && c.current != c.idle then [c.current] + c.rq else c.rq
  {
    hide Refreshed;
  }

  /** A task that competed for the CPU keeps its virtual time through the switch. */
  lemma SwitchTime(d: Cpu, r: Cpu, next: nat, c': Cpu, x: nat)
    requires EndsFrom(d, r, next, c') && Counts(d, x) && Primed(d) && x != d.idle && SystemTime(d) <= d.tasks[x].vruntime
    requires r.vsystem == SystemTime(d)
    ensures Known(c', x) && c'.tasks[x].vruntime == d.tasks[x].vruntime
  {
    hide SystemTime, Yield, SwitchTo;
    assert |c'.tasks| == |r.tasks| by { SwitchTouches(r, next); }
    PrimedFit(d, x);
    if x == r.current && x != next {
      SwitchIs(r, next);
    } else {
      SwitchOther(r, next, x);
    }
  }

  lemma SwitchOther(r: Cpu, next: nat, x: nat)
    requires Known(r, r.current) && Known(r, next) && Known(r, x) && (x != r.current || x == next)
    ensures SwitchTo(r, next).tasks[x].vruntime == r.tasks[x].vruntime
  {
    hide Yield;
    YieldTouches(r);
  }

  lemma TickTime(c: Cpu, c': Cpu, now: nat)
    requires Inv(c) && Primed(c) && TickStep(c, c', now)
    ensures c'.current != c'.idle ==> TimeIsLeast(c')
  {
    hide Inv, Primed, Prepare, TickStep, SystemTime, SwitchTo, Picks, Touches, Pending;
    PrepareKeeps(c, now);
    var d := Prepare(c, now);
    PreparePrimed(c, now);
    InvKnown(d);
    IdleApart(d);
    var r := TickEnds(c, c', now);
    TickEnd(c, c', now);
    TickIdle(c, c', now);
    SwitchQueue(r, c'.current);
    SwitchVsystem(r, c'.current);
    if c'.current != c'.idle {
      var k :| 0 <= k < |d.rq| && Picks(d, k) && d.rq[k] == c'.current;
      var t := SystemTimeIs(d, k);
      if d.tasks[d.current].state == Running && d.current != d.idle { RunningApart(d); }
      forall x | 0 <= x && Contends(c', x) ensures c'.vsystem <= c'.tasks[x].vruntime {
        assert Counts(d, x);
        SwitchTime(d, r, c'.current, c', x);
      }
      SwitchTime(d, r, c'.current, c', t);
      assert Contends(c', t);
    }
  }

  lemma SwitchVsystem(r: Cpu, next: nat)
    requires Known(r, r.current) && Known(r, next)
    ensures SwitchTo(r, next).vsystem == r.vsystem && SwitchTo(r, next).idle == r.idle
  {
  }

  // ------------------------------------------------------------- charge, weight and deadline

  /** What a task pays for a tick: the tick scale over its weight, rounded down. */
  lemma ChargeByWeight(t: Task)
    requires Fit(t) && t.vruntime + SCALE <= MAX
    ensures var w, charge := (if t.weight == 0 then 1024 else t.weight), Charged(t).vruntime - t.vruntime;
            charge >= 64 && w * charge <= SCALE < w * (charge + 1)
  {
    ChargePositive(t);
    DivLaw(1048576, WeightOf(t));
  }

  lemma DivLaw(x: nat, w: nat)
    requires w >= 1
    ensures w * (x / w) <= x < w * (x / w + 1)
  {
  }

  /** The deadline lies a slice of the tick scale over the weight behind the virtual time. */
  lemma DeadlineByWeight(v: nat, slice: nat, w: nat)
    requires w >= 1 && v + slice * SCALE <= MAX
    ensures var d := DeadlineFrom(v, slice, w) - v; 0 <= d && w * d <= slice * SCALE < w * (d + 1)
  {
    DivLaw(slice * 1048576, w);
    Multiple(slice * 1048576 / w, w);
    WordSmall(v + slice * 1048576 / w);
  }

  lemma Multiple(q: nat, w: nat)
    requires w >= 1
    ensures q <= w * q
  {
  }

  lemma WordSmall(x: nat)
    requires x <= MAX
    ensures x % 0x1_0000_0000_0000_0000 == x
  {
  }

  /** More weight never means a larger charge or a later deadline. */
  lemma WeightHelps(t: Task, u: Task, slice: nat)
    requires Fit(t) && Fit(u) && t.vruntime == u.vruntime && t.vruntime + SCALE <= MAX && t.vruntime + slice * SCALE <= MAX
    requires 0 < t.weight <= u.weight
    ensures Charged(u).vruntime <= Charged(t).vruntime
    ensures DeadlineFrom(u.vruntime, slice, u.weight) <= DeadlineFrom(t.vruntime, slice, t.weight)
  {
    ChargeByWeight(t);
    ChargeByWeight(u);
    DeadlineByWeight(t.vruntime, slice, t.weight);
    DeadlineByWeight(u.vruntime, slice, u.weight);
    Quotients(t.weight, u.weight, Charged(t).vruntime - t.vruntime, Charged(u).vruntime - u.vruntime, SCALE);
    Quotients(t.weight, u.weight, DeadlineFrom(t.vruntime, slice, t.weight) - t.vruntime,
              DeadlineFrom(u.vruntime, slice, u.weight) - u.vruntime, slice * SCALE);
  }

  lemma Quotients(w: nat, w': nat, a: nat, b: nat, x: nat)
    requires 0 < w <= w' && x < w * (a + 1) && w' * b <= x
    ensures b <= a
  {
    assert w * b <= w' * b;
    assert a + 1 <= b ==> w * (a + 1) <= w * b;
  }

  /** A task that enters the queue at v with its deadline and then runs n ticks of its slice has not
      reached the deadline: the slice ends first. */
  lemma SliceEndsFirst(t: Task, slice: nat, n: nat)
    requires Fit(t) && t.weight > 0 && n < slice && t.vruntime + slice * SCALE <= MAX && t.vruntime + SCALE <= MAX
    ensures t.vruntime + n * (Charged(t).vruntime - t.vruntime) < DeadlineFrom(t.vruntime, slice, t.weight)
  {
    hide DeadlineFrom, Charged;
    ChargeByWeight(t);
    DeadlineByWeight(t.vruntime, slice, t.weight);
    Behind(t.weight, Charged(t).vruntime - t.vruntime, DeadlineFrom(t.vruntime, slice, t.weight) - t.vruntime, n, slice);
  }

  lemma Behind(w: nat, a: nat, d: nat, n: nat, slice: nat)
    requires 0 < w <= 16384 && w * a <= SCALE && slice * SCALE < w * (d + 1) && n < slice
    ensures n * a < d
  {
    assert w * (n * a) == n * (w * a);
    assert n * (w * a) <= n * SCALE;
    assert n * SCALE + SCALE <= slice * SCALE by { assert (n + 1) * SCALE <= slice * SCALE; }
    assert w * (d + 1) == w * d + w;
    assert n * a >= d ==> w * (n * a) >= w * d;
  }

  /** Each step down in priority halves the weight and doubles the charge. */
  lemma PriorityHalves(t: Task, p: nat)
    requires p < 7 && t.vruntime + 2 * SCALE <= MAX
    ensures PriorityWeight(p) == 2 * PriorityWeight(p + 1) && PriorityWeight(0) == 16384
    ensures Charged(Reweighted(t, p + 1)).vruntime - t.vruntime == 2 * (Charged(Reweighted(t, p)).vruntime - t.vruntime)
  {
    hide DeadlineFrom;
    assert 1048576 / 16384 == 64 && 1048576 / 8192 == 128 && 1048576 / 4096 == 256 && 1048576 / 2048 == 512;
    assert 1048576 / 1024 == 1024 && 1048576 / 512 == 2048 && 1048576 / 256 == 4096 && 1048576 / 128 == 8192;
  }

  // ------------------------------------------------------------------- entering the queue

  /** rq_enqueue: the task goes to the head of the queue; a new one starts at the system's time, an old one
      keeps its virtual time unless it lies more than the threshold behind; its deadline is one slice away. */
  lemma EnqueueEnters(c: Cpu, t: nat)
    requires Known(c, t) && t != c.idle && c.tasks[t].vruntime + c.vsystem + c.tasks[t].slice * SCALE <= MAX
    ensures var c', u := Enqueue(c, t), c.tasks[t];
            var u' := c'.tasks[t];
            && c'.rq == [t] + c.rq && c'.queueLen == c.queueLen + 1
            && (!u.inited ==> u'.vruntime == c.vsystem) && (u.inited ==> CaughtUp(u.vruntime, c.vsystem, u'.vruntime))
            && u'.weight == (if u.weight == 0 then 1024 else u.weight)
            && u'.vruntime <= u'.deadline
            && u'.weight * (u'.deadline - u'.vruntime) <= u.slice * SCALE < u'.weight * (u'.deadline - u'.vruntime + 1)
            && u' == u.(vruntime := u'.vruntime, inited := true, weight := u'.weight, deadline := u'.deadline)
            && (forall x :: 0 <= x < |c.tasks| && x != t ==> c'.tasks[x] == c.tasks[x])
  {
    hide DeadlineFrom;
    var u := Enqueue(c, t).tasks[t];
    DeadlineByWeight(u.vruntime, u.slice, u.weight);
  }
}
