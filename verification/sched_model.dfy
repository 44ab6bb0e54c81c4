/** One CPU of sched/sched.c on values: the run queue and the sleep list are sequences of task
    numbers, and each locked region of the code is one step. */
module SchedModel {
  datatype State = Runnable | Running | Blocked | Dead | Sleeping | Zombie

  datatype Task = Task(state: State, vruntime: nat, inited: bool, weight: nat, deadline: nat,
                       slice: nat, used: nat, wakeAt: nat)

  /** waking: tasks that sched_unblock has made runnable and not queued yet. */
  datatype Cpu = Cpu(tasks: seq<Task>, rq: seq<nat>, sleepers: seq<nat>, waking: set<nat>,
                     current: nat, idle: nat, vsystem: nat, queueLen: nat)

  const MAX := 0xFFFF_FFFF_FFFF_FFFF
  const SCALE := 1048576
  const THRESHOLD := 10485760

  function WeightOf(t: Task): nat { if t.weight == 0 then 1024 else t.weight }

  function DeadlineFrom(v: nat, slice: nat, weight: nat): nat
    requires weight > 0
  {
    (v + slice * 1048576 / weight) % 0x1_0000_0000_0000_0000
  }

  // ------------------------------------------------------------------------- steps

  /** The task as rq_enqueue leaves it. */
  function Refreshed(t: Task, vsystem: nat): Task {
    var v := if !t.inited then vsystem
             else if vsystem > THRESHOLD && t.vruntime < vsystem - THRESHOLD then vsystem - THRESHOLD
             else t.vruntime;
    t.(vruntime := v, inited := true, weight := WeightOf(t), deadline := DeadlineFrom(v, t.slice, WeightOf(t)))
  }

  predicate Known(c: Cpu, t: nat) { t < |c.tasks| }

  /** rq_enqueue */
  function Enqueue(c: Cpu, t: nat): Cpu
    requires Known(c, t)
  {
    if t == c.idle then c
    else c.(tasks := c.tasks[t := Refreshed(c.tasks[t], c.vsystem)], rq := [t] + c.rq, queueLen := c.queueLen + 1)
  }

  function SetState(c: Cpu, t: nat, s: State): Cpu
    requires Known(c, t)
  {
    c.(tasks := c.tasks[t := c.tasks[t].(state := s)])
  }

  /** Virtual time of one tick. */
  function Charged(t: Task): Task {
    t.(vruntime := (t.vruntime + 1048576 / WeightOf(t)) % 0x1_0000_0000_0000_0000)
  }

  /** sched_tick, first part: charge the running task and queue it again when its slice is over. */
  function ChargeCurrent(c: Cpu): Cpu
    requires Known(c, c.current)
  {
    var t := c.tasks[c.current];
    if t.state != Running then c
    else c.(tasks := c.tasks[c.current := (if c.current == c.idle then t else Charged(t)).(used := t.used + 1)])
  }

  predicate SliceOver(c: Cpu)
    requires Known(c, c.current)
  {
    var t := c.tasks[c.current];
    t.state == Running &&
    (t.used >= (if c.current == c.idle then 1 else t.slice) || (c.current != c.idle && t.vruntime >= t.deadline))
  }

  function Yield(c: Cpu): Cpu
    requires Known(c, c.current)
  {
    Enqueue(c.(tasks := c.tasks[c.current := c.tasks[c.current].(state := Runnable)]), c.current)
  }

  function Expire(c: Cpu): Cpu
    requires Known(c, c.current)
  {
    if SliceOver(c) then Yield(c.(tasks := c.tasks[c.current := c.tasks[c.current].(used := 0)])) else c
  }

  function Without(s: seq<nat>, k: nat): seq<nat>
    requires k < |s|
  {
    s[..k] + s[k + 1..]
  }

  /** One due sleeper leaves the sleep list for the run queue. */
  function WakeAt(c: Cpu, i: nat): Cpu
    requires i < |c.sleepers| && Known(c, c.sleepers[i])
  {
    var t := c.sleepers[i];
    Enqueue(c.(sleepers := Without(c.sleepers, i), tasks := c.tasks[t := c.tasks[t].(wakeAt := 0, state := Runnable)]), t)
  }

  predicate SleepersKnown(c: Cpu) {
    forall i :: 0 <= i < |c.sleepers| ==> Known(c, c.sleepers[i])
  }

  /** sched_tick, second part: the walk over the sleep list from place i. */
  function Wake(c: Cpu, now: nat, i: nat): (r: Cpu)
    requires SleepersKnown(c) && i <= |c.sleepers|
    decreases |c.sleepers| - i
  {
    if i == |c.sleepers| then c
    else if now >= c.tasks[c.sleepers[i]].wakeAt then Wake(WakeAt(c, i), now, i)
    else Wake(c, now, i + 1)
  }

  function Min(x: nat, y: nat): nat { if y < x then y else x }

  /** The least virtual time among the first n in the queue, MAX if there are none. */
  function Least(tasks: seq<Task>, rq: seq<nat>, n: nat): (m: nat)
    requires n <= |rq| && forall i :: 0 <= i < |rq| ==> rq[i] < |tasks|
    ensures m <= MAX
    ensures forall i :: 0 <= i < n ==> m <= tasks[rq[i]].vruntime
    ensures m < MAX ==> exists i :: 0 <= i < n && tasks[rq[i]].vruntime == m
  {
    if n == 0 then MAX
    else
      var r, v := Least(tasks, rq, n - 1), tasks[rq[n - 1]].vruntime;
      if v < r then v else r
  }

  predicate QueueKnown(c: Cpu) {
    forall i :: 0 <= i < |c.rq| ==> Known(c, c.rq[i])
  }

  /** rq_dequeue, step 1: the system's virtual time. */
  function SystemTime(c: Cpu): nat
    requires QueueKnown(c) && Known(c, c.current)
  {
    var q := Least(c.tasks, c.rq, |c.rq|);
    var m := if c.current != c.idle && c.tasks[c.current].state == Running then Min(q, c.tasks[c.current].vruntime) else q;
    if m != MAX then m else c.vsystem
  }

  predicate Eligible(c: Cpu, i: nat)
    requires QueueKnown(c) && Known(c, c.current) && i < |c.rq|
  {
    c.tasks[c.rq[i]].vruntime <= SystemTime(c) && c.tasks[c.rq[i]].deadline < MAX
  }

  /** rq_dequeue, step 2: place k is the eligible task with the earliest deadline, the first one in
      queue order; without an eligible task, the first one with the least virtual time. */
  predicate Picks(c: Cpu, k: nat)
    requires QueueKnown(c) && Known(c, c.current)
  {
    && k < |c.rq|
    && if exists i :: 0 <= i < |c.rq| && Eligible(c, i) then
         && Eligible(c, k)
         && (forall i :: 0 <= i < |c.rq| && Eligible(c, i) ==> c.tasks[c.rq[k]].deadline <= c.tasks[c.rq[i]].deadline)
         && (forall i :: 0 <= i < k && Eligible(c, i) ==> c.tasks[c.rq[k]].deadline < c.tasks[c.rq[i]].deadline)
       else
         && c.tasks[c.rq[k]].vruntime < MAX
         && (forall i :: 0 <= i < |c.rq| ==> c.tasks[c.rq[k]].vruntime <= c.tasks[c.rq[i]].vruntime)
         && (forall i :: 0 <= i < k ==> c.tasks[c.rq[k]].vruntime < c.tasks[c.rq[i]].vruntime)
  }

  /** Nothing is picked only from an empty queue, or when every virtual time is saturated. */
  predicate PicksNone(c: Cpu)
    requires QueueKnown(c) && Known(c, c.current)
  {
    forall i :: 0 <= i < |c.rq| ==> !Eligible(c, i) && c.tasks[c.rq[i]].vruntime >= MAX
  }

  /** rq_dequeue, step 3. */
  function Remove(c: Cpu, k: nat): Cpu
    requires k < |c.rq| && c.queueLen > 0
  {
    c.(rq := Without(c.rq, k), queueLen := c.queueLen - 1)
  }

  function Dispatch(c: Cpu, next: nat): Cpu
    requires Known(c, next)
  {
    c.(tasks := c.tasks[next := c.tasks[next].(used := 0, state := Running)], current := next)
  }

  /** sched_tick, last part: a task that was running and is not the next one goes back in the queue. */
  function SwitchTo(c: Cpu, next: nat): Cpu
    requires Known(c, c.current) && Known(c, next)
  {
    var d := if c.tasks[c.current].state == Running && c.current != next then Yield(c) else c;
    Dispatch(d, next)
  }

  /** sched_tick up to the choice of the next task. */
  function Prepare(c: Cpu, now: nat): Cpu
    requires Known(c, c.current) && SleepersKnown(c)
  {
    Wake(Expire(ChargeCurrent(c)), now, 0)
  }

  /** The end of the tick when place k of the queue was picked. */
  function Switch(c: Cpu, k: nat): Cpu
    requires k < |c.rq| && c.queueLen > 0 && QueueKnown(c) && Known(c, c.current)
  {
    SwitchTo(Remove(c.(vsystem := SystemTime(c)), k), c.rq[k])
  }

  function SwitchIdle(c: Cpu): Cpu
    requires QueueKnown(c) && Known(c, c.current) && Known(c, c.idle)
  {
    SwitchTo(if c.rq == [] then c else c.(vsystem := SystemTime(c)), c.idle)
  }

  // ------------------------------------------------------------------- conservation

  predicate NoRepeat(s: seq<nat>) {
    forall i, j :: 0 <= i < j < |s| ==> s[i] != s[j]
  }

  /** Every task but idle is where its state says. */
  predicate InPlace(c: Cpu, t: nat)
    requires Known(c, t)
  {
    var s := c.tasks[t].state;
    && (t in c.rq <==> s == Runnable && t !in c.waking)
    && (t in c.waking ==> s == Runnable)
    && (t in c.sleepers <==> s == Sleeping)
    && (s == Running ==> t == c.current)
  }

  /** The idle task is never queued: it runs when there is nothing else, whatever its state. */
  predicate IdleOk(c: Cpu)
    requires Known(c, c.idle)
  {
    c.idle !in c.rq && (c.tasks[c.idle].state == Running ==> c.current == c.idle)
  }

  predicate AllKnown(c: Cpu, s: seq<nat>) {
    forall i :: 0 <= i < |s| ==> Known(c, s[i])
  }

  predicate Inv(c: Cpu) {
    && Known(c, c.current) && Known(c, c.idle) && AllKnown(c, c.rq) && AllKnown(c, c.sleepers)
    && (forall t :: t in c.waking ==> Known(c, t))
    && NoRepeat(c.rq) && NoRepeat(c.sleepers) && c.queueLen == |c.rq|
    && IdleOk(c)
    && (forall t {:trigger InPlace(c, t)} :: 0 <= t < |c.tasks| && t != c.idle ==> InPlace(c, t))
  }
}
