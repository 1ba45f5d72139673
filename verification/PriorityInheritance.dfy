/** Mutexes with priority inheritance on one preemptive core.

    The state is what the mutex paths of queue.c and the inheritance functions of
    tasks.c read and write. List membership is recorded the way the kernel tests
    it, by the container of a task's list items: `list` says which ready list
    holds the state item, and a `Parked` phase says which mutex's wait list holds
    the event item. Wait lists are sorted, so the head of one is a parked task
    with the greatest key.

    Every critical section is one step. A step of the running task is possible
    only when no yield is outstanding, because a yield requested inside a critical
    section is taken on leaving it. */
module PriorityInheritance {
  import opened Common

  type TaskId = nat
  type MutexId = nat

  /** Where a task is in the retry loop of a blocking take.
      `inherited` is the local flag xInheritanceOccurred. */
  datatype Phase =
    | Normal
    | Asleep
    | Parked(m: MutexId, inherited: bool)
    | Retrying(m: MutexId, inherited: bool)
    | GivingUp(m: MutexId, inherited: bool)
  {
    predicate CanRun() { !Asleep? && !Parked? }
    predicate InLoop() { Parked? || Retrying? || GivingUp? }
  }

  /** `key` is the priority stored (reversed) in the event list item. */
  datatype Tcb = Tcb(priority: nat, base: nat, key: nat, held: nat, list: Option<nat>, phase: Phase)

  datatype Kernel = Kernel(
    tasks: map<TaskId, Tcb>,
    holders: seq<Option<TaskId>>,
    levels: nat,
    current: TaskId,
    yieldPending: bool)
  {
    predicate WaitsOn(t: TaskId, m: MutexId) {
      t in tasks && tasks[t].phase.Parked? && tasks[t].phase.m == m
    }

    function Cur(): Tcb
      requires current in tasks
    {
      tasks[current]
    }
  }

  // ---------------------------------------------------------------------
  // Inheritance bookkeeping: what every run keeps
  // ---------------------------------------------------------------------

  /** The number of mutexes that name `t` as their holder. */
  ghost function HeldBy(hs: seq<Option<TaskId>>, t: TaskId): nat {
    if hs == [] then 0
    else HeldBy(hs[..|hs| - 1], t) + (if hs[|hs| - 1] == Some(t) then 1 else 0)
  }

  ghost predicate TaskOk(c: Tcb, levels: nat, mutexes: nat) {
    && c.base <= c.priority < levels
    && c.key < levels
    && (c.held == 0 ==> c.priority == c.base)
    && (c.priority == c.base ==> c.key == c.priority)
    && c.list == (if c.phase.CanRun() then Some(c.priority) else None)
    && (c.phase.InLoop() ==> c.phase.m < mutexes)
  }

  ghost predicate TasksOk(k: Kernel) {
    forall t :: t in k.tasks ==> TaskOk(k.tasks[t], k.levels, |k.holders|)
  }

  ghost predicate HoldersExist(k: Kernel) {
    forall m :: 0 <= m < |k.holders| && k.holders[m].Some? ==> k.holders[m].value in k.tasks
  }

  /** The running task and every mutex holder exist. */
  ghost predicate Shape(k: Kernel) { k.current in k.tasks && HoldersExist(k) }

  ghost predicate Counts(k: Kernel) {
    forall t :: t in k.tasks ==> k.tasks[t].held == HeldBy(k.holders, t)
  }

  ghost predicate Books(k: Kernel) {
    Shape(k) && TasksOk(k) && Counts(k)
  }

  // ---------------------------------------------------------------------
  // The inheritance functions of tasks.c
  // ---------------------------------------------------------------------

  /** The task takes priority `p` and follows it to the matching ready list. */
  function WithPriority(c: Tcb, p: nat): Tcb {
    c.(priority := p, key := p, list := if c.list == Some(c.priority) then Some(p) else c.list)
  }

  function Inherit(holder: Tcb, taker: Tcb): Tcb {
    if holder.priority < taker.priority then WithPriority(holder, taker.priority) else holder
  }

  predicate InheritanceOccurred(holder: Tcb, taker: Tcb) {
    holder.priority < taker.priority || holder.base < taker.priority
  }

  /** Giving back its last mutex makes the task drop an inherited priority. */
  predicate Disinherits(c: Tcb) { c.priority != c.base && c.held == 1 }

  function Disinherit(c: Tcb): Tcb {
    var less := c.(held := if c.held > 0 then c.held - 1 else 0);
    if Disinherits(c) then WithPriority(less, c.base) else less
  }

  /** What inheriting means: the holder is at least as urgent as the taker and no more than
      one of the two was, it stays on the ready list of its priority, and inheritance is
      reported exactly when its base priority is below the taker's. */
  lemma {:induction false} InheritMeans(holder: Tcb, taker: Tcb)
    requires holder.base <= holder.priority
    ensures var h := Inherit(holder, taker);
      && h.priority >= taker.priority && h.priority >= holder.priority
      && (h.priority == taker.priority || h.priority == holder.priority)
      && (holder.list == Some(holder.priority) ==> h.list == Some(h.priority))
      && (InheritanceOccurred(holder, taker) <==> holder.base < taker.priority)
  {
  }

  function DisinheritAfterTimeout(holder: Tcb, topWaiter: nat): Tcb {
    var p := if holder.base < topWaiter then topWaiter else holder.base;
    if holder.priority != p && holder.held == 1 then WithPriority(holder, p) else holder
  }

  /** vTaskPrioritySet: the base priority always changes, the used one only when
      it is not inherited or the new one is larger. */
  function Rebased(c: Tcb, p: nat): Tcb {
    if c.base == p then c
    else
      var used := if c.base == c.priority || p > c.priority then p else c.priority;
      c.(priority := used, base := p, key := p, list := if c.list == Some(c.priority) then Some(used) else c.list)
  }

  // ---------------------------------------------------------------------
  // The steps
  // ---------------------------------------------------------------------

  datatype Step =
    | Take(m: MutexId)
    | Park(m: MutexId)
    | Give(m: MutexId, woken: Option<TaskId>)
    | Abandon
    | Cleanup(topWaiter: nat)
    | TimeOut(t: TaskId)
    | Sleep
    | Wake(t: TaskId)
    | Switch(t: TaskId)
    | PrioritySet(t: TaskId, p: nat)

  /** The task at the head of the wait list of `m`, if there is one.  Lists are sorted by the
      key at insertion, and a later change of a key does not move its task, so in general
      any waiter may stand at the head. */
  ghost predicate Waiter(k: Kernel, m: MutexId, w: Option<TaskId>) {
    match w
    case None => forall t :: t in k.tasks ==> !k.WaitsOn(t, m)
    case Some(h) => k.WaitsOn(h, m)
  }

  /** prvGetHighestPriorityOfWaitToReceiveList: the head's key, or the idle priority. */
  ghost predicate WaiterKey(k: Kernel, m: MutexId, p: nat) {
    || (p == 0 && Waiter(k, m, None))
    || (exists h :: k.WaitsOn(h, m) && p == k.tasks[h].key)
  }

  /** May the running task try `m`? Inside the retry loop, only its own mutex. */
  predicate Wants(c: Tcb, m: MutexId) {
    c.phase.Normal? || (c.phase.Retrying? && c.phase.m == m)
  }

  ghost predicate NoneAbove(k: Kernel, p: nat) {
    forall t :: t in k.tasks && k.tasks[t].phase.CanRun() ==> k.tasks[t].priority <= p
  }

  ghost predicate Enabled(k: Kernel, s: Step)
    requires Shape(k)
  {
    var c := k.Cur();
    var mine := !k.yieldPending && c.phase.CanRun() && (c.phase.InLoop() ==> c.phase.m < |k.holders|);
    match s
    case Take(m) => mine && m < |k.holders| && k.holders[m].None? && Wants(c, m)
    case Park(m) => mine && m < |k.holders| && k.holders[m].Some? && Wants(c, m)
    case Give(m, w) => mine && m < |k.holders| && k.holders[m] == Some(k.current) && c.phase.Normal? && Waiter(k, m, w)
    case Abandon => mine && c.phase.Retrying? && k.holders[c.phase.m].Some?
    case Cleanup(p) => mine && c.phase.GivingUp? && WaiterKey(k, c.phase.m, p)
    case TimeOut(t) => t in k.tasks && k.tasks[t].phase.Parked?
    case Sleep => mine && c.phase.Normal?
    case Wake(t) => t in k.tasks && k.tasks[t].phase.Asleep?
    case Switch(t) => t in k.tasks && k.tasks[t].phase.CanRun() && NoneAbove(k, k.tasks[t].priority)
    case PrioritySet(t, p) => mine && c.phase.Normal? && t in k.tasks && p < k.levels
  }

  /** prvAddTaskToReadyList for a task that leaves the Blocked state. */
  function Readied(c: Tcb, ph: Phase): Tcb { c.(list := Some(c.priority), phase := ph) }

  function Blocked(c: Tcb, ph: Phase): Tcb { c.(list := None, phase := ph) }

  /** A readied task preempts the running one when its priority is greater. */
  function Woken(k: Kernel, t: TaskId, ph: Phase): Kernel
    requires t in k.tasks && k.current in k.tasks
  {
    k.(tasks := k.tasks[t := Readied(k.tasks[t], ph)],
       yieldPending := k.yieldPending || k.tasks[t].priority > k.Cur().priority)
  }

  function AfterTake(k: Kernel, m: MutexId): Kernel
    requires k.current in k.tasks && m < |k.holders|
  {
    k.(holders := k.holders[m := Some(k.current)],
       tasks := k.tasks[k.current := k.Cur().(held := k.Cur().held + 1, phase := Normal)])
  }

  function AfterPark(k: Kernel, m: MutexId): Kernel
    requires k.current in k.tasks && m < |k.holders| && k.holders[m].Some? && k.holders[m].value in k.tasks
  {
    var h := k.holders[m].value;
    var flag := InheritanceOccurred(k.tasks[h], k.Cur());
    k.(tasks := k.tasks[h := Inherit(k.tasks[h], k.Cur())][k.current := Blocked(k.Cur(), Parked(m, flag))],
       yieldPending := true)
  }

  /** The give path of xQueueGenericSend: disinherit, free the mutex, wake the
      head waiter. When there is a waiter only its priority decides the yield. */
  function AfterGive(k: Kernel, m: MutexId, w: Option<TaskId>): Kernel
    requires k.current in k.tasks && m < |k.holders|
    requires w.Some? ==> w.value in k.tasks && w.value != k.current && k.tasks[w.value].phase.Parked?
  {
    var k1 := k.(holders := k.holders[m := None], tasks := k.tasks[k.current := Disinherit(k.Cur())]);
    match w
    case None => k1.(yieldPending := Disinherits(k.Cur()))
    case Some(t) => Woken(k1, t, Retrying(m, k.tasks[t].phase.inherited))
  }

  function AfterCleanup(k: Kernel, p: nat): Kernel
    requires k.current in k.tasks && k.Cur().phase.GivingUp? && k.Cur().phase.m < |k.holders|
    requires k.holders[k.Cur().phase.m].Some? ==> k.holders[k.Cur().phase.m].value in k.tasks
  {
    var h := k.holders[k.Cur().phase.m];
    var ts := if k.Cur().phase.inherited && h.Some?
              then k.tasks[h.value := DisinheritAfterTimeout(k.tasks[h.value], p)] else k.tasks;
    k.(tasks := ts[k.current := ts[k.current].(phase := Normal)])
  }

  function AfterPrioritySet(k: Kernel, t: TaskId, p: nat): Kernel
    requires k.current in k.tasks && t in k.tasks
  {
    var base := k.tasks[t].base;
    var asks := if p > base then t != k.current && p > k.Cur().priority else p < base && t == k.current;
    k.(tasks := k.tasks[t := Rebased(k.tasks[t], p)], yieldPending := k.yieldPending || asks)
  }

  ghost function Apply(k: Kernel, s: Step): Kernel
    requires Shape(k) && Enabled(k, s)
  {
    var c := k.Cur();
    match s
    case Take(m) => AfterTake(k, m)
    case Park(m) => AfterPark(k, m)
    case Give(m, w) => AfterGive(k, m, w)
    case Abandon => k.(tasks := k.tasks[k.current := c.(phase := GivingUp(c.phase.m, c.phase.inherited))])
    case Cleanup(p) => AfterCleanup(k, p)
    case TimeOut(t) => Woken(k, t, Retrying(k.tasks[t].phase.m, k.tasks[t].phase.inherited))
    case Sleep => k.(tasks := k.tasks[k.current := Blocked(c, Asleep)], yieldPending := true)
    case Wake(t) => Woken(k, t, Normal)
    case Switch(t) => k.(current := t, yieldPending := false)
    case PrioritySet(t, p) => AfterPrioritySet(k, t, p)
  }

  // ---------------------------------------------------------------------
  // Every step keeps the books
  // ---------------------------------------------------------------------

  lemma {:induction false} HeldByPositive(hs: seq<Option<TaskId>>, t: TaskId, i: nat)
    requires i < |hs| && hs[i] == Some(t)
    ensures HeldBy(hs, t) > 0
  {
    if i < |hs| - 1 {
      HeldByPositive(hs[..|hs| - 1], t, i);
    }
  }

  lemma {:induction false} HeldByUpdate(hs: seq<Option<TaskId>>, i: nat, h: Option<TaskId>, t: TaskId)
    requires i < |hs|
    ensures HeldBy(hs[i := h], t) + (if hs[i] == Some(t) then 1 else 0)
         == HeldBy(hs, t) + (if h == Some(t) then 1 else 0)
  {
    var n := |hs| - 1;
    if i < n {
      HeldByUpdate(hs[..n], i, h, t);
      assert hs[i := h][..n] == hs[..n][i := h];
    } else {
      assert hs[i := h][..n] == hs[..n];
    }
  }

  /** Changing one mutex's holder moves the counts of the two tasks concerned. */
  lemma {:induction false} CountsAfter(k: Kernel, m: MutexId, h: Option<TaskId>)
    requires Counts(k) && m < |k.holders|
    ensures forall t :: t in k.tasks ==>
      HeldBy(k.holders[m := h], t) + (if k.holders[m] == Some(t) then 1 else 0)
      == k.tasks[t].held + (if h == Some(t) then 1 else 0)
  {
    forall t | t in k.tasks
      ensures HeldBy(k.holders[m := h], t) + (if k.holders[m] == Some(t) then 1 else 0)
           == k.tasks[t].held + (if h == Some(t) then 1 else 0)
    {
      HeldByUpdate(k.holders, m, h, t);
    }
  }

  /** The asserts of xTaskPriorityDisinherit: the giver holds what it gives. */
  lemma {:induction false} GiverHolds(k: Kernel, m: MutexId, w: Option<TaskId>)
    requires Books(k) && Enabled(k, Give(m, w))
    ensures k.holders[m] == Some(k.current) && k.Cur().held > 0
  {
    HeldByPositive(k.holders, k.current, m);
  }

  lemma {:induction false} ParkerIsNotHolder(k: Kernel, m: MutexId)
    requires Counts(k) && k.current in k.tasks && m < |k.holders| && k.Cur().held == 0
    ensures k.holders[m] != Some(k.current)
  {
    if k.holders[m] == Some(k.current) {
      HeldByPositive(k.holders, k.current, m);
    }
  }

  lemma {:induction false} KeyInRange(k: Kernel, m: MutexId, p: nat)
    requires TasksOk(k) && WaiterKey(k, m, p) && k.current in k.tasks
    ensures p < k.levels
  {
    if !(p == 0 && Waiter(k, m, None)) {
      var h :| k.WaitsOn(h, m) && p == k.tasks[h].key;
    }
  }

  lemma {:induction false} CleanupTasks(k: Kernel, p: nat)
    requires Books(k) && Enabled(k, Cleanup(p))
    ensures TasksOk(Apply(k, Cleanup(p)))
  {
    var m := k.Cur().phase.m;
    KeyInRange(k, m, p);
    if k.holders[m].Some? {
      var h := k.holders[m].value;
      HeldByPositive(k.holders, h, m);
      assert TaskOk(DisinheritAfterTimeout(k.tasks[h], p), k.levels, |k.holders|);
    }
  }

  lemma {:induction false} ParkTasks(k: Kernel, m: MutexId)
    requires Books(k) && Enabled(k, Park(m))
    ensures TasksOk(AfterPark(k, m))
  {
    HeldByPositive(k.holders, k.holders[m].value, m);
    assert TaskOk(Inherit(k.tasks[k.holders[m].value], k.Cur()), k.levels, |k.holders|);
  }

  lemma {:induction false} GiveTasks(k: Kernel, m: MutexId, w: Option<TaskId>)
    requires Books(k) && Enabled(k, Give(m, w))
    ensures TasksOk(AfterGive(k, m, w))
  {
    GiverHolds(k, m, w);
    assert TaskOk(Disinherit(k.Cur()), k.levels, |k.holders|);
  }

  lemma {:induction false} StepKeepsTasks(k: Kernel, s: Step)
    requires Books(k) && Enabled(k, s)
    ensures TasksOk(Apply(k, s))
  {
    match s
    case Park(m) => ParkTasks(k, m);
    case Give(m, w) => GiveTasks(k, m, w);
    case Cleanup(p) => CleanupTasks(k, p);
    case _ =>
  }

  lemma {:induction false} StepKeepsCounts(k: Kernel, s: Step)
    requires Books(k) && Enabled(k, s)
    ensures Counts(Apply(k, s))
  {
    if s.Take? {
      CountsAfter(k, s.m, Some(k.current));
    } else if s.Give? {
      CountsAfter(k, s.m, None);
      GiverHolds(k, s.m, s.woken);
    } else {
      OthersKeepCounts(k, s);
    }
  }

  lemma {:induction false} OthersKeepCounts(k: Kernel, s: Step)
    requires Books(k) && Enabled(k, s) && !s.Take? && !s.Give?
    ensures Counts(Apply(k, s))
  {
    var k1 := Apply(k, s);
    assert k1.holders == k.holders;
    assert forall t :: t in k.tasks ==> t in k1.tasks && k1.tasks[t].held == k.tasks[t].held;
  }

  lemma {:induction false} StepKeepsBooks(k: Kernel, s: Step)
    requires Books(k) && Enabled(k, s)
    ensures Books(Apply(k, s))
  {
    StepKeepsTasks(k, s);
    StepKeepsCounts(k, s);
  }

  // ---------------------------------------------------------------------
  // Bounded priority inversion
  // ---------------------------------------------------------------------

  /** A holder runs at least at the priority of everyone parked on its mutex. */
  ghost predicate Dominated(k: Kernel) {
    forall m, t :: 0 <= m < |k.holders| && k.holders[m].Some? && k.WaitsOn(t, m) ==>
      k.holders[m].value in k.tasks && k.tasks[t].priority <= k.tasks[k.holders[m].value].priority
  }

  ghost predicate Retries(k: Kernel, r: TaskId, m: MutexId) {
    r in k.tasks && k.tasks[r].phase.Retrying? && k.tasks[r].phase.m == m
  }

  /** A task about to retry `m` is at least as urgent as `t`. */
  ghost predicate CoveredBy(k: Kernel, t: TaskId, m: MutexId)
    requires t in k.tasks
  {
    exists r :: Retries(k, r, m) && k.tasks[t].priority <= k.tasks[r].priority
  }

  /** While a mutex is free, somebody woken for it outranks those still parked. */
  ghost predicate Covered(k: Kernel) {
    forall m, t :: 0 <= m < |k.holders| && k.holders[m].None? && k.WaitsOn(t, m) ==> CoveredBy(k, t, m)
  }

  /** Preemption: unless a yield is on its way, nobody ready outranks the running task. */
  ghost predicate RunnerTop(k: Kernel) {
    k.current in k.tasks && (k.yieldPending || (k.Cur().phase.CanRun() && NoneAbove(k, k.Cur().priority)))
  }

  ghost predicate LoopersHoldNothing(k: Kernel) {
    forall t :: t in k.tasks && k.tasks[t].phase.InLoop() ==> k.tasks[t].held == 0
  }

  ghost predicate Inv(k: Kernel) {
    Books(k) && LoopersHoldNothing(k) && Dominated(k) && Covered(k)
  }

  /** The setting of the inversion bound: base priorities are fixed, no task blocks on a
      mutex while holding another, and, no key of a parked task having changed, wait lists
      are still sorted, so that the head has the greatest key. */
  ghost predicate Confined(k: Kernel, s: Step)
    requires k.current in k.tasks
  {
    match s
    case PrioritySet(_, _) => false
    case Park(_) => k.Cur().held == 0
    case Give(m, w) => w.Some? ==> w.value in k.tasks && GreatestKey(k, m, k.tasks[w.value].key)
    case Cleanup(p) => k.Cur().phase.GivingUp? && GreatestKey(k, k.Cur().phase.m, p)
    case _ => true
  }

  ghost predicate GreatestKey(k: Kernel, m: MutexId, p: nat) {
    forall t :: k.WaitsOn(t, m) ==> k.tasks[t].key <= p
  }

  /** The give path forgets a yield: the giver drops to its base priority, a ready
      task outranks that, and the woken waiter, which alone is compared, does not. */
  ghost predicate SkippedYield(k: Kernel, m: MutexId, w: Option<TaskId>)
    requires k.current in k.tasks
  {
    && w.Some? && w.value in k.tasks
    && Disinherits(k.Cur())
    && k.tasks[w.value].priority <= k.Cur().base
    && !NoneAboveBut(k, k.current, k.Cur().base)
  }

  ghost predicate NoneAboveBut(k: Kernel, x: TaskId, p: nat) {
    forall t :: t in k.tasks && t != x && k.tasks[t].phase.CanRun() ==> k.tasks[t].priority <= p
  }

  /** After a give the running task is still the most urgent one, or is about to
      yield, exactly when the give does not take the forgetful branch. */
  lemma {:induction false} GiveYieldsIff(k: Kernel, m: MutexId, w: Option<TaskId>)
    requires Inv(k) && RunnerTop(k) && Enabled(k, Give(m, w))
    ensures RunnerTop(Apply(k, Give(m, w))) <==> !SkippedYield(k, m, w)
  {
    HeldByPositive(k.holders, k.current, m);
    var k1 := Apply(k, Give(m, w));
    if SkippedYield(k, m, w) {
      var t :| t in k.tasks && t != k.current && k.tasks[t].phase.CanRun() && k.tasks[t].priority > k.Cur().base;
      assert k1.tasks[t].phase.CanRun() && k1.tasks[t].priority > k1.Cur().priority;
    } else if !k1.yieldPending {
      forall t | t in k1.tasks && k1.tasks[t].phase.CanRun()
        ensures k1.tasks[t].priority <= k1.Cur().priority
      {
        if t != k.current && Some(t) != w {
          assert k.tasks[t] == k1.tasks[t];
        }
      }
    }
  }

  /** In that setting the key of a parked task never changes while it is parked, which is why
      its sorted wait list stays sorted. */
  lemma {:induction false} ParkedKeysFixed(k: Kernel, s: Step, t: TaskId, m: MutexId)
    requires Inv(k) && Enabled(k, s) && Confined(k, s) && k.WaitsOn(t, m) && Apply(k, s).WaitsOn(t, m)
    ensures Apply(k, s).tasks[t].key == k.tasks[t].key
  {
    match s
    case Park(i) => HeldByPositive(k.holders, k.holders[i].value, i);
    case Cleanup(_) => if k.holders[k.Cur().phase.m].Some? {
        HeldByPositive(k.holders, k.holders[k.Cur().phase.m].value, k.Cur().phase.m);
      }
    case _ =>
  }

  /** Nobody parked on `m` is more urgent than the running task. */
  ghost predicate Outranks(k: Kernel, m: MutexId)
    requires k.current in k.tasks
  {
    forall t :: k.WaitsOn(t, m) ==> k.tasks[t].priority <= k.Cur().priority
  }

  /** A step that strands nobody new and stops no retry keeps free mutexes covered. */
  lemma {:induction false} StillCovered(k: Kernel, k1: Kernel)
    requires Covered(k) && |k1.holders| == |k.holders|
    requires forall i, t :: 0 <= i < |k1.holders| && k1.holders[i].None? && k1.WaitsOn(t, i) ==>
      k.holders[i].None? && k.WaitsOn(t, i) && k1.tasks[t].priority == k.tasks[t].priority
    requires forall i, r :: 0 <= i < |k1.holders| && k1.holders[i].None? && Retries(k, r, i) ==>
      Retries(k1, r, i) && k1.tasks[r].priority == k.tasks[r].priority
    ensures Covered(k1)
  {
    forall i, t | 0 <= i < |k1.holders| && k1.holders[i].None? && k1.WaitsOn(t, i)
      ensures CoveredBy(k1, t, i)
    {
      var r :| Retries(k, r, i) && k.tasks[t].priority <= k.tasks[r].priority;
      assert Retries(k1, r, i);
    }
  }

  /** A take keeps the bound exactly when it overtakes nobody more urgent. */
  lemma {:induction false} TakeIff(k: Kernel, m: MutexId)
    requires Inv(k) && Enabled(k, Take(m))
    ensures Dominated(Apply(k, Take(m))) <==> Outranks(k, m)
  {
    var k1 := Apply(k, Take(m));
    if Outranks(k, m) {
      forall i, t | 0 <= i < |k1.holders| && k1.holders[i].Some? && k1.WaitsOn(t, i)
        ensures k1.tasks[t].priority <= k1.tasks[k1.holders[i].value].priority
      {
        assert k.WaitsOn(t, i);
      }
    } else {
      var t :| k.WaitsOn(t, m) && k.tasks[t].priority > k.Cur().priority;
      assert k1.WaitsOn(t, m);
    }
  }

  /** A running task that nobody ready outranks overtakes nobody more urgent: whoever was
      woken for the free mutex is ready and at least as urgent as those still parked. */
  lemma {:induction false} TopOutranks(k: Kernel, m: MutexId)
    requires Inv(k) && RunnerTop(k) && Enabled(k, Take(m))
    ensures Outranks(k, m)
  {
    forall t | k.WaitsOn(t, m) ensures k.tasks[t].priority <= k.Cur().priority {
      var r :| Retries(k, r, m) && k.tasks[t].priority <= k.tasks[r].priority;
    }
  }

  lemma {:induction false} TakeInv(k: Kernel, m: MutexId)
    requires Inv(k) && Enabled(k, Take(m)) && Outranks(k, m)
    ensures Inv(Apply(k, Take(m)))
  {
    StepKeepsBooks(k, Take(m));
    TakeIff(k, m);
    StillCovered(k, Apply(k, Take(m)));
  }

  lemma {:induction false} ParkDominates(k: Kernel, m: MutexId)
    requires Inv(k) && Enabled(k, Park(m)) && k.Cur().held == 0
    ensures Dominated(Apply(k, Park(m)))
  {
    ParkerIsNotHolder(k, m);
    HeldByPositive(k.holders, k.holders[m].value, m);
    var k1 := Apply(k, Park(m));
    forall i, t | 0 <= i < |k1.holders| && k1.holders[i].Some? && k1.WaitsOn(t, i)
      ensures k1.tasks[t].priority <= k1.tasks[k1.holders[i].value].priority
    {
      ParkerIsNotHolder(k, i);
      assert t != k.current ==> k.WaitsOn(t, i);
    }
  }

  lemma {:induction false} ParkCovers(k: Kernel, m: MutexId)
    requires Inv(k) && Enabled(k, Park(m)) && k.Cur().held == 0
    ensures Covered(Apply(k, Park(m)))
  {
    HeldByPositive(k.holders, k.holders[m].value, m);
    var k1 := Apply(k, Park(m));
    StillCovered(k, k1);
  }

  lemma {:induction false} ParkInv(k: Kernel, m: MutexId)
    requires Inv(k) && Enabled(k, Park(m)) && k.Cur().held == 0
    ensures Inv(Apply(k, Park(m)))
  {
    StepKeepsBooks(k, Park(m));
    HeldByPositive(k.holders, k.holders[m].value, m);
    ParkDominates(k, m);
    ParkCovers(k, m);
  }

  lemma {:induction false} GiveDominates(k: Kernel, m: MutexId, w: Option<TaskId>)
    requires Inv(k) && Enabled(k, Give(m, w))
    ensures Dominated(Apply(k, Give(m, w)))
  {
    var k1 := Apply(k, Give(m, w));
    forall i, t | 0 <= i < |k1.holders| && k1.holders[i].Some? && k1.WaitsOn(t, i)
      ensures k1.tasks[t].priority <= k1.tasks[k1.holders[i].value].priority
    {
      assert k.WaitsOn(t, i);
      if k.holders[i] == Some(k.current) {
        HeldTwice(k.holders, k.current, i, m);
      }
    }
  }

  lemma {:induction false} GiveCovers(k: Kernel, m: MutexId, w: Option<TaskId>)
    requires Inv(k) && Enabled(k, Give(m, w)) && Confined(k, Give(m, w))
    ensures Covered(Apply(k, Give(m, w)))
  {
    var k1 := Apply(k, Give(m, w));
    forall i, t | 0 <= i < |k1.holders| && k1.holders[i].None? && k1.WaitsOn(t, i)
      ensures CoveredBy(k1, t, i)
    {
      assert k.WaitsOn(t, i);
      if i == m {
        assert Retries(k1, w.value, m);
      } else {
        var r :| Retries(k, r, i) && k.tasks[t].priority <= k.tasks[r].priority;
        assert Retries(k1, r, i);
      }
    }
  }

  lemma {:induction false} GiveInv(k: Kernel, m: MutexId, w: Option<TaskId>)
    requires Inv(k) && Enabled(k, Give(m, w)) && Confined(k, Give(m, w))
    ensures Inv(Apply(k, Give(m, w)))
  {
    StepKeepsBooks(k, Give(m, w));
    GiveDominates(k, m, w);
    GiveCovers(k, m, w);
  }

  lemma {:induction false} CleanupDominates(k: Kernel, p: nat)
    requires Inv(k) && Enabled(k, Cleanup(p)) && Confined(k, Cleanup(p))
    ensures Dominated(Apply(k, Cleanup(p)))
  {
    var m := k.Cur().phase.m;
    if k.holders[m].Some? {
      CleanupNeverRaises(k, p);
    }
    var k1 := Apply(k, Cleanup(p));
    forall i, t | 0 <= i < |k1.holders| && k1.holders[i].Some? && k1.WaitsOn(t, i)
      ensures k1.tasks[t].priority <= k1.tasks[k1.holders[i].value].priority
    {
      assert k.WaitsOn(t, i);
      if k.holders[i] == k.holders[m] && i != m {
        HeldTwice(k.holders, k.holders[m].value, i, m);
      }
    }
  }

  lemma {:induction false} CleanupCovers(k: Kernel, p: nat)
    requires Inv(k) && Enabled(k, Cleanup(p)) && Confined(k, Cleanup(p))
    ensures Covered(Apply(k, Cleanup(p)))
  {
    if k.holders[k.Cur().phase.m].Some? {
      CleanupNeverRaises(k, p);
    }
    StillCovered(k, Apply(k, Cleanup(p)));
  }

  lemma {:induction false} CleanupInv(k: Kernel, p: nat)
    requires Inv(k) && Enabled(k, Cleanup(p)) && Confined(k, Cleanup(p))
    ensures Inv(Apply(k, Cleanup(p)))
  {
    StepKeepsBooks(k, Cleanup(p));
    CleanupDominates(k, p);
    CleanupCovers(k, p);
  }

  lemma {:induction false} HeldTwice(hs: seq<Option<TaskId>>, t: TaskId, i: nat, j: nat)
    requires i < |hs| && j < |hs| && i != j && hs[i] == hs[j] == Some(t)
    ensures HeldBy(hs, t) >= 2
  {
    var n := |hs| - 1;
    if i < n && j < n {
      HeldTwice(hs[..n], t, i, j);
    } else {
      HeldByPositive(hs[..n], t, if i < n then i else j);
    }
  }

  /** The asserts of vTaskPriorityDisinheritAfterTimeout hold, and the timed out
      waiter can only lower the holder, never below a task that still waits. */
  lemma {:induction false} CleanupNeverRaises(k: Kernel, p: nat)
    requires Inv(k) && Enabled(k, Cleanup(p)) && Confined(k, Cleanup(p)) && k.holders[k.Cur().phase.m].Some?
    ensures var h := k.holders[k.Cur().phase.m].value;
            && h != k.current && k.tasks[h].held > 0
            && DisinheritAfterTimeout(k.tasks[h], p).priority <= k.tasks[h].priority
            && forall t :: k.WaitsOn(t, k.Cur().phase.m) ==>
                 k.tasks[t].priority <= DisinheritAfterTimeout(k.tasks[h], p).priority
  {
    var m := k.Cur().phase.m;
    HeldByPositive(k.holders, k.holders[m].value, m);
    if !Waiter(k, m, None) {
      var w :| k.WaitsOn(w, m) && p == k.tasks[w].key;
    }
  }

  lemma {:induction false} WokenInv(k: Kernel, s: Step, t: TaskId, ph: Phase)
    requires Inv(k) && t in k.tasks && !k.tasks[t].phase.CanRun()
    requires Enabled(k, s) && Apply(k, s) == Woken(k, t, ph)
    requires ph.Normal? || (ph.Retrying? && k.tasks[t].phase.Parked?)
    ensures Inv(Woken(k, t, ph))
  {
    StepKeepsBooks(k, s);
    WokenCovers(k, t, ph);
  }

  lemma {:induction false} WokenCovers(k: Kernel, t: TaskId, ph: Phase)
    requires Dominated(k) && Covered(k) && k.current in k.tasks && t in k.tasks && !k.tasks[t].phase.CanRun()
    requires ph.Normal? || (ph.Retrying? && k.tasks[t].phase.Parked?)
    ensures Dominated(Woken(k, t, ph)) && Covered(Woken(k, t, ph))
  {
    var k1 := Woken(k, t, ph);
    assert forall i, x :: k1.WaitsOn(x, i) ==> k.WaitsOn(x, i);
    StillCovered(k, k1);
  }

  /** The running task changes its phase without entering or leaving a wait list, and is not
      one that stops retrying a free mutex. */
  lemma {:induction false} RephasedCovers(k: Kernel, c: Tcb, y: bool)
    requires Dominated(k) && Covered(k) && k.current in k.tasks && c == k.Cur().(list := c.list, phase := c.phase)
    requires !k.Cur().phase.Parked? && !c.phase.Parked?
    requires k.Cur().phase.Retrying? ==> k.Cur().phase.m < |k.holders| && k.holders[k.Cur().phase.m].Some?
    ensures var k1 := k.(tasks := k.tasks[k.current := c], yieldPending := y); Dominated(k1) && Covered(k1)
  {
    var k1 := k.(tasks := k.tasks[k.current := c], yieldPending := y);
    assert forall i, x :: k1.WaitsOn(x, i) <==> k.WaitsOn(x, i);
    StillCovered(k, k1);
  }

  lemma {:induction false} SleepInv(k: Kernel)
    requires Inv(k) && Enabled(k, Sleep)
    ensures Inv(Apply(k, Sleep))
  {
    StepKeepsBooks(k, Sleep);
    RephasedCovers(k, Blocked(k.Cur(), Asleep), true);
  }

  lemma {:induction false} AbandonInv(k: Kernel)
    requires Inv(k) && Enabled(k, Abandon)
    ensures Inv(Apply(k, Abandon))
  {
    StepKeepsBooks(k, Abandon);
    var c := k.Cur();
    RephasedCovers(k, c.(phase := GivingUp(c.phase.m, c.phase.inherited)), k.yieldPending);
  }

  lemma {:induction false} SwitchInv(k: Kernel, t: TaskId)
    requires Inv(k) && Enabled(k, Switch(t))
    ensures Inv(Apply(k, Switch(t)))
  {
    var k1 := Apply(k, Switch(t));
    assert forall i, x :: k1.WaitsOn(x, i) ==> k.WaitsOn(x, i);
    StillCovered(k, k1);
  }

  /** Every step keeps the bound, except a take that overtakes somebody more urgent. */
  lemma {:induction false} StepKeepsInv(k: Kernel, s: Step)
    requires Inv(k) && Enabled(k, s) && Confined(k, s) && (s.Take? ==> Outranks(k, s.m))
    ensures Inv(Apply(k, s))
  {
    match s
    case Take(m) => TakeInv(k, m);
    case Park(m) => ParkInv(k, m);
    case Give(m, w) => GiveInv(k, m, w);
    case Cleanup(p) => CleanupInv(k, p);
    case TimeOut(t) => WokenInv(k, s, t, Retrying(k.tasks[t].phase.m, k.tasks[t].phase.inherited));
    case Wake(t) => WokenInv(k, s, t, Normal);
    case Sleep => SleepInv(k);
    case Abandon => AbandonInv(k);
    case Switch(t) => SwitchInv(k, t);
  }

  /** Every step but a give that skips its yield keeps the running task on top. */
  lemma {:induction false} StepKeepsTop(k: Kernel, s: Step)
    requires Inv(k) && RunnerTop(k) && Enabled(k, s) && Confined(k, s)
    requires s.Give? ==> !SkippedYield(k, s.m, s.woken)
    ensures RunnerTop(Apply(k, s))
  {
    match s
    case Give(m, w) => GiveYieldsIff(k, m, w);
    case Cleanup(p) => if k.holders[k.Cur().phase.m].Some? { CleanupNeverRaises(k, p); }
    case _ =>
  }

  // ---------------------------------------------------------------------
  // Whole runs
  // ---------------------------------------------------------------------

  /** Tasks and free mutexes as they are before the first take. */
  ghost predicate Initial(k: Kernel) {
    && RunnerTop(k)
    && (forall m :: 0 <= m < |k.holders| ==> k.holders[m] == None)
    && (forall t :: t in k.tasks ==>
          var c := k.tasks[t];
          && c.priority == c.base == c.key < k.levels && c.held == 0
          && (c.phase.Normal? || c.phase.Asleep?)
          && c.list == (if c.phase.Normal? then Some(c.priority) else None))
  }

  lemma {:induction false} NothingHeld(hs: seq<Option<TaskId>>, t: TaskId)
    requires forall m :: 0 <= m < |hs| ==> hs[m] == None
    ensures HeldBy(hs, t) == 0
  {
    if hs != [] {
      NothingHeld(hs[..|hs| - 1], t);
    }
  }

  lemma {:induction false} InitialInv(k: Kernel)
    requires Initial(k)
    ensures Inv(k)
  {
    forall t | t in k.tasks ensures k.tasks[t].held == HeldBy(k.holders, t) {
      NothingHeld(k.holders, t);
    }
  }

  /** The run `steps` from `k` is possible, step by step. */
  ghost predicate Possible(k: Kernel, steps: seq<Step>)
    decreases |steps|
  {
    steps != [] ==> Shape(k) && Enabled(k, steps[0]) && Possible(Apply(k, steps[0]), steps[1..])
  }

  ghost function After(k: Kernel, steps: seq<Step>): Kernel
    requires Possible(k, steps)
    decreases |steps|
  {
    if steps == [] then k else After(Apply(k, steps[0]), steps[1..])
  }

  ghost predicate ConfinedRun(k: Kernel, steps: seq<Step>)
    requires Possible(k, steps)
    decreases |steps|
  {
    steps != [] ==> Confined(k, steps[0]) && ConfinedRun(Apply(k, steps[0]), steps[1..])
  }

  /** Every take in the run overtakes nobody more urgent. */
  ghost predicate FairRun(k: Kernel, steps: seq<Step>)
    requires Possible(k, steps)
    decreases |steps|
  {
    steps != [] ==>
      && (steps[0].Take? ==> Outranks(k, steps[0].m))
      && FairRun(Apply(k, steps[0]), steps[1..])
  }

  /** The bound holds in every state of the run. */
  ghost predicate AlwaysDominated(k: Kernel, steps: seq<Step>)
    requires Possible(k, steps)
    decreases |steps|
  {
    Dominated(k) && (steps != [] ==> AlwaysDominated(Apply(k, steps[0]), steps[1..]))
  }

  /** What a giver has to do: after a give that skips its yield, nobody takes a mutex until
      the next context switch (a yield by the giver is enough). */
  ghost predicate DisciplinedRun(k: Kernel, steps: seq<Step>, skipped: bool)
    requires Possible(k, steps)
    decreases |steps|
  {
    steps != [] ==>
      && (steps[0].Take? ==> !skipped)
      && DisciplinedRun(Apply(k, steps[0]), steps[1..], SkippedBy(k, steps[0], skipped))
  }

  /** Whether a skipped yield is outstanding after the step. */
  ghost predicate SkippedBy(k: Kernel, s: Step, skipped: bool)
    requires k.current in k.tasks
  {
    if s.Switch? then false else skipped || (s.Give? && SkippedYield(k, s.m, s.woken))
  }

  /** Inheritance bookkeeping over every run, priority changes included. */
  lemma {:induction false} RunKeepsBooks(k: Kernel, steps: seq<Step>)
    requires Books(k) && Possible(k, steps)
    ensures Books(After(k, steps))
    decreases |steps|
  {
    if steps != [] {
      StepKeepsBooks(k, steps[0]);
      RunKeepsBooks(Apply(k, steps[0]), steps[1..]);
    }
  }

  lemma {:induction false} RunKeepsInv(k: Kernel, steps: seq<Step>)
    requires Inv(k) && Possible(k, steps) && ConfinedRun(k, steps) && FairRun(k, steps)
    ensures Inv(After(k, steps)) && AlwaysDominated(k, steps)
    decreases |steps|
  {
    if steps != [] {
      StepKeepsInv(k, steps[0]);
      RunKeepsInv(Apply(k, steps[0]), steps[1..]);
    }
  }

  lemma {:induction false} UnfairBreaks(k: Kernel, steps: seq<Step>)
    requires Inv(k) && Possible(k, steps) && ConfinedRun(k, steps) && AlwaysDominated(k, steps)
    ensures FairRun(k, steps)
    decreases |steps|
  {
    if steps != [] {
      var k1 := Apply(k, steps[0]);
      assert Dominated(k1);
      if steps[0].Take? {
        TakeIff(k, steps[0].m);
      }
      StepKeepsInv(k, steps[0]);
      UnfairBreaks(k1, steps[1..]);
    }
  }

  /** Bounded priority inversion, exactly: in a run with fixed base priorities and no
      blocking while holding, every mutex holder is at all times at least as urgent as every
      task parked on its mutex if and only if no take overtakes a more urgent parked task. */
  lemma {:induction false} BoundedInversionIff(k: Kernel, steps: seq<Step>)
    requires Initial(k) && Possible(k, steps) && ConfinedRun(k, steps)
    ensures AlwaysDominated(k, steps) <==> FairRun(k, steps)
  {
    InitialInv(k);
    if FairRun(k, steps) {
      RunKeepsInv(k, steps);
    }
    if AlwaysDominated(k, steps) {
      UnfairBreaks(k, steps);
    }
  }

  /** Such a take can only come between a skipped yield and the next context switch. */
  lemma {:induction false} DisciplineIsFair(k: Kernel, steps: seq<Step>, skipped: bool)
    requires Inv(k) && Possible(k, steps) && ConfinedRun(k, steps) && DisciplinedRun(k, steps, skipped)
    requires skipped || RunnerTop(k)
    ensures FairRun(k, steps)
    decreases |steps|
  {
    if steps != [] {
      var s := steps[0];
      if s.Take? {
        TopOutranks(k, s.m);
      }
      StepKeepsInv(k, s);
      if !SkippedBy(k, s, skipped) {
        TopAfter(k, s, skipped);
      }
      DisciplineIsFair(Apply(k, s), steps[1..], SkippedBy(k, s, skipped));
    }
  }

  lemma {:induction false} TopAfter(k: Kernel, s: Step, skipped: bool)
    requires Inv(k) && Enabled(k, s) && Confined(k, s) && (skipped || RunnerTop(k)) && !SkippedBy(k, s, skipped)
    ensures RunnerTop(Apply(k, s))
  {
    if !s.Switch? {
      StepKeepsTop(k, s);
    }
  }

  /** Bounded priority inversion: from any initial state, through any such run in which no
      mutex is taken between a skipped yield and the next context switch, every mutex holder
      is at least as urgent as every task parked on its mutex. */
  lemma {:induction false} BoundedInversion(k: Kernel, steps: seq<Step>, m: MutexId, t: TaskId)
    requires Initial(k) && Possible(k, steps) && ConfinedRun(k, steps) && DisciplinedRun(k, steps, false)
    requires var e := After(k, steps); m < |e.holders| && e.holders[m].Some? && e.WaitsOn(t, m)
    ensures var e := After(k, steps);
            e.holders[m].value in e.tasks && e.tasks[t].priority <= e.tasks[e.holders[m].value].priority
  {
    InitialInv(k);
    DisciplineIsFair(k, steps, false);
    RunKeepsInv(k, steps);
  }

  // ---------------------------------------------------------------------
  // Without the discipline the bound fails
  // ---------------------------------------------------------------------

  function Task(p: nat, base: nat, held: nat, ph: Phase): Tcb {
    Tcb(p, base, p, held, if ph.CanRun() then Some(p) else None, ph)
  }

  function Scene(h: Tcb, a: Tcb, b: Tcb, c: Tcb, m0: Option<TaskId>, m1: Option<TaskId>, cur: TaskId, y: bool): Kernel {
    Kernel(map[0 := h, 1 := a, 2 := b, 3 := c], [m0, m1], 3, cur, y)
  }

  /** Task 0 (base priority 1) holds both mutexes. Task 3 (priority 1) parks on the
      first, tasks 1 and 2 (priority 2) on the second. Task 0 gives the second,
      then the first, and takes the second again. */
  function BadStep(i: nat): Step {
    match i
    case 0 => Take(0)
    case 1 => Take(1)
    case 2 => Switch(3)
    case 3 => Park(0)
    case 4 => Wake(1)
    case 5 => Switch(1)
    case 6 => Park(1)
    case 7 => Wake(2)
    case 8 => Switch(2)
    case 9 => Park(1)
    case 10 => Switch(0)
    case 11 => Give(1, Some(1))
    case 12 => Give(0, Some(3))
    case _ => Take(1)
  }

  function BadScene(i: nat): Kernel {
    match i
    case 0 => Scene(Task(1, 1, 0, Normal), Task(2, 2, 0, Asleep), Task(2, 2, 0, Asleep), Task(1, 1, 0, Normal), None, None, 0, false)
    case 1 => Scene(Task(1, 1, 1, Normal), Task(2, 2, 0, Asleep), Task(2, 2, 0, Asleep), Task(1, 1, 0, Normal), Some(0), None, 0, false)
    case 2 => Scene(Task(1, 1, 2, Normal), Task(2, 2, 0, Asleep), Task(2, 2, 0, Asleep), Task(1, 1, 0, Normal), Some(0), Some(0), 0, false)
    case 3 => Scene(Task(1, 1, 2, Normal), Task(2, 2, 0, Asleep), Task(2, 2, 0, Asleep), Task(1, 1, 0, Normal), Some(0), Some(0), 3, false)
    case 4 => Scene(Task(1, 1, 2, Normal), Task(2, 2, 0, Asleep), Task(2, 2, 0, Asleep), Task(1, 1, 0, Parked(0, false)), Some(0), Some(0), 3, true)
    case 5 => Scene(Task(1, 1, 2, Normal), Task(2, 2, 0, Normal), Task(2, 2, 0, Asleep), Task(1, 1, 0, Parked(0, false)), Some(0), Some(0), 3, true)
    case 6 => Scene(Task(1, 1, 2, Normal), Task(2, 2, 0, Normal), Task(2, 2, 0, Asleep), Task(1, 1, 0, Parked(0, false)), Some(0), Some(0), 1, false)
    case 7 => Scene(Task(2, 1, 2, Normal), Task(2, 2, 0, Parked(1, true)), Task(2, 2, 0, Asleep), Task(1, 1, 0, Parked(0, false)), Some(0), Some(0), 1, true)
    case 8 => Scene(Task(2, 1, 2, Normal), Task(2, 2, 0, Parked(1, true)), Task(2, 2, 0, Normal), Task(1, 1, 0, Parked(0, false)), Some(0), Some(0), 1, true)
    case 9 => Scene(Task(2, 1, 2, Normal), Task(2, 2, 0, Parked(1, true)), Task(2, 2, 0, Normal), Task(1, 1, 0, Parked(0, false)), Some(0), Some(0), 2, false)
    case 10 => Scene(Task(2, 1, 2, Normal), Task(2, 2, 0, Parked(1, true)), Task(2, 2, 0, Parked(1, true)), Task(1, 1, 0, Parked(0, false)), Some(0), Some(0), 2, true)
    case 11 => Scene(Task(2, 1, 2, Normal), Task(2, 2, 0, Parked(1, true)), Task(2, 2, 0, Parked(1, true)), Task(1, 1, 0, Parked(0, false)), Some(0), Some(0), 0, false)
    case 12 => Scene(Task(2, 1, 1, Normal), Task(2, 2, 0, Retrying(1, true)), Task(2, 2, 0, Parked(1, true)), Task(1, 1, 0, Parked(0, false)), Some(0), None, 0, false)
    case 13 => Scene(Task(1, 1, 0, Normal), Task(2, 2, 0, Retrying(1, true)), Task(2, 2, 0, Parked(1, true)), Task(1, 1, 0, Retrying(0, false)), None, None, 0, false)
    case _ => Scene(Task(1, 1, 1, Normal), Task(2, 2, 0, Retrying(1, true)), Task(2, 2, 0, Parked(1, true)), Task(1, 1, 0, Retrying(0, false)), None, Some(0), 0, false)
  }

  function BadRun(i: nat): seq<Step>
    decreases 14 - i
  {
    if i >= 14 then [] else [BadStep(i)] + BadRun(i + 1)
  }

  ghost predicate Leads(k: Kernel, s: Step, k1: Kernel) {
    Shape(k) && Enabled(k, s) && Apply(k, s) == k1
  }

  lemma {:induction false} TakingLeads(i: nat)
    requires 0 <= i < 2
    ensures Leads(BadScene(i), BadStep(i), BadScene(i + 1))
  {
    match i
    case 0 => assert Leads(BadScene(0), BadStep(0), BadScene(1));
    case 1 => assert Leads(BadScene(1), BadStep(1), BadScene(2));
    case _ =>
  }

  lemma {:induction false} LowParkLeads(i: nat)
    requires 2 <= i < 4
    ensures Leads(BadScene(i), BadStep(i), BadScene(i + 1))
  {
    match i
    case 2 => assert Leads(BadScene(2), BadStep(2), BadScene(3));
    case 3 => assert Leads(BadScene(3), BadStep(3), BadScene(4));
    case _ =>
  }

  lemma {:induction false} WakingLeads(i: nat)
    requires 4 <= i < 6
    ensures Leads(BadScene(i), BadStep(i), BadScene(i + 1))
  {
    match i
    case 4 => assert Leads(BadScene(4), BadStep(4), BadScene(5));
    case 5 => assert Leads(BadScene(5), BadStep(5), BadScene(6));
    case _ =>
  }

  lemma {:induction false} FirstParkLeads(i: nat)
    requires 6 <= i < 8
    ensures Leads(BadScene(i), BadStep(i), BadScene(i + 1))
  {
    match i
    case 6 => assert Leads(BadScene(6), BadStep(6), BadScene(7));
    case 7 => assert Leads(BadScene(7), BadStep(7), BadScene(8));
    case _ =>
  }

  lemma {:induction false} SecondParkLeads(i: nat)
    requires 8 <= i < 10
    ensures Leads(BadScene(i), BadStep(i), BadScene(i + 1))
  {
    match i
    case 8 => assert Leads(BadScene(8), BadStep(8), BadScene(9));
    case 9 => assert Leads(BadScene(9), BadStep(9), BadScene(10));
    case _ =>
  }

  lemma {:induction false} ReturnLeads()
    ensures Leads(BadScene(10), BadStep(10), BadScene(11))
  {
  }

  lemma {:induction false} FirstGiveLeads()
    ensures Leads(BadScene(11), BadStep(11), BadScene(12))
  {
  }

  lemma {:induction false} SecondGiveLeads()
    ensures Leads(BadScene(12), BadStep(12), BadScene(13))
  {
  }

  lemma {:induction false} BadLeads(i: nat)
    requires i < 14
    ensures Leads(BadScene(i), BadStep(i), BadScene(i + 1))
  {
    if i < 2 {
      TakingLeads(i);
    } else if i < 4 {
      LowParkLeads(i);
    } else if i < 6 {
      WakingLeads(i);
    } else if i < 8 {
      FirstParkLeads(i);
    } else if i < 10 {
      SecondParkLeads(i);
    } else if i == 10 {
      ReturnLeads();
    } else if i == 11 {
      FirstGiveLeads();
    } else if i == 12 {
      SecondGiveLeads();
    } else {
      LastTakeLeads();
    }
  }

  lemma {:induction false} LastTakeLeads()
    ensures Leads(BadScene(13), BadStep(13), BadScene(14))
  {
  }

  lemma {:induction false} BadTail(i: nat)
    requires i <= 14 && Books(BadScene(i))
    ensures Possible(BadScene(i), BadRun(i))
    ensures After(BadScene(i), BadRun(i)) == BadScene(14) && ConfinedRun(BadScene(i), BadRun(i))
    decreases 14 - i
  {
    if i < 14 {
      BadLeads(i);
      BadIsConfined(i);
      StepKeepsBooks(BadScene(i), BadStep(i));
      BadTail(i + 1);
      assert BadRun(i)[1..] == BadRun(i + 1);
    }
  }

  lemma {:induction false} BadIsConfined(i: nat)
    requires i < 14
    ensures Confined(BadScene(i), BadStep(i))
  {
  }

  lemma {:induction false} BadStart()
    ensures Initial(BadScene(0))
  {
  }

  /** With fixed base priorities and no blocking while holding, but one forgetful
      give, a holder of priority 1 can keep a task of priority 2 parked. */
  lemma {:induction false} UnboundedInversion()
    ensures Initial(BadScene(0)) && Possible(BadScene(0), BadRun(0)) && ConfinedRun(BadScene(0), BadRun(0))
    ensures !Dominated(After(BadScene(0), BadRun(0)))
  {
    BadStart();
    InitialInv(BadScene(0));
    BadTail(0);
    assert BadScene(14).WaitsOn(2, 1);
  }
}
