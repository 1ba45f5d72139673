/** What the steps of the mutex machine come to over whole runs: who holds a mutex, who waits
    for one, who can run, and which priority a task has. */
module MutexRuns {
  import opened Common
  import opened PriorityInheritance

  // ---------------------------------------------------------------------
  // One step
  // ---------------------------------------------------------------------

  /** A mutex gets a holder by a take and loses it by a give, and in no other way. */
  lemma {:induction false} HolderIff(k: Kernel, s: Step, m: MutexId)
    requires Shape(k) && Enabled(k, s) && m < |k.holders|
    ensures |Apply(k, s).holders| == |k.holders|
    ensures Apply(k, s).holders[m] ==
      if s == Take(m) then Some(k.current) else if s.Give? && s.m == m then None else k.holders[m]
  {
  }

  /** The step makes `t` ready. */
  predicate Rouses(s: Step, t: TaskId) { s == Wake(t) || s == TimeOut(t) || (s.Give? && s.woken == Some(t)) }

  /** The step makes the running task wait. */
  predicate Blocks(s: Step) { s.Park? || s.Sleep? }

  /** A task enters the wait list of a mutex by parking on it, and leaves it by a give that
      picks it or by its timeout, and in no other way. */
  lemma {:induction false} WaitsIff(k: Kernel, s: Step, t: TaskId, m: MutexId)
    requires Shape(k) && Enabled(k, s)
    ensures Apply(k, s).WaitsOn(t, m) <==> (s == Park(m) && t == k.current) || (k.WaitsOn(t, m) && !Rouses(s, t))
  {
  }

  /** A task can run until it blocks, and again when something makes it ready. */
  lemma {:induction false} RunnableIff(k: Kernel, s: Step, t: TaskId)
    requires Shape(k) && Enabled(k, s) && t in k.tasks
    ensures t in Apply(k, s).tasks
    ensures Apply(k, s).tasks[t].phase.CanRun() <==>
      Rouses(s, t) || (k.tasks[t].phase.CanRun() && !(Blocks(s) && t == k.current))
  {
  }

  /** A waiter that gives up takes back the priority it lent: a holder of that one mutex comes
      down to its base priority or to the most urgent task that still waits for it, whichever
      is higher, and to the ready list of that priority; a holder of several keeps what it
      has; nobody else is concerned. */
  lemma {:induction false} CleanupMeans(k: Kernel, p: nat)
    requires Books(k) && Enabled(k, Cleanup(p))
    ensures var k1, h := Apply(k, Cleanup(p)), k.holders[k.Cur().phase.m];
      && k1.holders == k.holders && k1.current == k.current && k1.tasks.Keys == k.tasks.Keys
      && (h.Some? && k.Cur().phase.inherited ==>
           && k1.tasks[h.value].priority ==
                (if k.tasks[h.value].held > 1 then k.tasks[h.value].priority
                 else if k.tasks[h.value].base < p then p else k.tasks[h.value].base)
           && (k.tasks[h.value].phase.CanRun() && h.value != k.current ==> k1.tasks[h.value].list == Some(k1.tasks[h.value].priority)))
      && (forall t :: t in k.tasks && t != k.current && (h == Some(t) ==> !k.Cur().phase.inherited) ==> k1.tasks[t] == k.tasks[t])
  {
    StepKeepsBooks(k, Cleanup(p));
    var m := k.Cur().phase.m;
    if k.holders[m].Some? {
      HeldByPositive(k.holders, k.holders[m].value, m);
      assert TaskOk(k.tasks[k.holders[m].value], k.levels, |k.holders|);
    }
  }

  /** Giving back its last mutex returns a task to its base priority; giving one of several
      leaves it what it has. */
  lemma {:induction false} GiveMeans(k: Kernel, m: MutexId, w: Option<TaskId>)
    requires Books(k) && Enabled(k, Give(m, w))
    ensures var k1 := Apply(k, Give(m, w));
      && k.current in k1.tasks && k1.Cur().held == k.Cur().held - 1
      && k1.Cur().priority == (if k.Cur().held == 1 then k.Cur().base else k.Cur().priority)
      && k1.Cur().list == Some(k1.Cur().priority)
  {
    GiverHolds(k, m, w);
    assert TaskOk(k.Cur(), k.levels, |k.holders|);
  }

  /** Parking lends the holder the caller's priority if that is higher, and nothing else. */
  lemma {:induction false} ParkMeans(k: Kernel, m: MutexId)
    requires Books(k) && Enabled(k, Park(m)) && k.holders[m] != Some(k.current)
    ensures var k1, h := Apply(k, Park(m)), k.holders[m].value;
      && h in k1.tasks && k1.tasks[h].base == k.tasks[h].base && k1.tasks[h].held == k.tasks[h].held
      && k1.tasks[h].priority == (if k.tasks[h].priority < k.Cur().priority then k.Cur().priority else k.tasks[h].priority)
      && k1.WaitsOn(k.current, m) && k1.Cur().list.None? && k1.yieldPending
      && (k1.Cur().phase.inherited <==> k.tasks[h].base < k.Cur().priority)
  {
    assert TaskOk(k.tasks[k.holders[m].value], k.levels, |k.holders|);
  }

  /** vTaskPrioritySet: the base priority becomes `p`; the used one follows unless it is
      inherited and larger; the task is on the ready list of its used priority if it can run;
      nothing else changes; and the caller is to yield exactly if it raised another task above
      itself or lowered its own base priority. */
  lemma {:induction false} PrioritySetMeans(k: Kernel, t: TaskId, p: nat)
    requires Books(k) && Enabled(k, PrioritySet(t, p))
    ensures var k1 := Apply(k, PrioritySet(t, p));
      && t in k1.tasks && k1 == k.(tasks := k.tasks[t := k1.tasks[t]], yieldPending := k1.yieldPending)
      && var c, c1 := k.tasks[t], k1.tasks[t];
      && c1.base == p
      && c1.priority == (if c.priority == c.base || p > c.priority then p else c.priority)
      && c1.list == (if c.phase.CanRun() then Some(c1.priority) else None)
      && c1.held == c.held && c1.phase == c.phase && c1.key == (if c.base == p then c.key else p)
      && (k1.yieldPending <==>
           || k.yieldPending
           || (t != k.current && p > c.base && p > k.Cur().priority)
           || (t == k.current && p < c.base))
  {
    assert TaskOk(k.tasks[t], k.levels, |k.holders|);
  }

  /** However priorities are changed, the running task is the most urgent one that can run or
      is about to yield. */
  lemma {:induction false} PrioritySetKeepsTop(k: Kernel, t: TaskId, p: nat)
    requires Books(k) && RunnerTop(k) && Enabled(k, PrioritySet(t, p))
    ensures RunnerTop(Apply(k, PrioritySet(t, p)))
  {
    PrioritySetMeans(k, t, p);
    var k1 := Apply(k, PrioritySet(t, p));
    if !k1.yieldPending {
      forall u | u in k1.tasks && k1.tasks[u].phase.CanRun() ensures k1.tasks[u].priority <= k1.Cur().priority {
        assert k.tasks[u].phase.CanRun();
      }
    }
  }

  // ---------------------------------------------------------------------
  // Runs
  // ---------------------------------------------------------------------

  /** The base priority that the calls of vTaskPrioritySet in a run leave `t` with. */
  function BaseAfter(base: nat, steps: seq<Step>, t: TaskId): nat
    decreases |steps|
  {
    if steps == [] then base
    else BaseAfter(if steps[0].PrioritySet? && steps[0].t == t then steps[0].p else base, steps[1..], t)
  }

  lemma {:induction false} StepSetsBase(k: Kernel, s: Step, t: TaskId)
    requires Books(k) && Enabled(k, s) && t in k.tasks
    ensures t in Apply(k, s).tasks
    ensures Apply(k, s).tasks[t].base == if s.PrioritySet? && s.t == t then s.p else k.tasks[t].base
  {
    if s.PrioritySet? {
      PrioritySetMeans(k, s.t, s.p);
    }
  }

  /** Over every run a task's base priority is the one last set, or the one it had; its used
      priority is never below that, and is that whenever it holds no mutex. */
  lemma {:induction false} RunSetsBase(k: Kernel, steps: seq<Step>, t: TaskId)
    requires Books(k) && Possible(k, steps) && t in k.tasks
    ensures t in After(k, steps).tasks
    ensures var c := After(k, steps).tasks[t];
      && c.base == BaseAfter(k.tasks[t].base, steps, t) <= c.priority
      && (c.held == 0 ==> c.priority == c.base)
      && (c.phase.CanRun() ==> c.list == Some(c.priority))
    decreases |steps|
  {
    if steps == [] {
      assert TaskOk(k.tasks[t], k.levels, |k.holders|);
    } else {
      StepKeepsBooks(k, steps[0]);
      StepSetsBase(k, steps[0], t);
      RunSetsBase(Apply(k, steps[0]), steps[1..], t);
    }
  }

  /** `t` does not give `m` in the run. */
  ghost predicate Keeps(k: Kernel, steps: seq<Step>, t: TaskId, m: MutexId)
    requires Possible(k, steps)
    decreases |steps|
  {
    steps != [] ==> !(steps[0].Give? && steps[0].m == m && k.current == t) && Keeps(Apply(k, steps[0]), steps[1..], t, m)
  }

  /** Mutual exclusion: through every run a mutex stays with its holder until the holder gives
      it, whatever the other tasks do, so nobody else takes it meanwhile. */
  lemma {:induction false} HeldUntilGiven(k: Kernel, steps: seq<Step>, t: TaskId, m: MutexId)
    requires Possible(k, steps) && m < |k.holders| && k.holders[m] == Some(t) && Keeps(k, steps, t, m)
    ensures m < |After(k, steps).holders| && After(k, steps).holders[m] == Some(t)
    ensures Take(m) !in steps
    decreases |steps|
  {
    if steps != [] {
      HolderIff(k, steps[0], m);
      HeldUntilGiven(Apply(k, steps[0]), steps[1..], t, m);
      assert steps == [steps[0]] + steps[1..];
    }
  }

  /** A parked task waits until a give picks it or its time is up, through every run. */
  lemma {:induction false} WaitsUntilRoused(k: Kernel, steps: seq<Step>, t: TaskId, m: MutexId)
    requires Possible(k, steps) && k.WaitsOn(t, m) && forall s :: s in steps ==> !Rouses(s, t)
    ensures After(k, steps).WaitsOn(t, m)
    decreases |steps|
  {
    if steps != [] {
      assert steps[0] in steps;
      WaitsIff(k, steps[0], t, m);
      WaitsUntilRoused(Apply(k, steps[0]), steps[1..], t, m);
    }
  }

  // ---------------------------------------------------------------------
  // A waiter's way
  // ---------------------------------------------------------------------

  lemma {:induction false} TwoSteps(k: Kernel, a: Step, b: Step, k1: Kernel)
    requires Shape(k) && Enabled(k, a) && k1 == Apply(k, a) && Shape(k1) && Enabled(k1, b)
    ensures Possible(k, [a, b]) && After(k, [a, b]) == Apply(k1, b)
  {
    OneMore(k1, b, []);
    assert [b] + [] == [b];
    OneMore(k, a, [b]);
    assert [a] + [b] == [a, b];
  }

  lemma {:induction false} OneMore(k: Kernel, a: Step, rest: seq<Step>)
    requires Shape(k) && Enabled(k, a) && Possible(Apply(k, a), rest)
    ensures Possible(k, [a] + rest) && After(k, [a] + rest) == After(Apply(k, a), rest)
  {
    assert ([a] + rest)[1..] == rest;
  }

  /** A waiter that a give picks and that is then the most urgent task runs and takes the mutex,
      and holds one more than before. */
  lemma {:induction false} PickedWaiterTakes(k: Kernel, m: MutexId, t: TaskId)
    requires Books(k) && Enabled(k, Give(m, Some(t)))
    requires t in k.tasks && NoneAbove(Apply(k, Give(m, Some(t))), k.tasks[t].priority)
    ensures var run := [Give(m, Some(t))] + [Switch(t), Take(m)];
      && Possible(k, run)
      && var end := After(k, run);
      && end.current == t && end.holders == k.holders[m := Some(t)]
      && t in end.tasks && end.tasks[t].phase.Normal? && end.tasks[t].held == k.tasks[t].held + 1
  {
    var k1 := Apply(k, Give(m, Some(t)));
    StepKeepsBooks(k, Give(m, Some(t)));
    var k2 := Apply(k1, Switch(t));
    TwoSteps(k1, Switch(t), Take(m), k2);
    OneMore(k, Give(m, Some(t)), [Switch(t), Take(m)]);
    assert k.holders[m := None][m := Some(t)] == k.holders[m := Some(t)];
  }

  /** A waiter whose time is up while the mutex is held, and that is then the most urgent task,
      runs, gives up and returns without it, waiting for nothing; a holder of that one mutex
      that it had lent its priority comes down again. */
  lemma {:induction false} TimedOutWaiterReturns(k: Kernel, m: MutexId, t: TaskId, p: nat)
    requires Books(k) && k.WaitsOn(t, m) && m < |k.holders| && k.holders[m].Some?
    requires NoneAbove(Apply(k, TimeOut(t)), k.tasks[t].priority)
    requires WaiterKey(Apply(Apply(Apply(k, TimeOut(t)), Switch(t)), Abandon), m, p)
    ensures var run := [TimeOut(t)] + ([Switch(t)] + [Abandon, Cleanup(p)]);
      && Possible(k, run)
      && var end := After(k, run);
      && end.current == t && end.holders == k.holders
      && t in end.tasks && end.tasks[t].phase.Normal? && end.tasks[t].held == k.tasks[t].held
      && var h := k.holders[m].value;
      && h in end.tasks
      && (k.tasks[t].phase.inherited && k.tasks[h].held == 1 && h != t ==>
           end.tasks[h].priority == if k.tasks[h].base < p then p else k.tasks[h].base)
  {
    var k1 := Apply(k, TimeOut(t));
    StepKeepsBooks(k, TimeOut(t));
    var k2 := Apply(k1, Switch(t));
    StepKeepsBooks(k1, Switch(t));
    GivesUp(k2, p);
    OneMore(k1, Switch(t), [Abandon, Cleanup(p)]);
    OneMore(k, TimeOut(t), [Switch(t)] + [Abandon, Cleanup(p)]);
  }

  lemma {:induction false} GivesUp(k: Kernel, p: nat)
    requires Books(k) && Enabled(k, Abandon) && WaiterKey(Apply(k, Abandon), k.Cur().phase.m, p)
    ensures Possible(k, [Abandon, Cleanup(p)])
    ensures var end := After(k, [Abandon, Cleanup(p)]);
      && end.current == k.current && end.holders == k.holders && k.current in end.tasks
      && end.Cur().phase.Normal? && end.Cur().held == k.Cur().held
      && var h := k.holders[k.Cur().phase.m].value;
      && h in end.tasks
      && (k.Cur().phase.inherited && k.tasks[h].held == 1 && h != k.current ==>
           end.tasks[h].priority == if k.tasks[h].base < p then p else k.tasks[h].base)
  {
    StepKeepsBooks(k, Abandon);
    CleanupMeans(Apply(k, Abandon), p);
    HeldByPositive(k.holders, k.holders[k.Cur().phase.m].value, k.Cur().phase.m);
    TwoSteps(k, Abandon, Cleanup(p), Apply(k, Abandon));
  }
}
