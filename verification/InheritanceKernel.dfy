/** The kernel object behind the mutex steps: the functions of tasks.c and the mutex
    branches of queue.c as they move tasks between the ready lists and update the task
    control blocks in place. */
module InheritanceKernel {
  import opened Common
  import opened PriorityInheritance
  import MutexRuns
  import L = ReadyLists
  import R = RoundRobin

  /** The ready lists hold exactly the tasks whose state item says so, each once, and the
      recorded top priority bounds them. */
  ghost predicate Matches(tasks: map<TaskId, Tcb>, ready: L.Ready, levels: nat) {
    && L.Inv(ready) && |ready.lists| == levels
    && (forall p :: 0 <= p < levels ==> NoDup(ready.lists[p].items))
    && (forall p, t :: 0 <= p < levels ==>
         (t in ready.lists[p].items <==> t in tasks && tasks[t].list == Some(p)))
  }

  function IndexOf(s: seq<TaskId>, t: TaskId): (i: nat)
    requires t in s
    ensures i < |s| && s[i] == t
  {
    if s[0] == t then 0 else 1 + IndexOf(s[1..], t)
  }

  lemma {:induction false} InsertedItems(r: R.Ring<TaskId>, x: TaskId)
    requires r.Ok() && NoDup(r.items) && x !in r.items
    ensures var s := R.InsertEnd(r, x).items; NoDup(s) && forall t :: t in s <==> t in r.items || t == x
  {
    var k := if r.at == 0 then |r.items| else r.at - 1;
    assert R.InsertEnd(r, x).items == r.items[..k] + [x] + r.items[k..];
    assert r.items == r.items[..k] + r.items[k..];
  }

  lemma {:induction false} RemovedItems(r: R.Ring<TaskId>, i: nat)
    requires r.Ok() && NoDup(r.items) && i < |r.items|
    ensures var s := R.Remove(r, i).items; NoDup(s) && forall t :: t in s <==> t in r.items && t != r.items[i]
  {
    var s := R.Remove(r, i).items;
    assert forall j :: 0 <= j < |s| ==> s[j] == if j < i then r.items[j] else r.items[j + 1];
    forall t | t in r.items && t != r.items[i] ensures t in s {
      var j :| 0 <= j < |r.items| && r.items[j] == t;
      assert s[if j < i then j else j - 1] == t;
    }
  }

  lemma {:induction false} AddMatches(tasks: map<TaskId, Tcb>, ready: L.Ready, levels: nat, t: TaskId, p: nat)
    requires Matches(tasks, ready, levels) && t in tasks && tasks[t].list.None? && p < levels
    ensures Matches(tasks[t := tasks[t].(list := Some(p))], L.Add(ready, t, p), levels)
  {
    InsertedItems(ready.lists[p], t);
  }

  lemma {:induction false} LeaveMatches(tasks: map<TaskId, Tcb>, ready: L.Ready, levels: nat, t: TaskId, p: nat, i: nat)
    requires Matches(tasks, ready, levels) && t in tasks && tasks[t].list == Some(p) && p < levels
    requires i < |ready.lists[p].items| && ready.lists[p].items[i] == t
    ensures Matches(tasks[t := tasks[t].(list := None)], L.Leave(ready, p, i), levels)
  {
    RemovedItems(ready.lists[p], i);
    assert ready.lists[p].items != [];
  }

  /** Records may change as long as the state items stay where they are. */
  lemma {:induction false} SameListsMatch(tasks: map<TaskId, Tcb>, ready: L.Ready, levels: nat, t: TaskId, c: Tcb)
    requires Matches(tasks, ready, levels) && t in tasks && c.list == tasks[t].list
    ensures Matches(tasks[t := c], ready, levels)
  {
  }

  lemma {:induction false} TakeKeeps(k: Kernel, m: MutexId)
    requires Books(k) && Enabled(k, Take(m))
    ensures Apply(k, Take(m)) == AfterTake(k, m) && Books(AfterTake(k, m))
    ensures Inv(k) && Outranks(k, m) ==> Inv(AfterTake(k, m))
  {
    StepKeepsBooks(k, Take(m));
    if Inv(k) && Outranks(k, m) {
      TakeInv(k, m);
    }
  }

  lemma {:induction false} ParkKeeps(k: Kernel, m: MutexId)
    requires Books(k) && Enabled(k, Park(m))
    ensures Apply(k, Park(m)) == AfterPark(k, m) && Books(AfterPark(k, m))
    ensures Inv(k) && k.Cur().held == 0 ==> Inv(AfterPark(k, m))
    ensures TaskOk(k.Cur(), k.levels, |k.holders|)
    ensures k.holders[m].value in k.tasks && TaskOk(k.tasks[k.holders[m].value], k.levels, |k.holders|)
  {
    StepKeepsBooks(k, Park(m));
    if Inv(k) && k.Cur().held == 0 {
      ParkInv(k, m);
    }
  }

  lemma {:induction false} GiveKeeps(k: Kernel, m: MutexId, w: Option<TaskId>)
    requires Books(k) && Enabled(k, Give(m, w))
    ensures k.Cur().held > 0 && (w.Some? ==> w.value in k.tasks && w.value != k.current)
    ensures TaskOk(k.Cur(), k.levels, |k.holders|) && (w.Some? ==> TaskOk(k.tasks[w.value], k.levels, |k.holders|))
    ensures Apply(k, Give(m, w)) == AfterGive(k, m, w) && Books(AfterGive(k, m, w))
    ensures Inv(k) && Confined(k, Give(m, w)) ==> Inv(AfterGive(k, m, w))
  {
    StepKeepsBooks(k, Give(m, w));
    GiverHolds(k, m, w);
    if Inv(k) && Confined(k, Give(m, w)) {
      GiveInv(k, m, w);
    }
  }

  lemma {:induction false} CleanupKeeps(k: Kernel, p: nat)
    requires Books(k) && Enabled(k, Cleanup(p))
    ensures p < k.levels && TaskOk(k.Cur(), k.levels, |k.holders|)
    ensures var h := k.holders[k.Cur().phase.m];
      h.Some? ==> h.value in k.tasks && k.tasks[h.value].held > 0 && TaskOk(k.tasks[h.value], k.levels, |k.holders|)
    ensures Apply(k, Cleanup(p)) == AfterCleanup(k, p) && Books(AfterCleanup(k, p))
    ensures Inv(k) && Confined(k, Cleanup(p)) ==> Inv(AfterCleanup(k, p))
  {
    StepKeepsBooks(k, Cleanup(p));
    var m := k.Cur().phase.m;
    if k.holders[m].Some? {
      HeldByPositive(k.holders, k.holders[m].value, m);
    }
    KeyInRange(k, m, p);
    if Inv(k) && Confined(k, Cleanup(p)) {
      CleanupInv(k, p);
    }
  }

  class MutexKernel {
    var tasks: map<TaskId, Tcb>
    var ready: L.Ready
    var holders: seq<Option<TaskId>>
    const levels: nat
    var current: TaskId
    var yieldPending: bool

    ghost function Snapshot(): Kernel
      reads this
    {
      Kernel(tasks, holders, levels, current, yieldPending)
    }

    /** The ready lists and the task records tell the same story. */
    ghost predicate Linked()
      reads this
    {
      Matches(tasks, ready, levels)
    }

    /** Every task on ready list p has priority p, and the books of the mutexes balance. */
    ghost predicate Valid()
      reads this
    {
      Linked() && Books(Snapshot())
    }

    /** Before the first task exists; tasks are added by AddTask. */
    constructor (levels: nat, mutexes: nat)
      requires levels > 0
      ensures Linked() && tasks == map[] && this.levels == levels && holders == seq(mutexes, _ => None)
    {
      this.levels := levels;
      tasks, current, yieldPending := map[], 0, false;
      holders := seq(mutexes, _ => None);
      ready := L.Ready(seq(levels, _ => R.Ring([], 0)), 0);
    }

    /** prvAddNewTaskToReadyList. */
    method AddTask(t: TaskId, p: nat)
      requires Linked() && t !in tasks && p < levels
      modifies this`tasks, this`ready
      ensures Linked() && tasks == old(tasks)[t := Tcb(p, p, p, 0, Some(p), Normal)]
    {
      tasks := tasks[t := Tcb(p, p, p, 0, None, Normal)];
      PutOnReadyList(t);
    }

    /** uxListRemove of a task's state item. */
    method TakeOffReadyList(t: TaskId)
      requires Linked() && t in tasks && tasks[t].list.Some? && tasks[t].list.value < levels
      modifies this`tasks, this`ready
      ensures Linked() && tasks == old(tasks)[t := old(tasks[t]).(list := None)]
    {
      var p := tasks[t].list.value;
      var i := IndexOf(ready.lists[p].items, t);
      LeaveMatches(tasks, ready, levels, t, p, i);
      ready := L.Leave(ready, p, i);
      tasks := tasks[t := tasks[t].(list := None)];
    }

    /** prvAddTaskToReadyList. */
    method PutOnReadyList(t: TaskId)
      requires Linked() && t in tasks && tasks[t].list.None? && tasks[t].priority < levels
      modifies this`tasks, this`ready
      ensures Linked() && tasks == old(tasks)[t := old(tasks[t]).(list := Some(old(tasks[t]).priority))]
    {
      AddMatches(tasks, ready, levels, t, tasks[t].priority);
      ready := L.Add(ready, t, tasks[t].priority);
      tasks := tasks[t := tasks[t].(list := Some(tasks[t].priority))];
    }

    /** A task takes priority `p` with event key `key` and base `base`, changing ready lists
        if it is on one. */
    method Reprioritise(t: TaskId, p: nat, key: nat, base: nat)
      requires Linked() && t in tasks && p < levels && tasks[t].priority < levels
      requires tasks[t].list.None? || tasks[t].list == Some(tasks[t].priority)
      modifies this`tasks, this`ready
      ensures Linked()
      ensures tasks == old(tasks)[t := old(tasks[t]).(priority := p, key := key, base := base,
        list := if old(tasks[t]).list.Some? then Some(p) else None)]
    {
      if tasks[t].list == Some(tasks[t].priority) {
        TakeOffReadyList(t);
        tasks := tasks[t := tasks[t].(priority := p, key := key, base := base)];
        PutOnReadyList(t);
      } else {
        SameListsMatch(tasks, ready, levels, t, tasks[t].(priority := p, key := key, base := base));
        tasks := tasks[t := tasks[t].(priority := p, key := key, base := base)];
      }
    }

    /** A task's record, taken by itself, is in order. */
    ghost predicate Fine(t: TaskId)
      reads this
    {
      t in tasks && TaskOk(tasks[t], levels, |holders|)
    }

    /** xTaskPriorityInherit: afterwards the holder is at least as urgent as the caller and
        on the ready list of its priority; inheritance is reported exactly when the holder's
        base priority is below the caller's. */
    method PriorityInherit(holder: TaskId) returns (occurred: bool)
      requires Linked() && Fine(holder) && Fine(current)
      modifies this`tasks, this`ready
      ensures Linked() && tasks == old(tasks)[holder := Inherit(old(tasks)[holder], old(tasks)[current])]
      ensures tasks[holder].priority >= tasks[current].priority
      ensures tasks[holder].list.Some? ==> tasks[holder].list == Some(tasks[holder].priority)
      ensures occurred <==> tasks[holder].base < tasks[current].priority
    {
      occurred := false;
      var c, mine := tasks[holder], tasks[current].priority;
      if c.priority < mine {
        Reprioritise(holder, mine, mine, c.base);
        occurred := true;
      } else if c.base < mine {
        occurred := true;
      }
      assert tasks == old(tasks)[holder := Inherit(old(tasks)[holder], old(tasks)[current])];
    }

    /** xTaskPriorityDisinherit: giving back the last mutex returns the giver to its base
        priority and to the ready list of that priority. */
    method PriorityDisinherit() returns (dropped: bool)
      requires Linked() && Fine(current) && tasks[current].held > 0 && tasks[current].phase.CanRun()
      modifies this`tasks, this`ready
      ensures Linked() && tasks == old(tasks)[current := Disinherit(old(tasks)[current])]
      ensures tasks[current].held == 0 ==> tasks[current].priority == tasks[current].base
      ensures tasks[current].list == Some(tasks[current].priority)
      ensures dropped <==> tasks[current].priority < old(tasks[current]).priority
    {
      dropped := false;
      var c := tasks[current];
      SameListsMatch(tasks, ready, levels, current, c.(held := c.held - 1));
      tasks := tasks[current := c.(held := c.held - 1)];
      if c.priority != c.base {
        if tasks[current].held == 0 {
          Reprioritise(current, c.base, c.base, c.base);
          dropped := true;
        }
      }
      assert tasks == old(tasks)[current := Disinherit(old(tasks)[current])];
    }

    /** vTaskPriorityDisinheritAfterTimeout: a holder of one mutex comes down to the most
        urgent task still waiting, but not below its base priority. */
    method PriorityDisinheritAfterTimeout(holder: TaskId, topWaiter: nat)
      requires Linked() && Fine(holder) && tasks[holder].held > 0 && topWaiter < levels
      modifies this`tasks, this`ready
      ensures Linked() && tasks == old(tasks)[holder := DisinheritAfterTimeout(old(tasks)[holder], topWaiter)]
      ensures tasks[holder].held == 1 ==>
        && tasks[holder].priority >= topWaiter && tasks[holder].priority >= tasks[holder].base
        && (tasks[holder].priority == topWaiter || tasks[holder].priority == tasks[holder].base)
    {
      var c := tasks[holder];
      var toUse := if c.base < topWaiter then topWaiter else c.base;
      if c.priority != toUse {
        if c.held == 1 {
          Reprioritise(holder, toUse, toUse, c.base);
        }
      }
      assert tasks == old(tasks)[holder := DisinheritAfterTimeout(old(tasks)[holder], topWaiter)];
    }

    /** The successful branch of xQueueSemaphoreTake. */
    method TakeMutex(m: MutexId)
      requires Valid() && Enabled(Snapshot(), Take(m))
      modifies this`holders, this`tasks
      ensures Valid() && Snapshot() == Apply(old(Snapshot()), Take(m))
      ensures old(Inv(Snapshot()) && Outranks(Snapshot(), m)) ==> Inv(Snapshot())
    {
      ghost var before := Snapshot();
      TakeKeeps(before, m);
      var c := tasks[current].(held := tasks[current].held + 1, phase := Normal);
      SameListsMatch(tasks, ready, levels, current, c);
      tasks := tasks[current := c];
      holders := holders[m := Some(current)];
      assert Snapshot() == AfterTake(before, m);
    }

    /** The blocking branch: inherit, enter the wait list, leave the ready list. */
    method ParkOnMutex(m: MutexId)
      requires Valid() && Enabled(Snapshot(), Park(m))
      modifies this`tasks, this`ready, this`yieldPending
      ensures Valid() && Snapshot() == Apply(old(Snapshot()), Park(m))
      ensures old(Inv(Snapshot()) && tasks[current].held == 0) ==> Inv(Snapshot())
    {
      ghost var before := Snapshot();
      ParkKeeps(before, m);
      InheritAndSuspend(m);
      yieldPending := true;
      assert Snapshot() == AfterPark(before, m);
    }

    method InheritAndSuspend(m: MutexId)
      requires Linked() && m < |holders| && holders[m].Some? && Fine(holders[m].value)
      requires Fine(current) && tasks[current].phase.CanRun()
      modifies this`tasks, this`ready
      ensures Linked() && tasks == AfterPark(old(Snapshot()), m).tasks
    {
      var occurred := PriorityInherit(holders[m].value);
      assert tasks[current] == old(tasks)[current];
      SuspendOn(m, occurred);
    }

    /** The running task leaves its ready list for the wait list of `m`. */
    method SuspendOn(m: MutexId, inherited: bool)
      requires Linked() && current in tasks && tasks[current].list == Some(tasks[current].priority)
      requires tasks[current].priority < levels
      modifies this`tasks, this`ready
      ensures Linked() && tasks == old(tasks)[current := Blocked(old(tasks[current]), Parked(m, inherited))]
    {
      SameListsMatch(tasks, ready, levels, current, tasks[current].(phase := Parked(m, inherited)));
      tasks := tasks[current := tasks[current].(phase := Parked(m, inherited))];
      TakeOffReadyList(current);
    }

    /** The mutex branch of xQueueGenericSend, with `head` the front of the wait list. */
    method GiveMutex(m: MutexId, head: Option<TaskId>)
      requires Valid() && Enabled(Snapshot(), Give(m, head))
      modifies this
      ensures Valid() && Snapshot() == Apply(old(Snapshot()), Give(m, head))
      ensures old(Inv(Snapshot()) && Confined(Snapshot(), Give(m, head))) ==> Inv(Snapshot())
    {
      ghost var before := Snapshot();
      GiveKeeps(before, m, head);
      DisinheritAndWake(m, head);
      assert Snapshot() == AfterGive(before, m, head);
    }

    method DisinheritAndWake(m: MutexId, head: Option<TaskId>)
      requires Linked() && m < |holders| && Fine(current) && tasks[current].held > 0 && tasks[current].phase.CanRun()
      requires head.Some? ==> Fine(head.value) && head.value != current && tasks[head.value].phase.Parked?
      requires !yieldPending
      modifies this`tasks, this`ready, this`holders, this`yieldPending
      ensures Linked() && Snapshot() == AfterGive(old(Snapshot()), m, head)
    {
      var dropped := PriorityDisinherit();
      holders := holders[m := None];
      if head.Some? {
        WakeWaiter(head.value, m);
        if tasks[head.value].priority > tasks[current].priority {
          yieldPending := true;
        }
      } else if dropped {
        yieldPending := true;
      }
    }

    /** xTaskRemoveFromEventList for a task parked on `m`. */
    method WakeWaiter(t: TaskId, m: MutexId)
      requires Linked() && t in tasks && tasks[t].phase.Parked? && tasks[t].list.None? && tasks[t].priority < levels
      modifies this`tasks, this`ready
      ensures Linked()
      ensures tasks == old(tasks)[t := Readied(old(tasks[t]), Retrying(m, old(tasks[t]).phase.inherited))]
    {
      var c := tasks[t].(phase := Retrying(m, tasks[t].phase.inherited));
      SameListsMatch(tasks, ready, levels, t, c);
      tasks := tasks[t := c];
      PutOnReadyList(t);
    }

    /** A waiter that ran out of block time undoes its inheritance. */
    method AbandonMutex(topWaiter: nat)
      requires Valid() && Enabled(Snapshot(), Cleanup(topWaiter))
      modifies this`tasks, this`ready
      ensures Valid() && Snapshot() == Apply(old(Snapshot()), Cleanup(topWaiter))
      ensures old(Inv(Snapshot()) && Confined(Snapshot(), Cleanup(topWaiter))) ==> Inv(Snapshot())
    {
      ghost var before := Snapshot();
      CleanupKeeps(before, topWaiter);
      UndoInheritance(topWaiter);
      assert Snapshot() == AfterCleanup(before, topWaiter);
    }

    method UndoInheritance(topWaiter: nat)
      requires Linked() && Fine(current) && topWaiter < levels
      requires tasks[current].phase.GivingUp? && tasks[current].phase.m < |holders|
      requires var h := holders[tasks[current].phase.m]; h.Some? ==> Fine(h.value) && tasks[h.value].held > 0
      modifies this`tasks, this`ready
      ensures Linked() && tasks == AfterCleanup(old(Snapshot()), topWaiter).tasks
    {
      var holder := holders[tasks[current].phase.m];
      if tasks[current].phase.inherited && holder.Some? {
        PriorityDisinheritAfterTimeout(holder.value, topWaiter);
      }
      SameListsMatch(tasks, ready, levels, current, tasks[current].(phase := Normal));
      tasks := tasks[current := tasks[current].(phase := Normal)];
    }

    /** vTaskPrioritySet. */
    method PrioritySet(t: TaskId, p: nat)
      requires Valid() && Enabled(Snapshot(), Step.PrioritySet(t, p))
      modifies this`tasks, this`ready, this`yieldPending
      ensures Valid() && Snapshot() == Apply(old(Snapshot()), Step.PrioritySet(t, p))
      ensures tasks[t].base == p && (tasks[t].held == 0 ==> tasks[t].priority == p)
      ensures tasks[t].phase.CanRun() ==> tasks[t].list == Some(tasks[t].priority)
      ensures old(RunnerTop(Snapshot())) ==> RunnerTop(Snapshot())
    {
      ghost var before := Snapshot();
      StepKeepsBooks(before, Step.PrioritySet(t, p));
      MutexRuns.PrioritySetMeans(before, t, p);
      if RunnerTop(before) {
        MutexRuns.PrioritySetKeepsTop(before, t, p);
      }
      assert TaskOk(tasks[t], levels, |holders|);
      Rebase(t, p);
      assert Snapshot() == AfterPrioritySet(before, t, p);
    }

    method Rebase(t: TaskId, p: nat)
      requires Linked() && current in tasks && Fine(t) && p < levels
      modifies this`tasks, this`ready, this`yieldPending
      ensures Linked() && Snapshot() == AfterPrioritySet(old(Snapshot()), t, p)
    {
      var c := tasks[t];
      var yieldRequired := false;
      if c.base != p {
        if p > c.base {
          if t != current {
            if p > tasks[current].priority {
              yieldRequired := true;
            }
          }
        } else if t == current {
          yieldRequired := true;
        }
        var used := if c.base == c.priority || p > c.priority then p else c.priority;
        Reprioritise(t, used, p, p);
        if yieldRequired {
          yieldPending := true;
        }
      } else {
        assert tasks == tasks[t := c];
      }
    }
  }
}
