/** prvSelectHighestPriorityTask of tasks.c with its loops. */
module SmpKernel {
  import opened Common
  import opened SmpSelection

  class SmpScheduler {
    var ready: seq<seq<Task>>
    var tasks: map<Task, Tcb>
    var current: seq<Task>
    var topReadyPriority: nat
    var yieldPending: seq<bool>

    ghost function View(): Smp
      reads this
    {
      Smp(ready, tasks, current, topReadyPriority, yieldPending)
    }

    constructor (ready: seq<seq<Task>>, tasks: map<Task, Tcb>, current: seq<Task>, top: nat)
      ensures View() == Smp(ready, tasks, current, top, seq(|current|, _ => false))
    {
      this.ready, this.tasks, this.current, this.topReadyPriority := ready, tasks, current, top;
      yieldPending := seq(|current|, _ => false);
    }

    /** The running task moves behind the other ready tasks of its priority. */
    method MoveCurrentToEnd(c: Core)
      requires RunOk(View()) && ListsOk(View()) && c < |current|
      modifies this`ready
      ensures View() == Rotated(old(View()), c)
    {
      var t := current[c];
      var p := tasks[t].priority;
      if t in ready[p] {
        ready := ready[p := Without(ready[p], t)];
        ready := ready[p := ready[p] + [t]];
      }
    }

    /** One candidate of the inner loop: schedule it if that is possible. */
    method TrySchedule(c: Core, t: Task) returns (scheduled: bool)
      requires RunOk(View()) && c < |current| && t in tasks
      modifies this`tasks, this`current
      ensures scheduled <==> Eligible(old(View()), t, c)
      ensures scheduled ==> View() == Dispatched(old(View()), c, t)
      ensures !scheduled ==> View() == old(View())
    {
      scheduled := false;
      if tasks[t].run == NOT_RUNNING {
        if c in tasks[t].affinity {
          ghost var prev := current[c];
          assert prev in current && prev != t by { CurrentRuns(View(), current[c]); }
          tasks := tasks[current[c] := tasks[current[c]].(run := NOT_RUNNING)];
          tasks := tasks[t := tasks[t].(run := c)];
          current := current[c := t];
          scheduled := true;
        }
      } else if t == current[c] {
        assert tasks[t].run == c || tasks[t].run == SCHEDULED_TO_YIELD;
        if c in tasks[t].affinity {
          tasks := tasks[t := tasks[t].(run := c)];
          scheduled := true;
          assert current == current[c := t];
        }
      }
    }

    /** The inner loop over one ready list. */
    method SearchList(c: Core, p: nat) returns (scheduled: bool, i: nat)
      requires RunOk(View()) && c < |current| && p < |ready| && forall t <- ready[p] :: t in tasks
      modifies this`tasks, this`current
      ensures scheduled ==>
        && i < |ready[p]| && Eligible(old(View()), ready[p][i], c)
        && (forall j :: 0 <= j < i ==> !Eligible(old(View()), ready[p][j], c))
        && View() == Dispatched(old(View()), c, ready[p][i])
      ensures !scheduled ==> View() == old(View()) && forall t <- ready[p] :: !Eligible(old(View()), t, c)
    {
      scheduled, i := false, 0;
      while i < |ready[p]|
        invariant i <= |ready[p]| && !scheduled && View() == old(View())
        invariant forall j :: 0 <= j < i ==> !Eligible(old(View()), ready[p][j], c)
      {
        assert ready[p][i] in ready[p];
        scheduled := TrySchedule(c, ready[p][i]);
        if scheduled {
          break;
        }
        i := i + 1;
      }
    }

    /** The outer loop: priority by priority from the recorded top, lowering the top past
        empty lists.  It always ends with a task scheduled, at the idle priority at the
        latest. */
    method SearchDown(c: Core, ghost idles: set<Task>) returns (ghost p: nat, ghost i: nat)
      requires Inv(View(), idles) && c < |current|
      modifies this`tasks, this`current, this`topReadyPriority
      ensures ListsOk(old(View())) && FirstAt(old(View()), c, p, i)
      ensures TopFound(old(View()), topReadyPriority)
      ensures View() == Dispatched(old(View()), c, old(ready)[p][i]).(top := topReadyPriority)
    {
      ghost var s := View();
      var priority: nat, scheduled, lower := topReadyPriority, false, true;
      p, i := 0, 0;
      while !scheduled
        invariant !scheduled ==> View() == s.(top := topReadyPriority) && Sought(s, c, priority, topReadyPriority, lower)
        invariant scheduled ==> FirstAt(s, c, p, i) && TopFound(s, topReadyPriority)
        invariant scheduled ==> View() == Dispatched(s, c, s.ready[p][i]).(top := topReadyPriority)
        decreases !scheduled, priority
      {
        assert ListOk(s, priority);
        ghost var top, was := topReadyPriority, lower;
        if ready[priority] != [] {
          lower := false;
          var k;
          scheduled, k := SearchList(c, priority);
          p, i := priority, k;
        } else if lower {
          SoughtFurther(s, idles, c, priority, top, was);
          topReadyPriority := topReadyPriority - 1;
        }
        if !scheduled {
          SoughtFurther(s, idles, c, priority, top, was);
        }
        if priority > 0 {
          priority := priority - 1;
        } else {
          break;
        }
      }
    }
  
    /** prvYieldCore. */
    method RequestYield(x: Core, here: Core)
      requires RunOk(View()) && x < |current|
      modifies this`tasks, this`yieldPending
      ensures View() == AfterYieldCore(old(View()), x, here)
    {
      if x == here {
        yieldPending := yieldPending[x := true];
      } else if tasks[current[x]].run != SCHEDULED_TO_YIELD {
        tasks := tasks[current[x] := tasks[current[x]].(run := SCHEDULED_TO_YIELD)];
      } else {
        assert tasks == tasks[current[x] := tasks[current[x]].(run := SCHEDULED_TO_YIELD)];
      }
    }

    /** The search for a core to preempt on behalf of the evicted task, from the highest
        core number down. */
    method FindCore(c: Core, evicted: Task) returns (best: int)
      requires RunOk(View()) && c < |current| && evicted in tasks
      ensures exists lowest :: BestFrom(View(), c, evicted, 0, best, lowest)
    {
      var lowest := EffectivePriority(tasks[evicted]);
      best := -1;
      var coreMap := tasks[evicted].affinity;
      if c in coreMap {
        coreMap := coreMap - tasks[current[c]].affinity;
      }
      var x := |current|;
      while x > 0
        invariant 0 <= x <= |current|
        invariant forall y :: 0 <= y < |current| ==> (y in coreMap <==> y in Elsewheres(View(), c, evicted))
        invariant BestFrom(View(), c, evicted, x, best, lowest)
      {
        x := x - 1;
        if x in coreMap {
          var priority := EffectivePriority(tasks[current[x]]);
          if priority < lowest && tasks[current[x]].run >= 0 && !yieldPending[x] {
            lowest, best := priority, x;
          }
        }
      }
    }

    /** The affinity part: a ready task just evicted may take another core. */
    method ResettleEvicted(c: Core, evicted: Task)
      requires RunOk(View()) && ListsOk(View()) && c < |current| && evicted in tasks && evicted != current[c]
      requires c in tasks[current[c]].affinity
      modifies this`tasks, this`yieldPending
      ensures Resettled(old(View()), c, evicted, View())
    {
      var p := tasks[evicted].priority;
      if evicted in ready[p] {
        var best := FindCore(c, evicted);
        if best >= 0 {
          RequestYield(best, c);
        }
      }
    }

    /** prvSelectHighestPriorityTask. */
    method SelectHighestPriorityTask(c: Core, ghost idles: set<Task>)
      requires Inv(View(), idles) && c < |current|
      modifies this
      ensures Selects(old(View()), c, View()) && Inv(View(), idles)
    {
      var evicted := current[c];
      RotatedOk(View(), idles, c);
      MoveCurrentToEnd(c);
      ghost var r := View();
      ghost var p, i := SearchDown(c, idles);
      ghost var t := r.ready[p][i];
      DispatchedOk(r, idles, c, t);
      LoweredOk(Dispatched(r, c, t), idles, topReadyPriority);
      if evicted != current[c] {
        ResettleEvicted(c, evicted);
      }
      assert SelectsAt(r, c, p, i, topReadyPriority, evicted, View());
      SelectsAtKeeps(r, idles, c, p, i, topReadyPriority, evicted, View());
    }

    /** vTaskSwitchContext: with the scheduler suspended the switch is put off, otherwise the
        pending yield is answered by a selection. */
    method SwitchContext(c: Core, suspended: bool, ghost idles: set<Task>)
      requires Inv(View(), idles) && c < |current|
      modifies this
      ensures Inv(View(), idles)
      ensures Steps(old(View()), idles, if suspended then Postpone(c) else SelectOn(c), View())
    {
      if suspended {
        PendingKept(View(), idles, yieldPending[c := true]);
        yieldPending := yieldPending[c := true];
      } else {
        PendingKept(View(), idles, yieldPending[c := false]);
        yieldPending := yieldPending[c := false];
        SelectHighestPriorityTask(c, idles);
      }
    }
  }
}
