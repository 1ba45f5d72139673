/** The notification functions of tasks.c as they update the task control blocks, the
    pending ready list and the suspension count in place. */
module NotificationKernel {
  import opened Common
  import opened Notifications
  import opened NotificationValues

  lemma {:induction false} DrainOne(tasks: map<Task, Tcb>, pending: seq<Task>, k: nat)
    requires k < |pending| && NoDup(pending) && pending[k] in tasks
    ensures var was, t := Drained(tasks, pending[..k]), pending[k];
      Drained(tasks, pending[..k + 1]) == was[t := Readied(was[t])]
  {
    assert pending[..k + 1] == pending[..k] + [pending[k]];
  }

  class NotifyKernel {
    var tasks: map<Task, Tcb>
    var current: Task
    var suspended: nat
    var pending: seq<Task>

    ghost function View(): Kernel
      reads this
    {
      Kernel(tasks, current, suspended, pending)
    }

    constructor (tasks: map<Task, Tcb>, current: Task)
      ensures View() == Kernel(tasks, current, 0, [])
    {
      this.tasks, this.current, this.suspended, this.pending := tasks, current, 0, [];
    }

    /** The switch over eAction: the new value, and whether the value could be written. */
    method Act(t: Task, action: Action, original: Note) returns (ok: bool)
      requires t in tasks
      modifies this`tasks
      ensures tasks == old(tasks)[t := old(tasks[t]).(value := ActOn(old(tasks[t].value), original, action))]
      ensures Delivered(old(tasks[t].value), original, action, tasks[t].value)
      ensures !ok <==> action.WriteIfFree? && original == Received
    {
      ActDelivers(tasks[t].value, original, action);
      var value := tasks[t].value;
      ok := true;
      match action {
        case SetBits(bits) => value := BitOr(value, bits);
        case Increment => value := Wrapped(value + 1);
        case Overwrite(v) => value := v;
        case WriteIfFree(v) =>
          if original != Received {
            value := v;
          } else {
            ok := false;
          }
        case NoAction =>
      }
      tasks := tasks[t := tasks[t].(value := value)];
    }

    /** The notification itself, before anybody is woken. */
    method Post(t: Task, action: Action) returns (ok: bool, original: Note)
      requires t in tasks
      modifies this`tasks
      ensures tasks == old(tasks)[t := Posted(old(tasks[t]), action)] && original == old(tasks[t].note)
      ensures Delivered(old(tasks[t].value), original, action, tasks[t].value)
      ensures !ok <==> action.WriteIfFree? && original == Received
    {
      original := tasks[t].note;
      tasks := tasks[t := tasks[t].(note := Received)];
      ok := Act(t, action, original);
    }

    /** xTaskGenericNotify: a task that was waiting is runnable afterwards, whatever the
        scheduler's state. */
    method NotifyTask(t: Task, action: Action) returns (ok: bool)
      requires Sound(View()) && Enabled(View(), Notify(t, action))
      modifies this`tasks
      ensures View() == AfterNotify(old(View()), t, action) && Sound(View())
      ensures Delivered(old(tasks[t].value), old(tasks[t].note), action, tasks[t].value)
      ensures old(tasks[t].note) == Waiting ==> tasks[t].place == Runnable
      ensures !ok <==> action.WriteIfFree? && old(tasks[t].note) == Received
    {
      NotifyKeeps(View(), t, action);
      assert TaskOk(tasks[t]);
      var original;
      ok, original := Post(t, action);
      if original == Waiting {
        tasks := tasks[t := tasks[t].(place := Runnable)];
        assert tasks[t].event == Unlinked;
      }
      assert tasks == AfterNotify(old(View()), t, action).tasks;
    }

    /** xTaskGenericNotifyFromISR: a task that was waiting is runnable afterwards or, with the
        scheduler suspended, on the pending ready list, where it was not before. */
    method NotifyTaskFromISR(t: Task, action: Action) returns (ok: bool)
      requires Sound(View()) && t in tasks
      modifies this`tasks, this`pending
      ensures View() == AfterNotifyFromISR(old(View()), t, action) && Sound(View())
      ensures Delivered(old(tasks[t].value), old(tasks[t].note), action, tasks[t].value)
      ensures old(tasks[t].note) == Waiting ==>
        if suspended == 0 then tasks[t].place == Runnable else t in pending && t !in old(pending)
      ensures !ok <==> action.WriteIfFree? && old(tasks[t].note) == Received
    {
      NotifyKeeps(View(), t, action);
      assert TaskOk(tasks[t]);
      var original;
      ok, original := Post(t, action);
      if original == Waiting {
        assert tasks[t].event == Unlinked;
        if suspended == 0 {
          tasks := tasks[t := tasks[t].(place := Runnable)];
        } else {
          tasks := tasks[t := tasks[t].(event := OnPendingReady)];
          pending := pending + [t];
        }
      }
      assert tasks == AfterNotifyFromISR(old(View()), t, action).tasks;
    }

    /** The critical section in which a caller decides to block: either there is something to
        collect, or the caller is marked and any notification from now on will pend it. */
    method CheckAndMark(call: Call) returns (shouldBlock: bool)
      requires Sound(View()) && Enabled(View(), Check(call))
      modifies this`tasks
      ensures View() == Apply(old(View()), Check(call)) && Sound(View())
      ensures shouldBlock ==> tasks[current].note == Waiting && tasks[current].event == Unlinked && suspended > 0
      ensures !shouldBlock ==> if call.Take? then tasks[current].value != 0 else tasks[current].note == Received
    {
      StepKeepsSound(View(), Check(call));
      assert TaskOk(tasks[current]) && InSection(tasks[current]);
      var me := tasks[current];
      shouldBlock := match call case Take(_) => me.value == 0 case Await(_, _) => me.note != Received;
      if shouldBlock {
        if call.Await? {
          me := me.(value := BitClear(me.value, call.onEntry));
        }
        me := me.(note := Waiting, phase := Marked);
      } else {
        me := me.(phase := Skipping);
      }
      tasks := tasks[current := me];
    }

    /** prvAddCurrentTaskToDelayedList. */
    method ParkCurrent()
      requires Sound(View()) && Enabled(View(), Park)
      modifies this`tasks
      ensures View() == Apply(old(View()), Park) && Sound(View())
    {
      StepKeepsSound(View(), Park);
      tasks := tasks[current := tasks[current].(phase := Parked, place := Asleep)];
    }

    /** xTaskResumeAll at the end of the suspended part of a waiting call: whoever was notified
        meanwhile, the caller included, is runnable and nothing is left pending. */
    method LeaveWait()
      requires Sound(View()) && Enabled(View(), Leave)
      modifies this`tasks, this`suspended, this`pending
      ensures View() == Apply(old(View()), Leave) && Sound(View()) && pending == []
      ensures forall t <- old(pending) :: t in tasks && tasks[t].place == Runnable
      ensures tasks[current].note == Received ==> tasks[current].place == Runnable
    {
      StepKeepsSound(View(), Leave);
      ResumeIsMatched(View());
      assert TaskOk(tasks[current]);
      tasks := tasks[current := tasks[current].(phase := Resumed)];
      ResumeScheduler();
      assert Sound(View());
      assert TaskOk(tasks[current]);
    }

    /** xTaskResumeAll. */
    method ResumeScheduler()
      requires PendingOk(View()) && suspended > 0
      modifies this`tasks, this`suspended, this`pending
      ensures View() == AfterResume(old(View()))
    {
      suspended := suspended - 1;
      if suspended == 0 {
        DrainPending();
      }
    }

    /** The loop over the pending ready list. */
    method DrainPending()
      requires NoDup(pending) && forall t <- pending :: t in tasks
      modifies this`tasks, this`pending
      ensures tasks == Drained(old(tasks), old(pending)) && pending == []
    {
      ghost var k := 0;
      while pending != []
        invariant 0 <= k <= |old(pending)| && pending == old(pending)[k..]
        invariant tasks == Drained(old(tasks), old(pending)[..k])
        decreases |pending|
      {
        var t := pending[0];
        DrainOne(old(tasks), old(pending), k);
        pending := pending[1..];
        tasks := tasks[t := tasks[t].(event := Unlinked, place := Runnable)];
        k := k + 1;
      }
      assert old(pending)[..k] == old(pending);
    }

    /** The critical section at the end of a waiting call: the caller no longer waits, so a
        later notification stays for its next call, and a call that was not notified says so. */
    method CollectNotification(call: Call) returns (value: nat, received: bool)
      requires Sound(View()) && Enabled(View(), Finish(call))
      modifies this`tasks
      ensures View() == Apply(old(View()), Finish(call)) && Sound(View())
      ensures tasks[current].note == NotWaiting && tasks[current].value <= value
      ensures value == old(tasks[current].value) && received == old(tasks[current].note.Received?)
      ensures call.Await? && !received ==> tasks[current].value == value
    {
      StepKeepsSound(View(), Finish(call));
      var me := tasks[current];
      value, received := me.value, me.note == Received;
      match call {
        case Take(clear) =>
          if value != 0 {
            me := me.(value := if clear then 0 else value - 1);
          }
        case Await(_, onExit) =>
          if received {
            me := me.(value := BitClear(me.value, onExit));
          }
      }
      tasks := tasks[current := me.(note := NotWaiting, phase := Outside)];
    }
  }
}
