/** What notifications carry: event bits, values written, and when a call blocks, over whole
    runs of tasks and interrupts. */
module NotificationValues {
  import opened Common
  import opened Notifications

  /** The value of `t` after the step. */
  ghost function Value(s: Kernel, t: Task): nat
    requires t in s.tasks
  {
    s.tasks[t].value
  }

  // ------------------------------------------------------------------ one notification

  /** What an action makes of the value `v` of a task in state `note`: set bits join those that
      were there, and a write replaces the value unless it may not overwrite one still to be
      collected. */
  ghost predicate Delivered(v: nat, note: Note, action: Action, w: nat) {
    match action
    case SetBits(bits) => forall i: nat :: Bit(w, i) <==> Bit(v, i) || Bit(bits, i)
    case Increment => w == Wrapped(v + 1)
    case Overwrite(x) => w == x
    case WriteIfFree(x) => if note.Received? then w == v else w == x
    case NoAction => w == v
  }

  lemma {:induction false} ActDelivers(v: nat, note: Note, action: Action)
    ensures Delivered(v, note, action, ActOn(v, note, action))
  {
    if action.SetBits? {
      forall i: nat ensures Bit(BitOr(v, action.bits), i) <==> Bit(v, i) || Bit(action.bits, i) {
        BitOrSets(v, action.bits, i);
      }
    }
  }

  /** What a notification leaves behind, from a task or from an interrupt: the task has
      something to collect, its value is as the action says, and nobody else is concerned. */
  lemma {:induction false} NotifyMeans(s: Kernel, t: Task, action: Action)
    requires t in s.tasks
    ensures var u, v := AfterNotify(s, t, action), AfterNotifyFromISR(s, t, action);
      && t in u.tasks && t in v.tasks && u.tasks[t].note.Received? && v.tasks[t].note.Received?
      && Value(u, t) == Value(v, t) && Delivered(Value(s, t), s.tasks[t].note, action, Value(u, t))
      && (forall x :: x in s.tasks && x != t ==> x in u.tasks && u.tasks[x] == s.tasks[x] && x in v.tasks && v.tasks[x] == s.tasks[x])
  {
    ActDelivers(Value(s, t), s.tasks[t].note, action);
  }

  // ------------------------------------------------------------------------ event bits

  /** The step sets bit `i` of task `t`. */
  ghost predicate Sets(s: Kernel, a: Step, t: Task, i: nat) {
    && Gives(a, t) && t in s.tasks
    && match a.action
       case SetBits(bits) => Bit(bits, i)
       case Overwrite(v) => Bit(v, i)
       case WriteIfFree(v) => Bit(v, i) && !s.tasks[t].note.Received?
       case _ => false
  }

  /** The step takes bit `i` of task `t` away: by a write without it, or by a mask of the task's
      own call, on entry if the call has to wait and on exit if it was notified. */
  ghost predicate Removes(s: Kernel, a: Step, t: Task, i: nat) {
    t in s.tasks &&
    if Gives(a, t) then match a.action
      case Overwrite(v) => !Bit(v, i)
      case WriteIfFree(v) => !Bit(v, i) && !s.tasks[t].note.Received?
      case _ => false
    else if a.Check? then s.current == t && a.call.Await? && !s.tasks[t].note.Received? && Bit(a.call.onEntry, i)
    else a.Finish? && s.current == t && a.call.Await? && s.tasks[t].note.Received? && Bit(a.call.onExit, i)
  }

  /** Task `t` is used as a set of event bits: nobody counts in it. */
  ghost predicate AsFlags(s: Kernel, a: Step, t: Task) {
    && (Gives(a, t) ==> !a.action.Increment?)
    && (Calls(s, a, t) ==> a.call.Await?)
  }

  /** A bit is set afterwards exactly if the step sets it, or it was set and the step does not
      remove it. */
  lemma {:induction false} BitIff(s: Kernel, a: Step, t: Task, i: nat)
    requires Enabled(s, a) && t in s.tasks && AsFlags(s, a, t)
    ensures t in Apply(s, a).tasks
    ensures Bit(Value(Apply(s, a), t), i) <==> Sets(s, a, t, i) || (Bit(Value(s, t), i) && !Removes(s, a, t, i))
  {
    if Gives(a, t) {
      NotifyMeans(s, t, a.action);
    } else if Calls(s, a, t) {
      if a.Check? { BitClearClears(Value(s, t), a.call.onEntry, i); } else { BitClearClears(Value(s, t), a.call.onExit, i); }
    } else {
      Untouched(s, a, t);
    }
  }

  /** Only notifications to a task and its own calls change its value. */
  lemma {:induction false} Untouched(s: Kernel, a: Step, t: Task)
    requires Enabled(s, a) && t in s.tasks && !Gives(a, t) && !Calls(s, a, t)
    ensures t in Apply(s, a).tasks && Value(Apply(s, a), t) == Value(s, t)
  {
  }

  /** Whether bit `i` should be set after `n` steps: the last step that set or removed it set
      it, or there was none and it was set at the start. */
  ghost predicate Outstanding(states: seq<Kernel>, run: seq<Step>, t: Task, i: nat, n: nat)
    requires n <= |run| < |states|
  {
    if n == 0 then t in states[0].tasks && Bit(Value(states[0], t), i)
    else (
      || Sets(states[n - 1], run[n - 1], t, i)
      || (Outstanding(states, run, t, i, n - 1) && !Removes(states[n - 1], run[n - 1], t, i)))
  }

  ghost predicate FlagRun(states: seq<Kernel>, run: seq<Step>, t: Task) {
    && Path(states, run) && t in states[0].tasks
    && forall j :: 0 <= j < |run| ==> AsFlags(states[j], run[j], t)
  }

  /** No event bit is lost and none appears from nowhere: over every run of tasks and
      interrupts a bit is in the value, which the next call to end returns, exactly if it has
      been set and neither a mask nor a write has removed it since. */
  lemma {:induction false} BitsArrive(states: seq<Kernel>, run: seq<Step>, t: Task, i: nat, n: nat)
    requires FlagRun(states, run, t) && n <= |run|
    ensures t in states[n].tasks
    ensures Bit(Value(states[n], t), i) <==> Outstanding(states, run, t, i, n)
  {
    if n > 0 {
      BitsArrive(states, run, t, i, n - 1);
      BitIff(states[n - 1], run[n - 1], t, i);
    }
  }

  /** In particular a bit set by step `j` and not removed since is in the value. */
  lemma {:induction false} SetBitStays(states: seq<Kernel>, run: seq<Step>, t: Task, i: nat, j: nat, n: nat)
    requires FlagRun(states, run, t) && j < n <= |run| && Sets(states[j], run[j], t, i)
    requires forall k :: j < k < n ==> !Removes(states[k], run[k], t, i)
    ensures t in states[n].tasks && Bit(Value(states[n], t), i)
  {
    BitsArrive(states, run, t, i, n);
    StillOutstanding(states, run, t, i, j, n);
  }

  lemma {:induction false} StillOutstanding(states: seq<Kernel>, run: seq<Step>, t: Task, i: nat, j: nat, n: nat)
    requires j < n <= |run| < |states| && Sets(states[j], run[j], t, i)
    requires forall k :: j < k < n ==> !Removes(states[k], run[k], t, i)
    ensures Outstanding(states, run, t, i, n)
  {
    if j + 1 < n {
      StillOutstanding(states, run, t, i, j, n - 1);
    }
  }

  // ------------------------------------------------------------------------- a mailbox

  /** Task `t` is used as a mailbox: written only where that overwrites nothing. */
  ghost predicate AsMailbox(s: Kernel, a: Step, t: Task) {
    && (Gives(a, t) ==> a.action.WriteIfFree? || a.action.NoAction?)
    && (Calls(s, a, t) ==> a.Check? && a.call.Await?)
  }

  /** A value that was written and not yet collected is still there, and every further write is
      refused, through every run until the task's call ends. */
  lemma {:induction false} MailStays(states: seq<Kernel>, run: seq<Step>, t: Task, v: nat, n: nat)
    requires Path(states, run) && n <= |run| && t in states[0].tasks
    requires states[0].tasks[t].note.Received? && Value(states[0], t) == v
    requires forall j :: 0 <= j < n ==> AsMailbox(states[j], run[j], t)
    ensures t in states[n].tasks && states[n].tasks[t].note.Received? && Value(states[n], t) == v
  {
    if n > 0 {
      MailStays(states, run, t, v, n - 1);
      MailStep(states[n - 1], run[n - 1], t);
    }
  }

  lemma {:induction false} MailStep(s: Kernel, a: Step, t: Task)
    requires Enabled(s, a) && t in s.tasks && s.tasks[t].note.Received? && AsMailbox(s, a, t)
    ensures t in Apply(s, a).tasks
    ensures Apply(s, a).tasks[t].note.Received? && Value(Apply(s, a), t) == Value(s, t)
  {
    if Gives(a, t) {
      NotifyMeans(s, t, a.action);
    } else if !Calls(s, a, t) {
      Untouched(s, a, t);
    }
  }

  // ------------------------------------------------------------------------- blocking

  /** There is nothing yet for the call to collect. */
  predicate NothingToCollect(r: Tcb, call: Call) {
    if call.Take? then r.value == 0 else !r.note.Received?
  }

  /** A waiting call that nothing disturbs blocks exactly if there is nothing to collect: it
      then ends up asleep and marked waiting with the scheduler running, and otherwise comes
      back runnable with its value as it was. */
  lemma {:induction false} BlocksIff(s: Kernel, call: Call)
    requires Sound(s) && Enabled(s, Enter)
    ensures var c, s2 := s.current, Apply(Apply(s, Enter), Check(call));
      && c in s2.tasks
      && (Enabled(s2, Park) <==> NothingToCollect(s.tasks[c], call))
      && (Enabled(s2, Leave) <==> !NothingToCollect(s.tasks[c], call))
      && if NothingToCollect(s.tasks[c], call) then
           var end := Apply(Apply(s2, Park), Leave);
           && c in end.tasks && end.suspended == 0 && end.current == c
           && end.tasks[c].place.Asleep? && end.tasks[c].note.Waiting?
         else
           var end := Apply(s2, Leave);
           && c in end.tasks && end.suspended == 0 && end.current == c
           && Enabled(end, Finish(call)) && Value(end, c) == Value(s, c)
  {
    var c, s1 := s.current, Apply(s, Enter);
    StepKeepsSound(s, Enter);
    StepKeepsSound(s1, Check(call));
    assert TaskOk(s.tasks[c]) && s.pending == [];
  }

  /** A waiting task whose time is up and that is not notified runs on and returns without
      anything. */
  lemma {:induction false} TimedOutCallReturns(s: Kernel, t: Task, call: Call)
    requires Sound(s) && s.suspended == 0 && t in s.tasks && s.tasks[t].note.Waiting? && s.tasks[t].place.Asleep?
    ensures Enabled(s, TimeOut(t)) && Enabled(Apply(s, TimeOut(t)), Switch(t))
    ensures var s2 := Apply(Apply(s, TimeOut(t)), Switch(t));
      && Enabled(s2, Finish(call))
      && var u := Apply(s2, Finish(call));
      && u.current == t && t in u.tasks && u.tasks[t].note.NotWaiting? && u.tasks[t].phase.Outside?
      && (call.Await? || Value(s, t) == 0 ==> Value(u, t) == Value(s, t))
  {
    assert TaskOk(s.tasks[t]);
    assert InSection(s.tasks[t]) ==> s.suspended == 1;
  }

  /** What the end of a call leaves: a call that takes all leaves nothing, one that takes one
      leaves one fewer, and one that was notified leaves what its exit mask spares; the caller
      no longer waits. */
  lemma {:induction false} FinishMeans(s: Kernel, call: Call, i: nat)
    requires Enabled(s, Finish(call))
    ensures var u, v := Apply(s, Finish(call)), Value(s, s.current);
      && s.current in u.tasks && u.tasks[s.current].note.NotWaiting? && u.tasks[s.current].phase.Outside?
      && (call.Take? ==> Value(u, s.current) == if call.clear || v == 0 then 0 else v - 1)
      && (call.Await? && s.tasks[s.current].note.Received? ==>
           (Bit(Value(u, s.current), i) <==> Bit(v, i) && !Bit(call.onExit, i)))
      && (call.Await? && !s.tasks[s.current].note.Received? ==> Value(u, s.current) == v)
  {
    if call.Await? {
      BitClearClears(s.tasks[s.current].value, call.onExit, i);
    }
  }

  // ------------------------------------------------------------- who runs, who is pended

  /** The step is the resume that ends a suspension of the scheduler. */
  predicate Ends(s: Kernel, a: Step) { (a.Leave? || a.ResumeAll?) && s.suspended <= 1 }

  /** The step puts `t` on a ready list. */
  predicate Readies(s: Kernel, a: Step, t: Task) {
    t in s.tasks &&
    match a
    case Notify(u, _) => u == t && s.tasks[t].note.Waiting?
    case NotifyFromISR(u, _) => u == t && s.tasks[t].note.Waiting? && s.suspended == 0
    case WakeFromISR(u) => u == t && s.suspended == 0
    case TimeOut(u) => u == t
    case _ => Ends(s, a) && t in s.pending
  }

  /** The step puts `t` on the pending ready list instead. */
  predicate Pends(s: Kernel, a: Step, t: Task) {
    && t in s.tasks && s.suspended > 0
    && ((a == WakeFromISR(t)) || (a.NotifyFromISR? && a.t == t && s.tasks[t].note.Waiting?))
  }

  /** A task is runnable until it blocks, and again when a notification, an event, its timeout or
      the end of a suspension readies it. */
  lemma {:induction false} RunnableIff(s: Kernel, a: Step, t: Task)
    requires Sound(s) && Enabled(s, a) && t in s.tasks
    ensures t in Apply(s, a).tasks
    ensures Apply(s, a).tasks[t].place.Runnable? <==>
      Readies(s, a, t) || (s.tasks[t].place.Runnable? && !((a.Park? || a.Sleep?) && t == s.current))
  {
  }

  /** It is on the pending ready list from the interrupt that readies it during a suspension to
      the end of that suspension. */
  lemma {:induction false} PendingIff(s: Kernel, a: Step, t: Task)
    requires Sound(s) && Enabled(s, a) && t in s.tasks
    ensures t in Apply(s, a).pending <==> Pends(s, a, t) || (t in s.pending && !Ends(s, a))
  {
  }

  /** It is on an event list from when it blocks on one to when an event or its timeout takes it
      off. */
  lemma {:induction false} EventListIff(s: Kernel, a: Step, t: Task)
    requires Sound(s) && Enabled(s, a) && t in s.tasks
    ensures t in Apply(s, a).tasks
    ensures Apply(s, a).tasks[t].event.OnEventList? <==>
      || (a == Sleep(true) && t == s.current)
      || (s.tasks[t].event.OnEventList? && a != WakeFromISR(t) && a != TimeOut(t))
  {
    assert TaskOk(s.tasks[t]);
    if t in s.pending {
      assert s.tasks[t].event.OnPendingReady?;
    }
  }

  /** How much deeper a step leaves the scheduler suspended. */
  function Deeper(a: Step): int {
    match a
    case Enter => 1
    case SuspendAll => 1
    case Leave => -1
    case ResumeAll => -1
    case _ => 0
  }

  lemma {:induction false} StepNests(s: Kernel, a: Step)
    requires Sound(s) && Enabled(s, a)
    ensures Apply(s, a).suspended == s.suspended + Deeper(a)
    ensures Apply(s, a).current == if a.Switch? then a.t else s.current
  {
    if a.Leave? {
      ResumeIsMatched(s);
    }
  }

  function Depth(run: seq<Step>): int { if run == [] then 0 else Deeper(run[0]) + Depth(run[1..]) }

  /** Suspensions nest, over every run: the scheduler runs again when as many resumes as suspends
      have been called, and then nothing is pended. */
  lemma {:induction false} SuspensionsNest(s: Kernel, run: seq<Step>, u: Kernel)
    requires Sound(s) && Leads(s, run, u)
    ensures u.suspended == s.suspended + Depth(run) && (u.suspended == 0 ==> u.pending == [])
    decreases run
  {
    if run != [] {
      StepNests(s, run[0]);
      StepKeepsSound(s, run[0]);
      SuspensionsNest(Apply(s, run[0]), run[1..], u);
    }
  }
}
