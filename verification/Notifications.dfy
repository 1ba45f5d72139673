/** Task notifications (tasks.c): a task marks itself waiting, leaves the ready list, and
    is readied by a notification that may come from a task or, at any moment, from an
    interrupt.  Critical sections are steps; interrupts fall between any two of them. */
module Notifications {
  import opened Common

  type Task = nat

  /** ucNotifyState. */
  datatype Note = NotWaiting | Waiting | Received

  /** Where a task's state item is: on a ready list, or on a delayed or suspended list. */
  datatype Place = Runnable | Asleep

  /** Where its event item is. */
  datatype EventItem = Unlinked | OnPendingReady | OnEventList

  /** How far a task has come in a call that waits for a notification. */
  datatype Phase = Outside | Checking | Skipping | Marked | Parked | Resumed

  datatype Action = SetBits(bits: nat) | Increment | Overwrite(value: nat) | WriteIfFree(value: nat) | NoAction

  /** ulTaskGenericNotifyTake, or xTaskGenericNotifyWait with its two masks. */
  datatype Call = Take(clear: bool) | Await(onEntry: nat, onExit: nat)

  datatype Tcb = Tcb(phase: Phase, note: Note, value: nat, place: Place, event: EventItem)

  datatype Kernel = Kernel(tasks: map<Task, Tcb>, current: Task, suspended: nat, pending: seq<Task>)

  datatype Step =
    | Enter                            // vTaskSuspendAll in a waiting call
    | Check(call: Call)                // the critical section that decides to block
    | Park                             // prvAddCurrentTaskToDelayedList
    | Leave                            // xTaskResumeAll in a waiting call
    | Finish(call: Call)               // the critical section at the end of a call
    | Notify(t: Task, action: Action)  // from the running task
    | NotifyFromISR(t: Task, action: Action)
    | SuspendAll
    | ResumeAll
    | Sleep(onEventList: bool)         // the running task blocks for another reason
    | WakeFromISR(t: Task)             // an interrupt takes a task off an event list
    | TimeOut(t: Task)                 // the tick wakes a sleeping task
    | Switch(t: Task)

  function ActOn(value: nat, note: Note, action: Action): nat {
    match action
    case SetBits(bits) => BitOr(value, bits)
    case Increment => Wrapped(value + 1)
    case Overwrite(v) => v
    case WriteIfFree(v) => if note != Received then v else value
    case NoAction => value
  }

  /** Whether a waiting call has nothing to collect yet. */
  function MustBlock(r: Tcb, call: Call): bool {
    match call
    case Take(_) => r.value == 0
    case Await(_, _) => r.note != Received
  }

  /** What a call leaves behind: its caller no longer waits. */
  function Collected(r: Tcb, call: Call): Tcb {
    var value := match call
      case Take(clear) => if r.value == 0 then r.value else if clear then 0 else r.value - 1
      case Await(_, onExit) => if r.note == Received then BitClear(r.value, onExit) else r.value;
    r.(phase := Outside, note := NotWaiting, value := value)
  }

  /** The effect of marking oneself as waiting. */
  function MarkedWaiting(r: Tcb, call: Call): Tcb {
    var value := if call.Await? then BitClear(r.value, call.onEntry) else r.value;
    r.(phase := Marked, note := Waiting, value := value)
  }

  /** A notification posted to a task, apart from waking it. */
  function Posted(r: Tcb, action: Action): Tcb {
    r.(note := Received, value := ActOn(r.value, r.note, action))
  }

  function Readied(r: Tcb): Tcb { r.(place := Runnable, event := Unlinked) }

  // --------------------------------------------------------------------------- steps

  ghost predicate Enabled(s: Kernel, a: Step) {
    && s.current in s.tasks
    && var me := s.tasks[s.current];
    match a
    case Enter => me.phase.Outside? && me.place.Runnable? && s.suspended == 0
    case Check(_) => me.phase.Checking?
    case Park => me.phase.Marked?
    case Leave => me.phase.Skipping? || me.phase.Parked?
    case Finish(_) => (me.phase.Resumed? || me.phase.Outside?) && me.place.Runnable?
    case Notify(t, _) => me.phase.Outside? && me.place.Runnable? && t in s.tasks
    case NotifyFromISR(t, _) => t in s.tasks
    case SuspendAll => me.phase.Outside? && me.place.Runnable?
    case ResumeAll => me.phase.Outside? && s.suspended > 0
    case Sleep(_) => me.phase.Outside? && me.place.Runnable? && s.suspended == 0
    case WakeFromISR(t) => t in s.tasks && s.tasks[t].event.OnEventList?
    case TimeOut(t) => t in s.tasks && s.tasks[t].place.Asleep? && s.suspended == 0
    case Switch(t) => t in s.tasks && s.tasks[t].place.Runnable? && s.suspended == 0
  }

  function With(s: Kernel, t: Task, r: Tcb): Kernel { s.(tasks := s.tasks[t := r]) }

  /** The pending ready list is emptied: every task on it becomes runnable. */
  function Drained(tasks: map<Task, Tcb>, pending: seq<Task>): (r: map<Task, Tcb>)
    ensures r.Keys == tasks.Keys
    ensures forall t <- tasks :: r[t] == if t in pending then Readied(tasks[t]) else tasks[t]
  {
    map t | t in tasks :: if t in pending then Readied(tasks[t]) else tasks[t]
  }

  /** xTaskResumeAll. */
  function AfterResume(s: Kernel): Kernel {
    if s.suspended > 1 then s.(suspended := s.suspended - 1)
    else s.(suspended := 0, tasks := Drained(s.tasks, s.pending), pending := [])
  }

  /** xTaskGenericNotify. */
  function AfterNotify(s: Kernel, t: Task, action: Action): Kernel
    requires t in s.tasks
  {
    var r := s.tasks[t];
    With(s, t, if r.note == Waiting then Posted(r, action).(place := Runnable) else Posted(r, action))
  }

  /** xTaskGenericNotifyFromISR; vTaskGenericNotifyGiveFromISR is the same with Increment. */
  function AfterNotifyFromISR(s: Kernel, t: Task, action: Action): Kernel
    requires t in s.tasks
  {
    var r := s.tasks[t];
    if r.note != Waiting then With(s, t, Posted(r, action))
    else if s.suspended == 0 then With(s, t, Posted(r, action).(place := Runnable))
    else With(s, t, Posted(r, action).(event := OnPendingReady)).(pending := s.pending + [t])
  }

  /** xTaskRemoveFromEventList. */
  function AfterWake(s: Kernel, t: Task): Kernel
    requires t in s.tasks
  {
    if s.suspended == 0 then With(s, t, Readied(s.tasks[t]))
    else With(s, t, s.tasks[t].(event := OnPendingReady)).(pending := s.pending + [t])
  }

  ghost function Apply(s: Kernel, a: Step): Kernel
    requires Enabled(s, a)
  {
    var c := s.current;
    var me := s.tasks[c];
    match a
    case Enter => With(s, c, me.(phase := Checking)).(suspended := 1)
    case Check(call) =>
      With(s, c, if MustBlock(me, call) then MarkedWaiting(me, call) else me.(phase := Skipping))
    case Park => With(s, c, me.(phase := Parked, place := Asleep))
    case Leave => AfterResume(With(s, c, me.(phase := Resumed)))
    case Finish(call) => With(s, c, Collected(me, call))
    case Notify(t, action) => AfterNotify(s, t, action)
    case NotifyFromISR(t, action) => AfterNotifyFromISR(s, t, action)
    case SuspendAll => s.(suspended := s.suspended + 1)
    case ResumeAll => AfterResume(s)
    case Sleep(listed) => With(s, c, me.(place := Asleep, event := if listed then OnEventList else Unlinked))
    case WakeFromISR(t) => AfterWake(s, t)
    case TimeOut(t) => With(s, t, Readied(s.tasks[t]))
    case Switch(t) => s.(current := t)
  }

  // ----------------------------------------------------------------------- invariant

  /** The pending ready list holds each task at most once, exactly those whose event item
      is on it, and only while the scheduler is suspended. */
  ghost predicate PendingOk(s: Kernel) {
    && NoDup(s.pending)
    && (forall t <- s.pending :: t in s.tasks)
    && (forall t <- s.tasks :: s.tasks[t].event.OnPendingReady? <==> t in s.pending)
    && (s.suspended == 0 ==> s.pending == [])
  }

  /** Per task.  A task that is marked waiting has its event item on no list; one that has
      been notified while it waited is runnable or its event item is on the pending list. */
  ghost predicate TaskOk(r: Tcb) {
    && (r.note.Waiting? ==> r.event.Unlinked? && (r.phase.Marked? || r.phase.Parked? || r.phase.Resumed?))
    && (r.phase.Marked? || r.phase.Parked? ==> r.note.Waiting? || (r.note.Received? && r.event.OnPendingReady?))
    && (r.phase.Resumed? && r.place.Asleep? ==> r.note.Waiting? || (r.note.Received? && r.event.OnPendingReady?))
    && (r.event.OnEventList? ==> r.phase.Outside? && r.place.Asleep?)
    && (r.phase.Checking? || r.phase.Skipping? ==> r.event.Unlinked? && r.place.Runnable?)
  }

  /** Only the running task is inside the suspended part of a waiting call. */
  ghost predicate InSection(r: Tcb) { !r.phase.Outside? && !r.phase.Resumed? }

  ghost predicate SectionOk(s: Kernel) {
    && s.current in s.tasks
    && (forall t <- s.tasks :: InSection(s.tasks[t]) ==> t == s.current && s.suspended == 1)
  }

  ghost predicate Sound(s: Kernel) {
    && SectionOk(s) && PendingOk(s)
    && forall t <- s.tasks :: TaskOk(s.tasks[t])
  }

  /** Writing a task's record without touching the pending list. */
  lemma {:induction false} WithKeeps(s: Kernel, t: Task, r: Tcb)
    requires Sound(s) && t in s.tasks && TaskOk(r)
    requires r.event.OnPendingReady? <==> s.tasks[t].event.OnPendingReady?
    requires InSection(r) ==> t == s.current && s.suspended == 1
    ensures Sound(With(s, t, r))
  {
  }

  /** Putting an event item on the pending list: it was on no list, or on an event list it
      has just left, so it is never on the pending list twice. */
  lemma {:induction false} PendKeeps(s: Kernel, t: Task, r: Tcb)
    requires Sound(s) && t in s.tasks && TaskOk(r) && s.suspended > 0
    requires r.event.OnPendingReady? && !s.tasks[t].event.OnPendingReady?
    requires InSection(r) ==> InSection(s.tasks[t])
    ensures Sound(With(s, t, r).(pending := s.pending + [t]))
  {
    assert t !in s.pending;
  }

  lemma {:induction false} DrainKeeps(s: Kernel)
    requires PendingOk(s) && s.current in s.tasks && s.suspended == 1
    requires forall t <- s.tasks :: TaskOk(s.tasks[t])
    requires forall t <- s.tasks :: !InSection(s.tasks[t])
    ensures Sound(AfterResume(s))
  {
    var u := AfterResume(s);
    forall t | t in u.tasks ensures TaskOk(u.tasks[t]) && !u.tasks[t].event.OnPendingReady? && !InSection(u.tasks[t]) {
      assert TaskOk(s.tasks[t]);
    }
  }

  lemma {:induction false} LeaveKeeps(s: Kernel)
    requires Sound(s) && Enabled(s, Leave)
    ensures Sound(Apply(s, Leave))
  {
    var me := s.tasks[s.current];
    var u := With(s, s.current, me.(phase := Resumed));
    assert TaskOk(me) && InSection(me);
    forall t | t in u.tasks ensures TaskOk(u.tasks[t]) && !InSection(u.tasks[t]) {
      assert TaskOk(s.tasks[t]);
    }
    DrainKeeps(u);
  }

  /** The assert of xTaskResumeAll in a waiting call: the scheduler is still suspended, by
      this call alone. */
  lemma {:induction false} ResumeIsMatched(s: Kernel)
    requires Sound(s) && Enabled(s, Leave)
    ensures s.suspended == 1
  {
    assert InSection(s.tasks[s.current]);
  }

  lemma {:induction false} ResumeKeeps(s: Kernel)
    requires Sound(s) && Enabled(s, ResumeAll)
    ensures Sound(Apply(s, ResumeAll))
  {
    assert forall t <- s.tasks :: InSection(s.tasks[t]) ==> t == s.current;
    if s.suspended == 1 {
      DrainKeeps(s);
    }
  }

  lemma {:induction false} NotifyKeeps(s: Kernel, t: Task, action: Action)
    requires Sound(s) && t in s.tasks
    ensures s.tasks[s.current].phase.Outside? ==> Sound(AfterNotify(s, t, action))
    ensures Sound(AfterNotifyFromISR(s, t, action))
  {
    var r := s.tasks[t];
    assert TaskOk(r);
    var posted := Posted(r, action);
    if r.note == Waiting {
      if s.suspended == 0 {
        WithKeeps(s, t, posted.(place := Runnable));
      } else {
        PendKeeps(s, t, posted.(event := OnPendingReady));
        if s.tasks[s.current].phase.Outside? {
          WithKeeps(s, t, posted.(place := Runnable));
        }
      }
    } else {
      WithKeeps(s, t, posted);
    }
  }

  lemma {:induction false} StepKeepsSound(s: Kernel, a: Step)
    requires Sound(s) && Enabled(s, a)
    ensures Sound(Apply(s, a))
  {
    var c := s.current;
    var me := s.tasks[c];
    assert TaskOk(me);
    match a
    case Enter => WithKeeps(s.(suspended := 1), c, me.(phase := Checking));
    case Check(call) => WithKeeps(s, c, if MustBlock(me, call) then MarkedWaiting(me, call) else me.(phase := Skipping));
    case Park => WithKeeps(s, c, me.(phase := Parked, place := Asleep));
    case Leave => LeaveKeeps(s);
    case Finish(call) => WithKeeps(s, c, Collected(me, call));
    case Notify(t, action) => NotifyKeeps(s, t, action);
    case NotifyFromISR(t, action) => NotifyKeeps(s, t, action);
    case SuspendAll =>
    case ResumeAll => ResumeKeeps(s);
    case Sleep(listed) => WithKeeps(s, c, me.(place := Asleep, event := if listed then OnEventList else Unlinked));
    case WakeFromISR(t) =>
      assert TaskOk(s.tasks[t]);
      if s.suspended == 0 { WithKeeps(s, t, Readied(s.tasks[t])); }
      else { PendKeeps(s, t, s.tasks[t].(event := OnPendingReady)); }
    case TimeOut(t) =>
      assert TaskOk(s.tasks[t]);
      WithKeeps(s, t, Readied(s.tasks[t]));
    case Switch(t) =>
  }

  // ----------------------------------------------------------------------------- runs

  ghost predicate Leads(s: Kernel, run: seq<Step>, u: Kernel)
    decreases run
  {
    if run == [] then s == u else Enabled(s, run[0]) && Leads(Apply(s, run[0]), run[1..], u)
  }

  lemma {:induction false} RunKeepsSound(s: Kernel, run: seq<Step>, u: Kernel)
    requires Sound(s) && Leads(s, run, u)
    ensures Sound(u)
    decreases run
  {
    if run != [] {
      StepKeepsSound(s, run[0]);
      RunKeepsSound(Apply(s, run[0]), run[1..], u);
    }
  }

  /** A task that is waiting, or has been notified since it began to wait. */
  ghost predicate InWait(r: Tcb) { r.phase.Marked? || r.phase.Parked? || (r.phase.Resumed? && r.place.Asleep?) }

  /** In every reachable state, a waiting task that has been notified has its event item on
      the pending ready list; with the scheduler running there is no such task, because it
      is on a ready list already. */
  lemma {:induction false} NoLostNotification(s: Kernel, run: seq<Step>, u: Kernel, t: Task)
    requires Sound(s) && Leads(s, run, u) && t in u.tasks && InWait(u.tasks[t])
    ensures u.tasks[t].note.Received? ==> u.suspended > 0 && t in u.pending
    ensures u.suspended == 0 ==> u.tasks[t].note.Waiting?
  {
    RunKeepsSound(s, run, u);
    assert TaskOk(u.tasks[t]);
  }

  /** A notification that finds its task waiting makes it runnable or pends it, whoever
      sends it and whenever it comes, also between marking and parking. */
  lemma {:induction false} NotificationIsSeen(s: Kernel, t: Task, action: Action)
    requires Sound(s) && t in s.tasks && s.tasks[t].note.Waiting?
    ensures s.tasks[t].event.Unlinked?
    ensures var u := AfterNotifyFromISR(s, t, action);
      && u.tasks[t].note.Received?
      && if s.suspended == 0 then u.tasks[t].place.Runnable? else t in u.pending
    ensures AfterNotify(s, t, action).tasks[t].place.Runnable? && AfterNotify(s, t, action).tasks[t].note.Received?
  {
    assert TaskOk(s.tasks[t]);
  }

  /** The task has marked itself waiting and its call has not ended. */
  ghost predicate Waited(r: Tcb) { r.phase.Marked? || r.phase.Parked? || r.phase.Resumed? }

  /** Once posted, a notification stays posted until its task's own call ends. */
  lemma {:induction false} StaysPosted(s: Kernel, a: Step, t: Task)
    requires Sound(s) && Enabled(s, a) && t in s.tasks && s.tasks[t].note.Received?
    requires Waited(s.tasks[t]) && !(a.Finish? && s.current == t)
    ensures var u := Apply(s, a); t in u.tasks && u.tasks[t].note.Received? && Waited(u.tasks[t])
  {
    assert TaskOk(s.tasks[t]);
  }

  /** An interrupt that notifies the task between marking and parking: the task parks all the
      same, and its own resume makes it runnable again, with the notification to collect and
      nothing left pending. */
  lemma {:induction false} NotifiedBeforeParking(s: Kernel, action: Action)
    requires Sound(s) && s.current in s.tasks && s.tasks[s.current].phase.Marked? && s.tasks[s.current].note.Waiting?
    ensures var t, s1 := s.current, AfterNotifyFromISR(s, s.current, action);
      && Enabled(s1, Park) && Apply(s1, Park).tasks[t].place.Asleep?
      && Enabled(Apply(s1, Park), Leave)
      && var s3 := Apply(Apply(s1, Park), Leave);
      && s3.tasks[t].place.Runnable? && s3.tasks[t].event.Unlinked? && s3.tasks[t].note.Received?
      && s3.pending == [] && s3.suspended == 0
  {
    var t := s.current;
    assert TaskOk(s.tasks[t]) && InSection(s.tasks[t]);
    var s1 := AfterNotifyFromISR(s, t, action);
    assert t in s1.pending;
  }

  /** The run does not take task `t` to the end of its call. */
  ghost predicate StillInCall(s: Kernel, run: seq<Step>, t: Task)
    decreases run
  {
    run != [] ==>
      && Enabled(s, run[0]) && !(run[0].Finish? && s.current == t)
      && StillInCall(Apply(s, run[0]), run[1..], t)
  }

  /** From the moment a notification has reached a waiting task, whatever tasks and
      interrupts do, the task is runnable whenever the scheduler is not suspended. */
  lemma {:induction false} PostedMeansRunnable(s: Kernel, run: seq<Step>, u: Kernel, t: Task)
    requires Sound(s) && Leads(s, run, u) && StillInCall(s, run, t)
    requires t in s.tasks && s.tasks[t].note.Received? && Waited(s.tasks[t])
    ensures t in u.tasks && u.tasks[t].note.Received?
    ensures u.suspended == 0 ==> u.tasks[t].place.Runnable?
    decreases run
  {
    assert TaskOk(s.tasks[t]);
    if run != [] {
      StepKeepsSound(s, run[0]);
      StaysPosted(s, run[0], t);
      PostedMeansRunnable(Apply(s, run[0]), run[1..], u, t);
    }
  }

  // --------------------------------------------------------------------------- counting

  /** A run given by the states it passes through. */
  ghost predicate Path(states: seq<Kernel>, run: seq<Step>) {
    && |states| == |run| + 1
    && forall i :: 0 <= i < |run| ==> Enabled(states[i], run[i]) && states[i + 1] == Apply(states[i], run[i])
  }

  predicate Gives(a: Step, t: Task) { (a.Notify? || a.NotifyFromISR?) && a.t == t }

  predicate Calls(s: Kernel, a: Step, t: Task) { (a.Check? || a.Finish?) && s.current == t }

  /** Task `t` is used as a semaphore: it is given by increments, and takes one at a time
      (counting) or all there are (binary). */
  ghost predicate Counting(states: seq<Kernel>, run: seq<Step>, t: Task)
    requires |states| == |run| + 1
  {
    forall i :: 0 <= i < |run| ==>
      && (Gives(run[i], t) ==> run[i].action == Increment)
      && (Calls(states[i], run[i], t) ==> run[i].call.Take?)
  }

  /** What a call of `t` takes. */
  function Taking(s: Kernel, a: Step, t: Task): nat {
    if !(a.Finish? && a.call.Take? && s.current == t && t in s.tasks) then 0
    else if a.call.clear then s.tasks[t].value
    else if s.tasks[t].value == 0 then 0 else 1
  }

  /** How often `t` is given in the first `n` steps. */
  ghost function Given(run: seq<Step>, t: Task, n: nat): nat
    requires n <= |run|
  {
    if n == 0 then 0 else Given(run, t, n - 1) + (if Gives(run[n - 1], t) then 1 else 0)
  }

  /** How much its calls in the first `n` steps have taken. */
  ghost function Taken(states: seq<Kernel>, run: seq<Step>, t: Task, n: nat): nat
    requires n <= |run| < |states|
  {
    if n == 0 then 0 else Taken(states, run, t, n - 1) + Taking(states[n - 1], run[n - 1], t)
  }

  lemma {:induction false} StepCounts(s: Kernel, a: Step, t: Task)
    requires Enabled(s, a) && t in s.tasks
    requires Gives(a, t) ==> a.action == Increment
    requires Calls(s, a, t) ==> a.call.Take?
    ensures t in Apply(s, a).tasks
    ensures Apply(s, a).tasks[t].value ==
      if Gives(a, t) then Wrapped(s.tasks[t].value + 1) else s.tasks[t].value - Taking(s, a, t)
  {
  }

  /** What one step does to the count. */
  ghost predicate Counted(s: Kernel, a: Step, u: Kernel, t: Task) {
    && t in s.tasks && t in u.tasks && (Gives(a, t) ==> Taking(s, a, t) == 0)
    && u.tasks[t].value == if Gives(a, t) then Wrapped(s.tasks[t].value + 1) else s.tasks[t].value - Taking(s, a, t)
  }

  lemma {:induction false} PathIsCounted(states: seq<Kernel>, run: seq<Step>, t: Task, n: nat)
    requires Path(states, run) && Counting(states, run, t) && n <= |run| && t in states[0].tasks
    ensures t in states[n].tasks && forall i :: 0 <= i < n ==> Counted(states[i], run[i], states[i + 1], t)
  {
    if n > 0 {
      PathIsCounted(states, run, t, n - 1);
      StepCounts(states[n - 1], run[n - 1], t);
    }
  }

  /** What has been taken and what is left are what was there and what has been given. */
  ghost predicate Balances(left: int, taken: int, start: int, given: int) {
    Wrapped(left + taken) == Wrapped(start + given)
  }

  ghost predicate Balanced(states: seq<Kernel>, run: seq<Step>, t: Task, n: nat)
    requires n <= |run| < |states|
  {
    && t in states[0].tasks && t in states[n].tasks
    && Balances(states[n].tasks[t].value, Taken(states, run, t, n), states[0].tasks[t].value, Given(run, t, n))
  }

  lemma {:induction false} CountedIsBalanced(states: seq<Kernel>, run: seq<Step>, t: Task, n: nat)
    requires n <= |run| < |states| && t in states[0].tasks
    requires forall i :: 0 <= i < n ==> Counted(states[i], run[i], states[i + 1], t)
    ensures Balanced(states, run, t, n)
  {
    if n > 0 {
      CountedIsBalanced(states, run, t, n - 1);
      OneMoreBalances(states[n - 1], run[n - 1], states[n], t,
                      states[0].tasks[t].value, Taken(states, run, t, n - 1), Given(run, t, n - 1));
    }
  }

  /** One more step after a balanced run. */
  lemma {:induction false} OneMoreBalances(s: Kernel, a: Step, u: Kernel, t: Task, start: int, taken: int, given: int)
    requires Counted(s, a, u, t) && Balances(s.tasks[t].value, taken, start, given)
    ensures Balances(u.tasks[t].value, taken + Taking(s, a, t), start, given + (if Gives(a, t) then 1 else 0))
  {
    if Gives(a, t) {
      var v := s.tasks[t].value;
      WrappedSum(v + 1, taken);
      WrappedSum(v + taken, 1);
      WrappedSum(start + given, 1);
    }
  }

  /** No give is lost: over every run, what has been taken and what is left in the count add
      up to what was there and what has been given, modulo the 32-bit count. */
  lemma {:induction false} CountIsConserved(states: seq<Kernel>, run: seq<Step>, t: Task)
    requires Path(states, run) && Counting(states, run, t) && t in states[0].tasks
    ensures Balanced(states, run, t, |run|)
  {
    PathIsCounted(states, run, t, |run|);
    CountedIsBalanced(states, run, t, |run|);
  }
}
