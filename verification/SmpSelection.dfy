/** The multi-core task selector of tasks.c, with several priorities running at once and
    core affinity. */
module SmpSelection {
  import opened Common

  type Task = nat
  type Core = nat

  const NOT_RUNNING: int := -1
  const SCHEDULED_TO_YIELD: int := -2

  datatype Tcb = Tcb(priority: nat, affinity: set<Core>, run: int, idle: bool)

  datatype Smp = Smp(
    ready: seq<seq<Task>>, tasks: map<Task, Tcb>,
    current: seq<Task>, top: nat, yieldPending: seq<bool>)

  // ----------------------------------------------------------------------- invariant

  /** No task is current on two cores, and run states agree with the current tasks. */
  ghost predicate RunOk(s: Smp) {
    && |s.yieldPending| == |s.current|
    && (forall c :: 0 <= c < |s.current| ==>
         && s.current[c] in s.tasks
         && (s.tasks[s.current[c]].run == c || s.tasks[s.current[c]].run == SCHEDULED_TO_YIELD))
    && NoDup(s.current)
    && (forall t <- s.tasks :: s.tasks[t].run != NOT_RUNNING ==> t in s.current)
  }

  /** Each ready list holds tasks of its own priority, each once, and lists above `top`
      are empty. */
  ghost predicate ListsOk(s: Smp) {
    && s.top < |s.ready|
    && (forall p :: s.top < p < |s.ready| ==> s.ready[p] == [])
    && (forall p :: 0 <= p < |s.ready| ==> ListOk(s, p))
    && (forall t <- s.tasks :: s.tasks[t].priority < |s.ready|)
  }

  ghost predicate ListOk(s: Smp, p: nat)
    requires p < |s.ready|
  {
    && NoDup(s.ready[p])
    && forall t <- s.ready[p] :: t in s.tasks && s.tasks[t].priority == p
  }

  /** One unrestricted idle task per core is ready at priority zero. */
  ghost predicate IdleOk(s: Smp, idles: set<Task>) {
    && |idles| >= |s.current| && |s.ready| > 0
    && forall t <- idles :: t in s.ready[0] && t in s.tasks && Unrestricted(s.tasks[t].affinity, |s.current|)
  }

  ghost predicate Unrestricted(affinity: set<Core>, cores: nat) {
    forall c :: 0 <= c < cores ==> c in affinity
  }

  ghost predicate Inv(s: Smp, idles: set<Task>) {
    RunOk(s) && ListsOk(s) && IdleOk(s, idles)
  }

  // ---------------------------------------------------------------------- selection

  /** Allowed on core `c` and not running anywhere else. */
  predicate Eligible(s: Smp, t: Task, c: Core)
    requires c < |s.current|
  {
    t in s.tasks && c in s.tasks[t].affinity && (s.tasks[t].run == NOT_RUNNING || t == s.current[c])
  }

  /** The task running on core `c` goes to the end of its ready list, if it is on it. */
  function Rotated(s: Smp, c: Core): Smp
    requires c < |s.current| && s.current[c] in s.tasks && s.tasks[s.current[c]].priority < |s.ready|
  {
    var t := s.current[c];
    var p := s.tasks[t].priority;
    if t in s.ready[p] then s.(ready := s.ready[p := Without(s.ready[p], t) + [t]]) else s
  }

  /** Position `i` of ready list `p` is the first eligible one, taking the lists from the
      highest priority down and each from its head. */
  ghost predicate FirstAt(s: Smp, c: Core, p: nat, i: nat)
    requires ListsOk(s) && c < |s.current|
  {
    && p < |s.ready| && i < |s.ready[p]| && Eligible(s, s.ready[p][i], c)
    && (forall j :: 0 <= j < i ==> !Eligible(s, s.ready[p][j], c))
    && NoneAbove(s, c, p)
  }

  ghost predicate NoneAbove(s: Smp, c: Core, p: nat)
    requires ListsOk(s) && c < |s.current|
  {
    forall q :: p < q < |s.ready| ==> forall t <- s.ready[q] :: !Eligible(s, t, c)
  }

  /** Task `t` is given core `c`. */
  function Dispatched(s: Smp, c: Core, t: Task): Smp
    requires c < |s.current| && s.current[c] in s.tasks && t in s.tasks
  {
    var prev := s.current[c];
    var tasks := if t == prev then s.tasks else s.tasks[prev := s.tasks[prev].(run := NOT_RUNNING)];
    s.(tasks := tasks[t := tasks[t].(run := c)], current := s.current[c := t])
  }

  /** By the pigeonhole principle some idle task is always eligible: there is one for every
      core, and the other cores can hold at most one each. */
  lemma {:induction false} SomeIdleIsEligible(s: Smp, idles: set<Task>, c: Core) returns (t: Task)
    requires Inv(s, idles) && c < |s.current|
    ensures t in s.ready[0] && t in s.tasks && Eligible(s, t, c)
  {
    var others := s.current[..c] + s.current[c + 1..];
    if forall u <- idles :: u in others {
      Pigeonhole(idles, others);
      assert false;
    }
    t :| t in idles && t !in others;
    if t in s.current && t != s.current[c] {
      Elsewhere(s.current, c, t);
      assert false;
    }
  }

  lemma {:induction false} Elsewhere(current: seq<Task>, c: Core, t: Task)
    requires c < |current| && t in current && t != current[c]
    ensures t in current[..c] + current[c + 1..]
  {
    var d :| 0 <= d < |current| && current[d] == t;
    var others := current[..c] + current[c + 1..];
    assert others[if d < c then d else d - 1] == t;
  }

  /** A current task is not in the not-running state. */
  lemma {:induction false} CurrentRuns(s: Smp, t: Task)
    requires RunOk(s) && t in s.current
    ensures t in s.tasks && s.tasks[t].run != NOT_RUNNING
  {
    var d :| 0 <= d < |s.current| && s.current[d] == t;
  }

  lemma {:induction false} Pigeonhole(holes: set<Task>, s: seq<Task>)
    requires forall t <- holes :: t in s
    ensures |holes| <= |s|
  {
    if s == [] {
      assert holes == {};
    } else {
      Pigeonhole(holes - {s[0]}, s[1..]);
    }
  }

  // ---------------------------------------------------- what a selection preserves

  lemma {:induction false} RotatedOk(s: Smp, idles: set<Task>, c: Core)
    requires Inv(s, idles) && c < |s.current|
    ensures Inv(Rotated(s, c), idles)
  {
    var t := s.current[c];
    var p := s.tasks[t].priority;
    if t in s.ready[p] {
      var r := Rotated(s, c);
      assert ListOk(s, p);
      WithoutNoDup(s.ready[p], t);
      assert t !in Without(s.ready[p], t);
      forall q | 0 <= q < |r.ready| ensures ListOk(r, q) {
        assert ListOk(s, q);
      }
      forall u | u in s.ready[p] ensures u in r.ready[p] {
      }
      assert p <= s.top;
    }
  }

  lemma {:induction false} DispatchedOk(s: Smp, idles: set<Task>, c: Core, t: Task)
    requires Inv(s, idles) && c < |s.current| && t in s.tasks && Eligible(s, t, c)
    ensures Inv(Dispatched(s, c, t), idles)
  {
    var u, prev := Dispatched(s, c, t), s.current[c];
    if t != prev {
      if t in s.current {
        CurrentRuns(s, t);
        assert false;
      }
    }
    forall d | 0 <= d < |u.current|
      ensures u.current[d] in u.tasks && (u.tasks[u.current[d]].run == d || u.tasks[u.current[d]].run == SCHEDULED_TO_YIELD)
    {
      assert d != c ==> s.current[d] != s.current[c];
    }
    forall x | x in u.tasks && u.tasks[x].run != NOT_RUNNING ensures x in u.current {
      if x == t {
        assert u.current[c] == t;
      } else {
        assert x in s.current && x != prev;
        var d :| 0 <= d < |s.current| && s.current[d] == x;
        assert u.current[d] == x;
      }
    }
    forall q | 0 <= q < |u.ready| ensures ListOk(u, q) {
      assert ListOk(s, q);
    }
  }

  // ------------------------------------------------------------------- the evicted task

  /** Idle tasks count as one below the idle priority. */
  function EffectivePriority(r: Tcb): int { if r.idle then r.priority - 1 else r.priority }

  predicate IsReady(s: Smp, t: Task) {
    t in s.tasks && s.tasks[t].priority < |s.ready| && t in s.ready[s.tasks[t].priority]
  }

  /** The cores searched for the task just evicted from core `c`. */
  function Elsewheres(s: Smp, c: Core, evicted: Task): set<Core>
    requires c < |s.current| && s.current[c] in s.tasks && evicted in s.tasks
  {
    var mask := s.tasks[evicted].affinity;
    set x | x in mask && x < |s.current| && (c in mask ==> x !in s.tasks[s.current[c]].affinity)
  }

  /** Core `x` could run the evicted task instead of what it runs now. */
  ghost predicate Preemptible(s: Smp, c: Core, evicted: Task, x: Core)
    requires RunOk(s) && c < |s.current| && evicted in s.tasks
  {
    && x in Elsewheres(s, c, evicted)
    && EffectivePriority(s.tasks[s.current[x]]) < EffectivePriority(s.tasks[evicted])
    && s.tasks[s.current[x]].run >= 0 && !s.yieldPending[x]
  }

  /** Another core is asked to yield. */
  function Yielded(s: Smp, x: Core): Smp
    requires x < |s.current| && s.current[x] in s.tasks
  {
    s.(tasks := s.tasks[s.current[x] := s.tasks[s.current[x]].(run := SCHEDULED_TO_YIELD)])
  }

  /** A ready task evicted from core `c` has a core preempted for it, one that runs a task of
      the lowest priority among those it may preempt, if there is any. */
  ghost predicate Resettled(s: Smp, c: Core, evicted: Task, u: Smp)
    requires RunOk(s) && c < |s.current| && evicted in s.tasks
  {
    if evicted == s.current[c] || !IsReady(s, evicted) || forall x :: 0 <= x < |s.current| ==> !Preemptible(s, c, evicted, x)
    then u == s
    else exists x :: 0 <= x < |s.current| && LowestPreemptible(s, c, evicted, x) && u == Yielded(s, x)
  }

  ghost predicate LowestPreemptible(s: Smp, c: Core, evicted: Task, x: Core)
    requires RunOk(s) && c < |s.current| && evicted in s.tasks
  {
    && Preemptible(s, c, evicted, x)
    && forall y :: 0 <= y < |s.current| && Preemptible(s, c, evicted, y) ==>
         EffectivePriority(s.tasks[s.current[x]]) <= EffectivePriority(s.tasks[s.current[y]])
  }

  /** Of the cores from `from` up, the search has found the lowest one that can be
      preempted, or that there is none. */
  ghost predicate BestFrom(s: Smp, c: Core, evicted: Task, from: nat, best: int, lowest: int)
    requires RunOk(s) && c < |s.current| && evicted in s.tasks
  {
    if best < 0 then
      && lowest == EffectivePriority(s.tasks[evicted])
      && forall y :: from <= y < |s.current| ==> !Preemptible(s, c, evicted, y)
    else
      && best < |s.current| && Preemptible(s, c, evicted, best)
      && lowest == EffectivePriority(s.tasks[s.current[best]])
      && forall y :: from <= y < |s.current| && Preemptible(s, c, evicted, y) ==>
           lowest <= EffectivePriority(s.tasks[s.current[y]])
  }

  /** prvYieldCore, called on core `here`. */
  function AfterYieldCore(s: Smp, x: Core, here: Core): Smp
    requires x < |s.current| == |s.yieldPending| && s.current[x] in s.tasks
  {
    if x == here then s.(yieldPending := s.yieldPending[x := true]) else Yielded(s, x)
  }

  lemma {:induction false} YieldedOk(s: Smp, idles: set<Task>, x: Core)
    requires Inv(s, idles) && x < |s.current|
    ensures Inv(Yielded(s, x), idles)
  {
    var u := Yielded(s, x);
    forall q | 0 <= q < |u.ready| ensures ListOk(u, q) {
      assert ListOk(s, q);
    }
    forall d | 0 <= d < |u.current|
      ensures u.current[d] in u.tasks && (u.tasks[u.current[d]].run == d || u.tasks[u.current[d]].run == SCHEDULED_TO_YIELD)
    {
      assert d != x ==> s.current[d] != s.current[x];
    }
  }

  // ------------------------------------------------------------------------ the selector

  /** The recorded top priority comes down to the highest non-empty list. */
  ghost predicate TopFound(s: Smp, top: nat) {
    top < |s.ready| && s.ready[top] != [] && forall q :: top < q < |s.ready| ==> s.ready[q] == []
  }

  /** What prvSelectHighestPriorityTask does on core `c`. */
  ghost predicate Selects(s: Smp, c: Core, u: Smp)
    requires RunOk(s) && ListsOk(s) && c < |s.current|
  {
    var r := Rotated(s, c);
    && RunOk(r) && ListsOk(r)
    && exists p: nat, i: nat, top: nat :: SelectsAt(r, c, p, i, top, s.current[c], u)
  }

  ghost predicate SelectsAt(r: Smp, c: Core, p: nat, i: nat, top: nat, evicted: Task, u: Smp)
    requires RunOk(r) && ListsOk(r) && c < |r.current|
  {
    && FirstAt(r, c, p, i) && TopFound(r, top)
    && var d := Dispatched(r, c, r.ready[p][i]).(top := top);
    && RunOk(d) && evicted in d.tasks
    && Resettled(d, c, evicted, u)
  }

  /** How far the search from the top has come: nothing eligible above `priority`, and the
      recorded top is lowered along with it until the first non-empty list (`lower`). */
  ghost predicate Sought(s: Smp, c: Core, priority: nat, top: nat, lower: bool)
    requires ListsOk(s) && c < |s.current|
  {
    && priority <= top < |s.ready| && NoneAbove(s, c, priority)
    && (forall q :: top < q < |s.ready| ==> s.ready[q] == [])
    && (if lower then top == priority else s.ready[top] != [])
  }

  /** A search that has come to nothing goes on: it has not reached the idle priority. */
  lemma {:induction false} SoughtFurther(s: Smp, idles: set<Task>, c: Core, priority: nat, top: nat, lower: bool)
    requires Inv(s, idles) && c < |s.current| && Sought(s, c, priority, top, lower)
    requires forall t <- s.ready[priority] :: !Eligible(s, t, c)
    ensures priority > 0
    ensures s.ready[priority] != [] ==> Sought(s, c, priority - 1, top, false)
    ensures s.ready[priority] == [] ==> Sought(s, c, priority - 1, if lower then top - 1 else top, lower)
  {
    var t := SomeIdleIsEligible(s, idles, c);
  }

  lemma {:induction false} LoweredOk(s: Smp, idles: set<Task>, top: nat)
    requires Inv(s, idles) && TopFound(s, top)
    ensures Inv(s.(top := top), idles)
  {
    var u := s.(top := top);
    forall q | 0 <= q < |u.ready| ensures ListOk(u, q) {
      assert ListOk(s, q);
    }
  }

  lemma {:induction false} SelectsAtKeeps(r: Smp, idles: set<Task>, c: Core, p: nat, i: nat, top: nat, evicted: Task, u: Smp)
    requires Inv(r, idles) && c < |r.current| && SelectsAt(r, c, p, i, top, evicted, u)
    ensures Inv(u, idles) && u.current == r.current[c := r.ready[p][i]]
  {
    var t := r.ready[p][i];
    DispatchedOk(r, idles, c, t);
    LoweredOk(Dispatched(r, c, t), idles, top);
    var d := Dispatched(r, c, t).(top := top);
    if u != d {
      var x :| 0 <= x < |d.current| && LowestPreemptible(d, c, evicted, x) && u == Yielded(d, x);
      YieldedOk(d, idles, x);
    }
  }

  lemma {:induction false} FirstIsHighest(s: Smp, c: Core, p: nat, i: nat)
    requires ListsOk(s) && c < |s.current| && FirstAt(s, c, p, i)
    ensures var t := s.ready[p][i];
      && IsReady(s, t) && Eligible(s, t, c)
      && forall v <- s.tasks :: IsReady(s, v) && Eligible(s, v, c) ==> s.tasks[v].priority <= s.tasks[t].priority
  {
    assert ListOk(s, p) && s.ready[p][i] in s.ready[p];
  }

  /** A selection keeps the invariant, and gives the core a task of the highest priority
      among the ready ones that may run there and run nowhere else. */
  lemma {:induction false} SelectionIsHighest(s: Smp, idles: set<Task>, c: Core, u: Smp)
    requires Inv(s, idles) && c < |s.current| && Selects(s, c, u)
    ensures Inv(u, idles)
    ensures |u.current| == |s.current| && u.current[c] in s.tasks && Eligible(s, u.current[c], c) && IsReady(s, u.current[c])
    ensures forall t <- s.tasks :: IsReady(s, t) && Eligible(s, t, c) ==> s.tasks[t].priority <= s.tasks[u.current[c]].priority
  {
    var r := Rotated(s, c);
    RotatedOk(s, idles, c);
    var p: nat, i: nat, top: nat :| SelectsAt(r, c, p, i, top, s.current[c], u);
    SelectsAtKeeps(r, idles, c, p, i, top, s.current[c], u);
    FirstIsHighest(r, c, p, i);
    RotatedSame(s, idles, c);
    assert forall t <- s.tasks :: IsReady(s, t) <==> IsReady(r, t);
    assert forall t <- s.tasks :: Eligible(s, t, c) <==> Eligible(r, t, c);
  }

  /** Rotating changes the order of one list and nothing else. */
  lemma {:induction false} RotatedSame(s: Smp, idles: set<Task>, c: Core)
    requires Inv(s, idles) && c < |s.current|
    ensures var r := Rotated(s, c);
      && r.tasks == s.tasks && r.current == s.current && |r.ready| == |s.ready|
      && forall p, t :: 0 <= p < |s.ready| ==> (t in r.ready[p] <==> t in s.ready[p])
  {
  }

  // ----------------------------------------------------------------------------- runs

  datatype Step =
    | SelectOn(c: Core)    // vTaskSwitchContext
    | Postpone(c: Core)    // the same with the scheduler suspended
    | YieldCore(x: Core, here: Core)
    | MakeReady(t: Task)
    | Block(t: Task)
    | Create(t: Task, priority: nat, affinity: set<Core>, idle: bool)
    | SetAffinity(t: Task, affinity: set<Core>)

  /** A context switch answers a yield request pending on its core. */
  function Cleared(s: Smp, c: Core): Smp
    requires c < |s.yieldPending|
  {
    s.(yieldPending := s.yieldPending[c := false])
  }

  /** Idle tasks never block and keep their affinity. */
  ghost predicate Steps(s: Smp, idles: set<Task>, a: Step, u: Smp)
    requires Inv(s, idles)
  {
    match a
    case SelectOn(c) => c < |s.current| && Inv(Cleared(s, c), idles) && Selects(Cleared(s, c), c, u)
    case Postpone(c) => c < |s.current| && u == s.(yieldPending := s.yieldPending[c := true])
    case YieldCore(x, here) => x < |s.current| && u == AfterYieldCore(s, x, here)
    case MakeReady(t) => t in s.tasks && !IsReady(s, t) && u == Readied(s, t)
    case Block(t) => t in s.tasks && t !in idles && u == Blocked(s, t)
    case Create(t, priority, affinity, idle) =>
      t !in s.tasks && priority < |s.ready| && u == s.(tasks := s.tasks[t := Tcb(priority, affinity, NOT_RUNNING, idle)])
    case SetAffinity(t, affinity) =>
      t in s.tasks && t !in idles && u == s.(tasks := s.tasks[t := s.tasks[t].(affinity := affinity)])
  }

  /** prvAddTaskToReadyList. */
  function Readied(s: Smp, t: Task): Smp
    requires t in s.tasks && s.tasks[t].priority < |s.ready|
  {
    var p := s.tasks[t].priority;
    s.(ready := s.ready[p := s.ready[p] + [t]], top := if p > s.top then p else s.top)
  }

  /** A task leaves its ready list, whether or not it is running. */
  function Blocked(s: Smp, t: Task): Smp
    requires t in s.tasks && s.tasks[t].priority < |s.ready|
  {
    var p := s.tasks[t].priority;
    s.(ready := s.ready[p := Without(s.ready[p], t)])
  }

  lemma {:induction false} ReadyListsKept(s: Smp, idles: set<Task>, t: Task)
    requires Inv(s, idles) && t in s.tasks
    ensures !IsReady(s, t) ==> Inv(Readied(s, t), idles)
    ensures t !in idles ==> Inv(Blocked(s, t), idles)
  {
    var p := s.tasks[t].priority;
    assert ListOk(s, p);
    WithoutNoDup(s.ready[p], t);
    var u, v := Readied(s, t), Blocked(s, t);
    forall q | 0 <= q < |s.ready| ensures (!IsReady(s, t) ==> ListOk(u, q)) && ListOk(v, q) {
      assert ListOk(s, q);
    }
  }

  lemma {:induction false} RecordsKept(s: Smp, idles: set<Task>, t: Task, r: Tcb)
    requires Inv(s, idles) && r.priority < |s.ready|
    requires if t in s.tasks then t !in idles && r.run == s.tasks[t].run && r.priority == s.tasks[t].priority else r.run == NOT_RUNNING
    ensures Inv(s.(tasks := s.tasks[t := r]), idles)
  {
    var u := s.(tasks := s.tasks[t := r]);
    forall q | 0 <= q < |u.ready| ensures ListOk(u, q) {
      assert ListOk(s, q);
    }
  }

  lemma {:induction false} StepKeepsInv(s: Smp, idles: set<Task>, a: Step, u: Smp)
    requires Inv(s, idles) && Steps(s, idles, a, u)
    ensures Inv(u, idles)
  {
    match a
    case SelectOn(c) =>
      PendingKept(s, idles, Cleared(s, c).yieldPending);
      SelectionIsHighest(Cleared(s, c), idles, c, u);
    case Postpone(c) => PendingKept(s, idles, u.yieldPending);
    case YieldCore(x, here) => if x != here { YieldedOk(s, idles, x); } else { PendingKept(s, idles, u.yieldPending); }
    case MakeReady(t) => ReadyListsKept(s, idles, t);
    case Block(t) => ReadyListsKept(s, idles, t);
    case Create(t, priority, affinity, idle) => RecordsKept(s, idles, t, Tcb(priority, affinity, NOT_RUNNING, idle));
    case SetAffinity(t, affinity) => RecordsKept(s, idles, t, s.tasks[t].(affinity := affinity));
  }

  lemma {:induction false} PendingKept(s: Smp, idles: set<Task>, pending: seq<bool>)
    requires Inv(s, idles) && |pending| == |s.current|
    ensures Inv(s.(yieldPending := pending), idles)
  {
    var u := s.(yieldPending := pending);
    forall q | 0 <= q < |u.ready| ensures ListOk(u, q) {
      assert ListOk(s, q);
    }
  }

  /** A run, given by the states passed through. */
  ghost predicate Run(states: seq<Smp>, idles: set<Task>, steps: seq<Step>) {
    && |states| == |steps| + 1 && Inv(states[0], idles)
    && forall i :: 0 <= i < |steps| ==> Inv(states[i], idles) ==> Steps(states[i], idles, steps[i], states[i + 1])
  }

  /** In every run no task is ever current on two cores, and run states agree with the
      current tasks. */
  lemma {:induction false} RunKeepsInv(states: seq<Smp>, idles: set<Task>, steps: seq<Step>, i: nat)
    requires Run(states, idles, steps) && i < |states|
    ensures Inv(states[i], idles)
  {
    if i > 0 {
      RunKeepsInv(states, idles, steps, i - 1);
      StepKeepsInv(states[i - 1], idles, steps[i - 1], states[i]);
    }
  }

  lemma {:induction false} NeverOnTwoCores(states: seq<Smp>, idles: set<Task>, steps: seq<Step>, i: nat, c: Core, d: Core)
    requires Run(states, idles, steps) && i < |states|
    requires c < |states[i].current| && d < |states[i].current| && states[i].current[c] == states[i].current[d]
    ensures c == d
  {
    RunKeepsInv(states, idles, steps, i);
  }
}
