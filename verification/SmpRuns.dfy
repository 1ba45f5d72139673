/** What the multi-core machine comes to in terms of cores, affinities and ready lists alone:
    which task a context switch picks, who makes way for whom, and what becomes of a request
    to yield. */
module SmpRuns {
  import opened Common
  import opened SmpSelection

  // ------------------------------------------------------------------------- selection

  /** Task `t` is ready, may run on core `c`, and is not running on another core. */
  ghost predicate Candidate(s: Smp, t: Task, c: Core) {
    && t in s.tasks && s.tasks[t].priority < |s.ready| && t in s.ready[s.tasks[t].priority]
    && c < |s.current| && c in s.tasks[t].affinity
    && forall d :: 0 <= d < |s.current| && d != c ==> s.current[d] != t
  }

  lemma {:induction false} CandidateIff(s: Smp, idles: set<Task>, t: Task, c: Core)
    requires Inv(s, idles) && c < |s.current|
    ensures Candidate(s, t, c) <==> IsReady(s, t) && Eligible(s, t, c)
  {
    if t in s.tasks && s.tasks[t].run != NOT_RUNNING {
      var d :| 0 <= d < |s.current| && s.current[d] == t;
    }
    if t in s.current {
      CurrentRuns(s, t);
    }
  }

  /** A context switch on a core picks a candidate for it, of the highest priority among the
      candidates, and the task that was running only if it is the only one of that priority;
      every other core keeps its task. */
  lemma {:induction false} SwitchPicks(s: Smp, idles: set<Task>, c: Core, u: Smp)
    requires Inv(s, idles) && c < |s.current| && Selects(s, c, u)
    ensures |u.current| == |s.current| && Candidate(s, u.current[c], c)
    ensures forall t :: Candidate(s, t, c) ==> s.tasks[t].priority <= s.tasks[u.current[c]].priority
    ensures u.current[c] == s.current[c] ==>
      forall t :: Candidate(s, t, c) && s.tasks[t].priority == s.tasks[s.current[c]].priority ==> t == s.current[c]
    ensures forall d :: 0 <= d < |s.current| && d != c ==> u.current[d] == s.current[d]
  {
    SelectionIsHighest(s, idles, c, u);
    CandidateIff(s, idles, u.current[c], c);
    forall t | Candidate(s, t, c) ensures s.tasks[t].priority <= s.tasks[u.current[c]].priority {
      CandidateIff(s, idles, t, c);
    }
    var r := Rotated(s, c);
    RotatedOk(s, idles, c);
    var p: nat, i: nat, top: nat :| SelectsAt(r, c, p, i, top, s.current[c], u);
    SelectsAtKeeps(r, idles, c, p, i, top, s.current[c], u);
    if u.current[c] == s.current[c] {
      forall t | Candidate(s, t, c) && s.tasks[t].priority == s.tasks[s.current[c]].priority ensures t == s.current[c] {
        CandidateIff(s, idles, t, c);
        RunnerIsLast(s, idles, c, p, i, t);
      }
    }
  }

  /** The running task stands behind the others of its priority when the search begins. */
  lemma {:induction false} RunnerIsLast(s: Smp, idles: set<Task>, c: Core, p: nat, i: nat, t: Task)
    requires Inv(s, idles) && c < |s.current| && Inv(Rotated(s, c), idles) && FirstAt(Rotated(s, c), c, p, i)
    requires Rotated(s, c).ready[p][i] == s.current[c] && IsReady(s, t) && Eligible(s, t, c)
    requires s.tasks[t].priority == s.tasks[s.current[c]].priority
    ensures t == s.current[c]
  {
    var r, x := Rotated(s, c), s.current[c];
    assert ListOk(r, p) && x in r.ready[p] && r.tasks == s.tasks;
    var rest := Without(s.ready[p], x);
    assert x in s.ready[p] && r.ready[p] == rest + [x];
    assert i == |rest|;
    if t != x {
      assert t in rest;
      var j :| 0 <= j < |rest| && rest[j] == t;
      assert r.ready[p][j] == t && Eligible(r, t, c);
    }
  }

  // -------------------------------------------------------------------- the evicted task

  /** Core `x` runs a less urgent task than `evicted` that could make way for it: `evicted` may
      run there, the task that took its place on core `c` may not, or `evicted` may no longer
      run on `c`; no yield is outstanding on `x`.  Idle tasks make way for any other. */
  ghost predicate CouldMakeWay(s: Smp, c: Core, evicted: Task, x: Core) {
    && c < |s.current| && x < |s.current| == |s.yieldPending| && s.current[x] in s.tasks && s.current[c] in s.tasks && evicted in s.tasks
    && x in s.tasks[evicted].affinity
    && (c !in s.tasks[evicted].affinity || x !in s.tasks[s.current[c]].affinity)
    && Urgency(s, s.current[x]) < Urgency(s, evicted)
    && !YieldOutstanding(s, x)
  }

  ghost function Urgency(s: Smp, t: Task): int
    requires t in s.tasks
  {
    if s.tasks[t].idle then s.tasks[t].priority - 1 else s.tasks[t].priority
  }

  /** Core `x` has been asked to yield. */
  ghost predicate YieldOutstanding(s: Smp, x: Core)
    requires x < |s.current| == |s.yieldPending| && s.current[x] in s.tasks
  {
    s.yieldPending[x] || s.tasks[s.current[x]].run == SCHEDULED_TO_YIELD
  }

  ghost predicate LeastUrgent(s: Smp, c: Core, evicted: Task, x: Core) {
    && CouldMakeWay(s, c, evicted, x)
    && forall y :: 0 <= y < |s.current| && CouldMakeWay(s, c, evicted, y) ==> Urgency(s, s.current[x]) <= Urgency(s, s.current[y])
  }

  lemma {:induction false} MakeWayIff(s: Smp, c: Core, evicted: Task, x: Core)
    requires RunOk(s) && c < |s.current| && x < |s.current| && evicted in s.tasks
    ensures Preemptible(s, c, evicted, x) <==> CouldMakeWay(s, c, evicted, x)
  {
  }

  /** A ready task evicted from its core has a core asked to yield for it exactly if some core
      could make way, and one that runs the least urgent task among those. */
  lemma {:induction false} EvictedIsResettled(s: Smp, c: Core, evicted: Task, u: Smp)
    requires RunOk(s) && c < |s.current| && evicted in s.tasks && Resettled(s, c, evicted, u)
    requires evicted != s.current[c] && IsReady(s, evicted)
    ensures |u.current| == |s.current| == |u.yieldPending| && u.current == s.current
    ensures u == s <==> forall x :: 0 <= x < |s.current| ==> !CouldMakeWay(s, c, evicted, x)
    ensures u != s ==> exists x :: 0 <= x < |s.current| && LeastUrgent(s, c, evicted, x) && u.current[x] in u.tasks && YieldOutstanding(u, x)
  {
    forall x | 0 <= x < |s.current| ensures Preemptible(s, c, evicted, x) <==> CouldMakeWay(s, c, evicted, x) {
      MakeWayIff(s, c, evicted, x);
    }
    if exists x :: 0 <= x < |s.current| && CouldMakeWay(s, c, evicted, x) {
      var x :| 0 <= x < |s.current| && LowestPreemptible(s, c, evicted, x) && u == Yielded(s, x);
      LowestIsLeastUrgent(s, c, evicted, x);
      AskedToYield(s, x);
    }
  }

  lemma {:induction false} LowestIsLeastUrgent(s: Smp, c: Core, evicted: Task, x: Core)
    requires RunOk(s) && c < |s.current| && x < |s.current| && evicted in s.tasks && LowestPreemptible(s, c, evicted, x)
    ensures LeastUrgent(s, c, evicted, x)
  {
    MakeWayIff(s, c, evicted, x);
    forall y | 0 <= y < |s.current| && CouldMakeWay(s, c, evicted, y) ensures Urgency(s, s.current[x]) <= Urgency(s, s.current[y]) {
      MakeWayIff(s, c, evicted, y);
    }
  }

  lemma {:induction false} AskedToYield(s: Smp, x: Core)
    requires x < |s.current| == |s.yieldPending| && s.current[x] in s.tasks
    ensures var u := Yielded(s, x); u.current == s.current && u.current[x] in u.tasks && YieldOutstanding(u, x)
    ensures !YieldOutstanding(s, x) ==> Yielded(s, x) != s
  {
  }

  // ---------------------------------------------------------------------------- steps

  /** A task is made ready and unready by its own steps alone. */
  lemma {:induction false} ReadyIff(s: Smp, idles: set<Task>, a: Step, u: Smp, t: Task)
    requires Inv(s, idles) && Steps(s, idles, a, u) && t in s.tasks
    ensures IsReady(u, t) <==> a == MakeReady(t) || (IsReady(s, t) && a != Block(t))
  {
    match a
    case SelectOn(c) =>
      PendingKept(s, idles, Cleared(s, c).yieldPending);
      SelectionKeepsReady(Cleared(s, c), idles, c, u, t);
    case MakeReady(x) => assert ListOk(s, s.tasks[x].priority);
    case Block(x) => assert ListOk(s, s.tasks[x].priority);
    case _ =>
  }

  /** Apart from run states and current tasks nothing changes. */
  ghost predicate SameRecords(s: map<Task, Tcb>, u: map<Task, Tcb>) {
    s.Keys == u.Keys && forall t <- s :: u[t] == s[t].(run := u[t].run)
  }

  lemma {:induction false} ResettledFrame(s: Smp, c: Core, evicted: Task, u: Smp)
    requires RunOk(s) && c < |s.current| && evicted in s.tasks && Resettled(s, c, evicted, u)
    ensures u == s.(tasks := u.tasks) && SameRecords(s.tasks, u.tasks)
  {
  }

  lemma {:induction false} DispatchedFrame(s: Smp, c: Core, t: Task)
    requires c < |s.current| && s.current[c] in s.tasks && t in s.tasks
    ensures Dispatched(s, c, t).ready == s.ready && Dispatched(s, c, t).yieldPending == s.yieldPending
    ensures SameRecords(s.tasks, Dispatched(s, c, t).tasks)
  {
  }

  /** A selection reorders one list, moves run states, and changes nothing else of a task. */
  lemma {:induction false} SelectionFrame(s: Smp, idles: set<Task>, c: Core, u: Smp)
    requires Inv(s, idles) && c < |s.current| && Selects(s, c, u)
    ensures SameRecords(s.tasks, u.tasks) && u.yieldPending == s.yieldPending && u.ready == Rotated(s, c).ready
  {
    var r := Rotated(s, c);
    RotatedOk(s, idles, c);
    var p: nat, i: nat, top: nat :| SelectsAt(r, c, p, i, top, s.current[c], u);
    var t := r.ready[p][i];
    DispatchedFrame(r, c, t);
    ResettledFrame(Dispatched(r, c, t).(top := top), c, s.current[c], u);
  }

  lemma {:induction false} SelectionKeepsReady(s: Smp, idles: set<Task>, c: Core, u: Smp, t: Task)
    requires Inv(s, idles) && c < |s.current| && Selects(s, c, u) && t in s.tasks
    ensures IsReady(u, t) <==> IsReady(s, t)
  {
    RotatedSame(s, idles, c);
    SelectionFrame(s, idles, c, u);
  }

  /** Asking a core to yield leaves a yield outstanding on it, whichever core asks. */
  lemma {:induction false} YieldIsAsked(s: Smp, idles: set<Task>, x: Core, here: Core, u: Smp)
    requires Inv(s, idles) && Steps(s, idles, YieldCore(x, here), u)
    ensures x < |u.current| == |u.yieldPending| && u.current == s.current && u.current[x] in u.tasks && YieldOutstanding(u, x)
  {
  }

  /** It stays outstanding until that core switches context, whatever the others do, and a
      context switch answers it. */
  lemma {:induction false} YieldStays(s: Smp, idles: set<Task>, a: Step, u: Smp, x: Core)
    requires Inv(s, idles) && Steps(s, idles, a, u) && x < |s.current|
    ensures x < |u.current| == |u.yieldPending| && u.current[x] in u.tasks
    ensures YieldOutstanding(s, x) && a != SelectOn(x) ==> YieldOutstanding(u, x)
    ensures a == Postpone(x) ==> YieldOutstanding(u, x)
    ensures a == SelectOn(x) ==> !u.yieldPending[x]
  {
    StepKeepsInv(s, idles, a, u);
    if a.SelectOn? {
      PendingKept(s, idles, Cleared(s, a.c).yieldPending);
      SelectionKeepsYields(Cleared(s, a.c), idles, a.c, u, x);
    }
  }

  /** Over every run a core that has been asked to yield stays asked until it switches. */
  lemma {:induction false} AskedUntilSwitch(states: seq<Smp>, idles: set<Task>, steps: seq<Step>, x: Core, i: nat, j: nat)
    requires Run(states, idles, steps) && i <= j < |states| && x < |states[i].current|
    requires Inv(states[i], idles) && YieldOutstanding(states[i], x)
    requires forall k :: i <= k < j ==> steps[k] != SelectOn(x)
    ensures Inv(states[j], idles) && x < |states[j].current| && YieldOutstanding(states[j], x)
  {
    RunKeepsInv(states, idles, steps, j);
    if i < j {
      AskedUntilSwitch(states, idles, steps, x, i, j - 1);
      YieldStays(states[j - 1], idles, steps[j - 1], states[j], x);
    }
  }

  lemma {:induction false} SelectionKeepsYields(s: Smp, idles: set<Task>, c: Core, u: Smp, x: Core)
    requires Inv(s, idles) && c < |s.current| && Selects(s, c, u) && x < |s.current|
    ensures |u.current| == |s.current| == |u.yieldPending| && u.current[x] in u.tasks
    ensures u.yieldPending == s.yieldPending
    ensures x != c && YieldOutstanding(s, x) ==> YieldOutstanding(u, x)
  {
    SelectionFrame(s, idles, c, u);
    SwitchPicks(s, idles, c, u);
    if x != c {
      SelectionSpares(s, idles, c, u, x);
    }
  }

  /** The task on another core is left alone, or asked to yield. */
  lemma {:induction false} SelectionSpares(s: Smp, idles: set<Task>, c: Core, u: Smp, x: Core)
    requires Inv(s, idles) && c < |s.current| && Selects(s, c, u) && x < |s.current| && x != c
    ensures s.current[x] in u.tasks
    ensures u.tasks[s.current[x]].run == s.tasks[s.current[x]].run || u.tasks[s.current[x]].run == SCHEDULED_TO_YIELD
  {
    var r := Rotated(s, c);
    RotatedOk(s, idles, c);
    var p: nat, i: nat, top: nat :| SelectsAt(r, c, p, i, top, s.current[c], u);
    DispatchedSpares(r, c, r.ready[p][i], x);
    ResettledSpares(Dispatched(r, c, r.ready[p][i]).(top := top), c, s.current[c], u, s.current[x]);
  }

  lemma {:induction false} DispatchedSpares(s: Smp, c: Core, t: Task, x: Core)
    requires RunOk(s) && c < |s.current| && x < |s.current| && x != c && Eligible(s, t, c)
    ensures var u := Dispatched(s, c, t); s.current[x] in u.tasks && u.tasks[s.current[x]] == s.tasks[s.current[x]]
  {
    assert s.current[x] != s.current[c];
    if t in s.current {
      CurrentRuns(s, t);
    }
  }

  lemma {:induction false} ResettledSpares(s: Smp, c: Core, evicted: Task, u: Smp, t: Task)
    requires RunOk(s) && c < |s.current| && evicted in s.tasks && Resettled(s, c, evicted, u) && t in s.tasks
    ensures t in u.tasks && (u.tasks[t].run == s.tasks[t].run || u.tasks[t].run == SCHEDULED_TO_YIELD)
  {
  }

  /** A new task exists, is not running and not yet ready; an affinity is the one last set. */
  lemma {:induction false} RecordIff(s: Smp, idles: set<Task>, a: Step, u: Smp, t: Task)
    requires Inv(s, idles) && Steps(s, idles, a, u)
    ensures t in u.tasks <==> t in s.tasks || (a.Create? && a.t == t)
    ensures t in u.tasks ==>
      && u.tasks[t].affinity == (if (a.Create? || a.SetAffinity?) && a.t == t then a.affinity else s.tasks[t].affinity)
      && u.tasks[t].priority == (if a.Create? && a.t == t then a.priority else s.tasks[t].priority)
      && u.tasks[t].idle == (if a.Create? && a.t == t then a.idle else s.tasks[t].idle)
    ensures a.Create? && a.t == t ==> u.tasks[t].run == NOT_RUNNING && !IsReady(u, t)
  {
    if a.SelectOn? {
      PendingKept(s, idles, Cleared(s, a.c).yieldPending);
      SelectionFrame(Cleared(s, a.c), idles, a.c, u);
    } else if a.Create? && a.t == t {
      assert ListOk(s, a.priority);
    }
  }
}
