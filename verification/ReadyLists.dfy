/** The ready lists of tasks.c and the choice of the next task: one list per priority, and
    uxTopReadyPriority as an upper bound on the non-empty ones. */
module ReadyLists {
  import opened Common
  import R = RoundRobin

  type Task = nat

  datatype Ready = Ready(lists: seq<R.Ring<Task>>, top: nat)

  /** Every list above `top` is empty. */
  ghost predicate Inv(r: Ready) {
    && r.top < |r.lists|
    && (forall p :: 0 <= p < |r.lists| ==> r.lists[p].Ok())
    && (forall p :: r.top < p < |r.lists| ==> r.lists[p].items == [])
  }

  ghost predicate SomeReady(r: Ready) {
    exists p :: 0 <= p < |r.lists| && r.lists[p].items != []
  }

  /** The greatest priority with a ready task, looked for from `from` downwards. */
  ghost function Highest(lists: seq<R.Ring<Task>>, from: nat): (p: nat)
    requires from < |lists| && exists q :: 0 <= q <= from && lists[q].items != []
    ensures p <= from && lists[p].items != []
    ensures forall q :: p < q <= from ==> lists[q].items == []
  {
    if lists[from].items != [] then from else Highest(lists, from - 1)
  }

  // --------------------------------------------------------------------------- steps

  /** prvAddTaskToReadyList. */
  function Add(r: Ready, t: Task, p: nat): Ready
    requires p < |r.lists| && r.lists[p].Ok()
  {
    Ready(r.lists[p := R.InsertEnd(r.lists[p], t)], if p > r.top then p else r.top)
  }

  /** A task leaves its ready list; the bound stays. */
  function Leave(r: Ready, p: nat, i: nat): Ready
    requires p < |r.lists| && r.lists[p].Ok() && i < |r.lists[p].items|
  {
    r.(lists := r.lists[p := R.Remove(r.lists[p], i)])
  }

  /** The search from the recorded bound downwards comes to a non-empty list, so the assert
      on priority zero does not fire. */
  ghost predicate SearchEnds(r: Ready) {
    && r.top < |r.lists| && (exists q :: 0 <= q <= r.top && r.lists[q].items != [])
    && r.lists[Highest(r.lists, r.top)].Ok()
  }

  /** taskSELECT_HIGHEST_PRIORITY_TASK. */
  ghost function Select(r: Ready): Ready
    requires SearchEnds(r)
  {
    var p := Highest(r.lists, r.top);
    Ready(r.lists[p := R.Next(r.lists[p])], p)
  }

  ghost function Selected(r: Ready): Task
    requires SearchEnds(r)
  {
    R.Current(R.Next(r.lists[Highest(r.lists, r.top)]))
  }

  datatype Step = AddTask(t: Task, p: nat) | RemoveTask(p: nat, i: nat) | SwitchContext

  ghost predicate Enabled(r: Ready, a: Step) {
    match a
    case AddTask(_, p) => p < |r.lists| && r.lists[p].Ok()
    case RemoveTask(p, i) => p < |r.lists| && r.lists[p].Ok() && i < |r.lists[p].items|
    case SwitchContext => SearchEnds(r)
  }

  ghost function Apply(r: Ready, a: Step): Ready
    requires Enabled(r, a)
  {
    match a
    case AddTask(t, p) => Add(r, t, p)
    case RemoveTask(p, i) => Leave(r, p, i)
    case SwitchContext => Select(r)
  }

  lemma {:induction false} StepKeepsInv(r: Ready, a: Step)
    requires Inv(r) && Enabled(r, a)
    ensures Inv(Apply(r, a))
  {
    if a.RemoveTask? {
      assert r.lists[a.p].items != [];
    }
  }

  ghost predicate Leads(r: Ready, run: seq<Step>, u: Ready)
    decreases run
  {
    if run == [] then r == u else Enabled(r, run[0]) && Leads(Apply(r, run[0]), run[1..], u)
  }

  /** In every run the bound holds, and the task a context switch picks is a ready task of
      the greatest ready priority. */
  lemma {:induction false} RunPicksHighest(r: Ready, run: seq<Step>, u: Ready)
    requires Inv(r) && Leads(r, run, u)
    ensures Inv(u)
    ensures SomeReady(u) ==>
      && SearchEnds(u)
      && Select(u).top == Highest(u.lists, |u.lists| - 1)
      && Selected(u) in u.lists[Select(u).top].items
      && forall q :: Select(u).top < q < |u.lists| ==> u.lists[q].items == []
    decreases run
  {
    if run != [] {
      StepKeepsInv(r, run[0]);
      RunPicksHighest(Apply(r, run[0]), run[1..], u);
    } else if SomeReady(u) {
      FromTheTop(u.lists, u.top, |u.lists| - 1);
    }
  }

  /** Starting at the bound finds what starting at the very top would find. */
  lemma {:induction false} FromTheTop(lists: seq<R.Ring<Task>>, top: nat, from: nat)
    requires top <= from < |lists| && exists q :: 0 <= q <= top && lists[q].items != []
    requires forall q :: top < q <= from ==> lists[q].items == []
    ensures (exists q :: 0 <= q <= from && lists[q].items != []) && Highest(lists, from) == Highest(lists, top)
  {
  }

  /** What `n` context switches in a row select. */
  ghost function SelectedInTurn(r: Ready, n: nat): seq<Task>
    requires Inv(r) && SearchEnds(r)
    decreases n
  {
    if n == 0 then []
    else
      StepKeepsInv(r, SwitchContext);
      StillReady(r);
      [Selected(r)] + SelectedInTurn(Apply(r, SwitchContext), n - 1)
  }

  lemma {:induction false} StillReady(r: Ready)
    requires Inv(r) && SearchEnds(r)
    ensures SearchEnds(Select(r)) && Highest(Select(r).lists, Select(r).top) == Highest(r.lists, r.top)
  {
    var p := Highest(r.lists, r.top);
    assert Select(r).lists[p].items != [];
  }

  lemma {:induction false} TurnsFollowTheList(r: Ready, n: nat)
    requires Inv(r) && SearchEnds(r)
    ensures SelectedInTurn(r, n) == R.Serve(r.lists[Highest(r.lists, r.top)], n)
    decreases n
  {
    if n > 0 {
      StepKeepsInv(r, SwitchContext);
      StillReady(r);
      var p := Highest(r.lists, r.top);
      TurnsFollowTheList(Select(r), n - 1);
      assert Select(r).lists[p] == R.Next(r.lists[p]);
    }
  }

  /** As many selections as there are tasks of the greatest ready priority pick each of
      them exactly once. */
  lemma {:induction false} FairShare(r: Ready)
    requires Inv(r) && SearchEnds(r)
    ensures var list := r.lists[Highest(r.lists, r.top)];
      multiset(SelectedInTurn(r, |list.items|)) == multiset(list.items)
  {
    var list := r.lists[Highest(r.lists, r.top)];
    TurnsFollowTheList(r, |list.items|);
    R.EachOnce(list);
  }

  // --------------------------------------------------------------- who is on which list

  lemma {:induction false} InsertedOnce(r: R.Ring<Task>, x: Task, t: Task)
    requires r.Ok()
    ensures Occurrences(R.InsertEnd(r, x).items, t) == Occurrences(r.items, t) + (if x == t then 1 else 0)
  {
    var k := if r.at == 0 then |r.items| else r.at - 1;
    var a, b := r.items[..k], r.items[k..];
    assert R.InsertEnd(r, x).items == a + [x] + b && r.items == a + b;
    OccurrencesJoined(a + [x], b, t);
    OccurrencesJoined(a, [x], t);
    OccurrencesJoined(a, b, t);
  }

  lemma {:induction false} RemovedOnce(r: R.Ring<Task>, i: nat, t: Task)
    requires r.Ok() && i < |r.items|
    ensures Occurrences(R.Remove(r, i).items, t) + (if r.items[i] == t then 1 else 0) == Occurrences(r.items, t)
  {
    var a, b := r.items[..i], r.items[i + 1..];
    assert r.items == a + [r.items[i]] + b;
    OccurrencesJoined(a + [r.items[i]], b, t);
    OccurrencesJoined(a, [r.items[i]], t);
    OccurrencesJoined(a, b, t);
  }

  predicate Adds(a: Step, t: Task, p: nat) { a == AddTask(t, p) }

  predicate Removes(r: Ready, a: Step, t: Task, p: nat) {
    a.RemoveTask? && a.p == p < |r.lists| && a.i < |r.lists[p].items| && r.lists[p].items[a.i] == t
  }

  /** A task is on a ready list once more for being added to it and once less for being removed
      from it, and a context switch moves nobody. */
  lemma {:induction false} StepMembers(r: Ready, a: Step, t: Task, p: nat)
    requires Inv(r) && Enabled(r, a) && p < |r.lists|
    ensures |Apply(r, a).lists| == |r.lists|
    ensures Occurrences(Apply(r, a).lists[p].items, t) + (if Removes(r, a, t, p) then 1 else 0) ==
      Occurrences(r.lists[p].items, t) + (if Adds(a, t, p) then 1 else 0)
  {
    match a
    case AddTask(x, q) => if q == p { InsertedOnce(r.lists[p], x, t); }
    case RemoveTask(q, i) => if q == p { RemovedOnce(r.lists[p], i, t); }
    case SwitchContext =>
  }

  /** How often `t` is added to list `p`, and removed from it, in a run. */
  ghost function Added(run: seq<Step>, t: Task, p: nat): nat {
    if run == [] then 0 else (if Adds(run[0], t, p) then 1 else 0) + Added(run[1..], t, p)
  }

  ghost function Removed(r: Ready, run: seq<Step>, u: Ready, t: Task, p: nat): nat
    requires Leads(r, run, u)
    decreases run
  {
    if run == [] then 0 else (if Removes(r, run[0], t, p) then 1 else 0) + Removed(Apply(r, run[0]), run[1..], u, t, p)
  }

  /** Over every run the ready lists hold what has been added to them and not removed. */
  lemma {:induction false} ListsHoldTheReady(r: Ready, run: seq<Step>, u: Ready, t: Task, p: nat)
    requires Inv(r) && Leads(r, run, u) && p < |r.lists|
    ensures |u.lists| == |r.lists|
    ensures Occurrences(u.lists[p].items, t) + Removed(r, run, u, t, p) == Occurrences(r.lists[p].items, t) + Added(run, t, p)
    decreases run
  {
    if run != [] {
      StepMembers(r, run[0], t, p);
      StepKeepsInv(r, run[0]);
      ListsHoldTheReady(Apply(r, run[0]), run[1..], u, t, p);
    }
  }

  // --------------------------------------------------------------------------- kernel

  class Scheduler {
    var lists: seq<R.Ring<Task>>
    var topReadyPriority: nat
    var current: Task

    ghost function View(): Ready
      reads this
    {
      Ready(lists, topReadyPriority)
    }

    constructor (priorities: nat)
      requires priorities > 0
      ensures Inv(View()) && |lists| == priorities && !SomeReady(View())
    {
      lists := seq(priorities, _ => R.Ring([], 0));
      topReadyPriority, current := 0, 0;
    }

    /** prvAddTaskToReadyList. */
    method AddTaskToReadyList(t: Task, p: nat)
      requires Inv(View()) && p < |lists|
      modifies this`lists, this`topReadyPriority
      ensures Inv(View()) && View() == Add(old(View()), t, p)
    {
      if p > topReadyPriority {
        topReadyPriority := p;
      }
      lists := lists[p := R.InsertEnd(lists[p], t)];
    }

    /** taskSELECT_HIGHEST_PRIORITY_TASK: the search from the recorded bound down never
        passes priority zero. */
    method SelectHighestPriorityTask()
      requires Inv(View()) && SomeReady(View())
      modifies this
      ensures SearchEnds(old(View())) && Inv(View()) && View() == Select(old(View())) && current == Selected(old(View()))
    {
      var top := topReadyPriority;
      assert exists q :: 0 <= q <= top && lists[q].items != [];
      while lists[top].items == []
        invariant top < |lists|
        invariant exists q :: 0 <= q <= top && lists[q].items != []
        invariant Highest(lists, top) == Highest(lists, topReadyPriority)
        decreases top
      {
        assert top != 0;
        top := top - 1;
      }
      lists := lists[top := R.Next(lists[top])];
      current := R.Current(lists[top]);
      topReadyPriority := top;
    }
  }
}
