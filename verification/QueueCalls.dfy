/** What a call on a queue comes to: when it parks, what it returns, that items are conserved,
    and that nobody is woken for nothing. */
module QueueCalls {
  import opened Common
  import opened QueueBlocking

  /** There is nothing to read, or no room to send. */
  predicate Stuck(q: Queue, op: Op) {
    match op
    case Receive => q.n == 0
    case Peek => q.n == 0
    case Send => q.n == q.len
    case Overwrite => false
  }

  function WaitList(q: Queue, op: Op): seq<TaskId> { if op.Reads() then q.recvQ else q.sendQ }

  // ---------------------------------------------------------------------
  // A call on its own
  // ---------------------------------------------------------------------

  /** The way of a call that finds nothing and is neither disturbed nor out of time. */
  function WaitingPath(t: TaskId, pos: nat): seq<Step> { [Attempt(t, true)] + LockingPath(t, pos) }

  function LockingPath(t: TaskId, pos: nat): seq<Step> { [Lock(t)] + CheckingPath(t, pos) }

  function CheckingPath(t: TaskId, pos: nat): seq<Step> { [Check(t, false)] + PlacingPath(t, pos) }

  function PlacingPath(t: TaskId, pos: nat): seq<Step> { [Place(t, pos)] + UnlockingPath(t) }

  function UnlockingPath(t: TaskId): seq<Step> { [DoUnlockTx(t)] + ([DoUnlockRx(t)] + [Finish(t)]) }

  lemma {:induction false} OnlyThen(q: Queue, s: Step, rest: seq<Step>)
    ensures Possible(q, [s] + rest) <==> Lists(q) && Enabled(q, s) && Possible(Apply(q, s), rest)
  {
    assert ([s] + rest)[1..] == rest;
  }

  /** Task `t` asleep at position `pos` of its wait list. */
  function AsleepAt(q: Queue, t: TaskId, op: Op, pos: nat): Queue
    requires pos <= |WaitList(q, op)|
  {
    var list := WaitList(q, op);
    var longer := list[..pos] + [t] + list[pos..];
    var q1 := At(q, t, Sleeping(op)).(tx := -1, rx := -1, owner := None);
    if op.Reads() then q1.(recvQ := longer) else q1.(sendQ := longer)
  }

  /** Moving a task on keeps the lists in order. */
  lemma {:induction false} AtLists(q: Queue, t: TaskId, p: Pc)
    requires Lists(q) && t in q.pc
    ensures Lists(At(q, t, p)) && At(q, t, p).pc.Keys == q.pc.Keys
  {
    assert At(q, t, p).pc.Keys == q.pc.Keys;
  }

  lemma {:induction false} UnlockingEnds(q: Queue, t: TaskId, op: Op)
    requires Lists(q) && t in q.pc && q.pc[t] == Unlocking(op, UnlockTx, true, false) && q.tx == 0 && q.rx == 0
    requires t in WaitList(q, op)
    ensures Possible(q, UnlockingPath(t))
    ensures After(q, UnlockingPath(t)) == At(q, t, Sleeping(op)).(tx := -1, rx := -1, owner := None)
  {
    var q1, q2 := TxUnlocked(q, t), RxUnlocked(TxUnlocked(q, t), t);
    assert q1 == At(q, t, Unlocking(op, UnlockRx, true, false)).(tx := -1);
    assert q2 == At(q1, t, Unlocking(op, Unlocked, true, false)).(rx := -1);
    AtLists(q, t, Unlocking(op, UnlockRx, true, false));
    AtLists(q1, t, Unlocking(op, Unlocked, true, false));
    var q3 := Finished(q2, t);
    Cons(q2, Finish(t), q3, []);
    assert [Finish(t)] + [] == [Finish(t)];
    Cons(q1, DoUnlockRx(t), q2, [Finish(t)]);
    Cons(q, DoUnlockTx(t), q1, [DoUnlockRx(t)] + [Finish(t)]);
    assert q3.pc == q.pc[t := Sleeping(op)];
  }

  lemma {:induction false} PlacingEnds(q: Queue, t: TaskId, op: Op, pos: nat)
    requires Lists(q) && t in q.pc && q.pc[t] == Seen(op) && q.tx == 0 && q.rx == 0 && pos <= |WaitList(q, op)|
    requires t !in q.recvQ && t !in q.sendQ
    ensures Possible(q, PlacingPath(t, pos)) && After(q, PlacingPath(t, pos)) == AsleepAt(q, t, op, pos)
  {
    var q1 := Placed(q, t, pos);
    InsertNoDup(WaitList(q, op), t, pos);
    AtLists(q, t, Unlocking(op, UnlockTx, true, false));
    UnlockingEnds(q1, t, op);
    Cons(q, Place(t, pos), q1, UnlockingPath(t));
    assert q1.pc[t := Sleeping(op)] == q.pc[t := Sleeping(op)];
  }

  lemma {:induction false} LockingEnds(q: Queue, t: TaskId, op: Op, pos: nat)
    requires Lists(q) && t in q.pc && q.pc[t] == Pre(op) && q.tx == -1 && q.rx == -1 && q.owner.None?
    requires t !in q.recvQ && t !in q.sendQ && Stuck(q, op) && pos <= |WaitList(q, op)|
    ensures Possible(q, LockingPath(t, pos)) && After(q, LockingPath(t, pos)) == AsleepAt(q, t, op, pos)
  {
    var q1 := LockedBy(q, t);
    var q2 := Checked(q1, t, false);
    assert q2 == At(q1, t, Seen(op));
    AtLists(q, t, Locked(op));
    AtLists(q1, t, Seen(op));
    PlacingEnds(q2, t, op, pos);
    Cons(q1, Check(t, false), q2, PlacingPath(t, pos));
    Cons(q, Lock(t), q1, CheckingPath(t, pos));
    assert q2.pc[t := Sleeping(op)] == q.pc[t := Sleeping(op)];
  }

  /** A failed attempt of a patient call. */
  lemma {:induction false} FailsPatiently(q: Queue, t: TaskId, op: Op)
    requires Inv(q) && Enabled(q, Attempt(t, true)) && q.pc[t] == Try(op) && Stuck(q, op)
    ensures Lists(q) && t !in q.recvQ && t !in q.sendQ && q.tx == -1 && q.rx == -1
    ensures Apply(q, Attempt(t, true)) == At(q, t, Pre(op)).(
      wokenR := if op.Reads() then q.wokenR - {t} else q.wokenR, wokenS := if op.Reads() then q.wokenS else q.wokenS - {t})
  {
    assert TaskOk(q, t);
  }

  /** A patient call that nothing disturbs parks exactly if there is nothing for it: it then
      ends asleep, in its wait list, with the queue unlocked and its items as they were;
      otherwise it is served at once. */
  lemma {:induction false} ParksIff(q: Queue, t: TaskId, op: Op, pos: nat)
    requires Inv(q) && Enabled(q, Attempt(t, true)) && q.pc[t] == Try(op) && pos <= |WaitList(q, op)|
    ensures Possible(q, WaitingPath(t, pos)) <==> Stuck(q, op)
    ensures Stuck(q, op) ==>
      var end := After(q, WaitingPath(t, pos));
      && t in end.pc && end.pc[t] == Sleeping(op) && end.n == q.n && end.owner.None?
      && WaitList(end, op) == WaitList(q, op)[..pos] + [t] + WaitList(q, op)[pos..]
    ensures !Stuck(q, op) ==> t in Apply(q, Attempt(t, true)).pc && Apply(q, Attempt(t, true)).pc[t] == Out
  {
    OnlyThen(q, Attempt(t, true), LockingPath(t, pos));
    var q1 := Apply(q, Attempt(t, true));
    if Stuck(q, op) {
      FailsPatiently(q, t, op);
      AtLists(q, t, Pre(op));
      LockingEnds(q1, t, op, pos);
      Cons(q, Attempt(t, true), q1, LockingPath(t, pos));
    } else {
      ServedLeaves(q, t, op);
      OnlyThen(q1, Lock(t), CheckingPath(t, pos));
    }
  }

  /** The way of a parked call whose time is up, once it runs again. */
  function ExpiredPath(t: TaskId): seq<Step> { [Expire(t)] + ([Attempt(t, true)] + ([Lock(t)] + ([Check(t, true)] + LeavingPath(t)))) }

  function LeavingPath(t: TaskId): seq<Step> { [DoUnlockTx(t)] + ([DoUnlockRx(t)] + [Finish(t)]) }

  lemma {:induction false} LeavingEnds(q: Queue, t: TaskId, op: Op)
    requires Lists(q) && t in q.pc && q.pc[t] == Unlocking(op, UnlockTx, false, true) && q.tx == 0 && q.rx == 0
    requires t !in WaitList(q, op)
    ensures Possible(q, LeavingPath(t))
    ensures After(q, LeavingPath(t)) == At(q, t, if op.Reads() then Leaving(op) else Out).(tx := -1, rx := -1, owner := None)
  {
    var q1, q2 := TxUnlocked(q, t), RxUnlocked(TxUnlocked(q, t), t);
    assert q1 == At(q, t, Unlocking(op, UnlockRx, false, true)).(tx := -1);
    assert q2 == At(q1, t, Unlocking(op, Unlocked, false, true)).(rx := -1);
    AtLists(q, t, Unlocking(op, UnlockRx, false, true));
    AtLists(q1, t, Unlocking(op, Unlocked, false, true));
    var q3 := Finished(q2, t);
    Cons(q2, Finish(t), q3, []);
    assert [Finish(t)] + [] == [Finish(t)];
    Cons(q1, DoUnlockRx(t), q2, [Finish(t)]);
    Cons(q, DoUnlockTx(t), q1, [DoUnlockRx(t)] + [Finish(t)]);
    assert q3.pc == q.pc[t := if op.Reads() then Leaving(op) else Out];
  }

  lemma {:induction false} ExpiredEnds(q: Queue, t: TaskId, op: Op)
    requires Lists(q) && t in q.pc && q.pc[t] == Pre(op) && q.tx == -1 && q.rx == -1 && q.owner.None?
    requires t !in WaitList(q, op)
    ensures Possible(q, [Lock(t)] + ([Check(t, true)] + LeavingPath(t)))
    ensures After(q, [Lock(t)] + ([Check(t, true)] + LeavingPath(t))) == At(q, t, if op.Reads() then Leaving(op) else Out)
  {
    var q1 := LockedBy(q, t);
    var q2 := Checked(q1, t, true);
    assert q2 == At(q1, t, Unlocking(op, UnlockTx, false, true));
    AtLists(q, t, Locked(op));
    AtLists(q1, t, Unlocking(op, UnlockTx, false, true));
    LeavingEnds(q2, t, op);
    Cons(q1, Check(t, true), q2, LeavingPath(t));
    Cons(q, Lock(t), q1, [Check(t, true)] + LeavingPath(t));
    var last := if op.Reads() then Leaving(op) else Out;
    assert q2.pc[t := last] == q.pc[t := last];
  }

  /** A parked call whose time is up while there is still nothing for it leaves its wait list,
      tries once more and returns, a reader after a last look, with the queue as it was. */
  lemma {:induction false} ExpiredCallReturns(q: Queue, t: TaskId, op: Op)
    requires Inv(q) && Enabled(q, Expire(t)) && q.pc[t] == Sleeping(op) && Stuck(q, op)
    ensures Possible(q, ExpiredPath(t))
    ensures var e := After(q, ExpiredPath(t));
      && t in e.pc && e.n == q.n && e.owner.None? && t !in e.recvQ && t !in e.sendQ
      && if op.Reads() then Lists(e) && Enabled(e, Leave(t)) && Apply(e, Leave(t)).pc[t] == Out else e.pc[t] == Out
  {
    assert TaskOk(q, t);
    var q1 := Apply(q, Expire(t));
    StepKeepsInv(q, Expire(t));
    var q2 := Apply(q1, Attempt(t, true));
    FailsPatiently(q1, t, op);
    AtLists(q1, t, Pre(op));
    ExpiredEnds(q2, t, op);
    var last := if op.Reads() then Leaving(op) else Out;
    AtLists(q2, t, last);
    Cons(q1, Attempt(t, true), q2, [Lock(t)] + ([Check(t, true)] + LeavingPath(t)));
    Cons(q, Expire(t), q1, [Attempt(t, true)] + ([Lock(t)] + ([Check(t, true)] + LeavingPath(t))));
  }

  lemma {:induction false} ServedLeaves(q: Queue, t: TaskId, op: Op)
    requires Inv(q) && Enabled(q, Attempt(t, true)) && q.pc[t] == Try(op) && !Stuck(q, op)
    ensures t in Apply(q, Attempt(t, true)).pc && Apply(q, Attempt(t, true)).pc[t] == Out
  {
    assert TaskOk(q, t);
  }

  // ---------------------------------------------------------------------
  // Items
  // ---------------------------------------------------------------------

  /** The step is an attempt that is served. */
  predicate Serves(q: Queue, s: Step) {
    s.Attempt? && s.t in q.pc && q.pc[s.t].Try? && !Stuck(q, q.pc[s.t].op)
  }

  /** How many items the step adds. */
  function Puts(q: Queue, s: Step): nat {
    if s.IsrSend? then (if s.overwrite && q.n > 0 then 0 else 1)
    else if Serves(q, s) && q.pc[s.t].op.Send? then 1
    else if Serves(q, s) && q.pc[s.t].op.Overwrite? && q.n == 0 then 1
    else 0
  }

  /** How many it takes away. */
  function Gets(q: Queue, s: Step): nat {
    if s.IsrReceive? || (Serves(q, s) && q.pc[s.t].op.Receive?) then 1 else 0
  }

  lemma {:induction false} ReceiversKeepItems(q: Queue, k: nat)
    requires forall t :: t in q.recvQ ==> t in q.pc
    ensures WakeReceivers(q, k).n == q.n
    decreases k
  {
    if k > 0 && q.recvQ != [] {
      ReceiversKeepItems(WakeReceiver(q), k - 1);
    }
  }

  lemma {:induction false} SendersKeepItems(q: Queue, k: nat)
    requires forall t :: t in q.sendQ ==> t in q.pc
    ensures WakeSenders(q, k).n == q.n
    decreases k
  {
    if k > 0 && q.sendQ != [] {
      SendersKeepItems(WakeSender(q), k - 1);
    }
  }

  /** A step adds and takes away as many items as it says. */
  lemma {:induction false} StepItems(q: Queue, s: Step)
    requires Lists(q) && q.n <= q.len && Enabled(q, s)
    ensures Apply(q, s).n + Gets(q, s) == q.n + Puts(q, s)
  {
    match s
    case DoUnlockTx(t) => ReceiversKeepItems(At(q, t, q.pc[t].(stage := UnlockRx)).(tx := -1), Pos(q.tx));
    case DoUnlockRx(t) => SendersKeepItems(At(q, t, q.pc[t].(stage := Unlocked)).(rx := -1), Pos(q.rx));
    case Attempt(t, waits) => AttemptItems(q, t, waits);
    case _ =>
  }

  lemma {:induction false} AttemptItems(q: Queue, t: TaskId, waits: bool)
    requires Lists(q) && q.n <= q.len && Enabled(q, Attempt(t, waits))
    ensures Attempted(q, t, waits).n + Gets(q, Attempt(t, waits)) == q.n + Puts(q, Attempt(t, waits))
  {
  }

  ghost function AllPuts(q: Queue, steps: seq<Step>): nat
    requires Possible(q, steps)
    decreases |steps|
  {
    if steps == [] then 0 else Puts(q, steps[0]) + AllPuts(Apply(q, steps[0]), steps[1..])
  }

  ghost function AllGets(q: Queue, steps: seq<Step>): nat
    requires Possible(q, steps)
    decreases |steps|
  {
    if steps == [] then 0 else Gets(q, steps[0]) + AllGets(Apply(q, steps[0]), steps[1..])
  }

  /** Conservation: over every interleaving of tasks and interrupts, what has been received and
      what is left are what was there and what has been sent; and the queue never holds more
      than its length. */
  lemma {:induction false} ItemsConserved(q: Queue, steps: seq<Step>)
    requires Inv(q) && Possible(q, steps)
    ensures After(q, steps).n + AllGets(q, steps) == q.n + AllPuts(q, steps)
    ensures After(q, steps).n <= After(q, steps).len
    decreases |steps|
  {
    if steps != [] {
      StepKeepsInv(q, steps[0]);
      StepItems(q, steps[0]);
      ItemsConserved(Apply(q, steps[0]), steps[1..]);
    }
  }

  // ---------------------------------------------------------------------
  // What a call returns
  // ---------------------------------------------------------------------

  /** A task's place in its call is changed by others only in that they rouse it. */
  predicate Same(p: Pc, r: Pc) { r == p || (p.Sleeping? && r == Try(p.op)) }

  lemma {:induction false} ReceiversOnlyRouse(q: Queue, k: nat, t: TaskId)
    requires t in q.pc && forall x :: x in q.recvQ ==> x in q.pc
    ensures t in WakeReceivers(q, k).pc && Same(q.pc[t], WakeReceivers(q, k).pc[t])
    decreases k
  {
    if k > 0 && q.recvQ != [] {
      ReceiversOnlyRouse(WakeReceiver(q), k - 1, t);
    }
  }

  lemma {:induction false} SendersOnlyRouse(q: Queue, k: nat, t: TaskId)
    requires t in q.pc && forall x :: x in q.sendQ ==> x in q.pc
    ensures t in WakeSenders(q, k).pc && Same(q.pc[t], WakeSenders(q, k).pc[t])
    decreases k
  {
    if k > 0 && q.sendQ != [] {
      SendersOnlyRouse(WakeSender(q), k - 1, t);
    }
  }

  /** The step is one of task `t` itself, or its timeout. */
  predicate Moves(s: Step, t: TaskId) { !s.IsrSend? && !s.IsrReceive? && s.t == t }

  lemma {:induction false} OthersOnlyRouse(q: Queue, s: Step, t: TaskId)
    requires Inv(q) && Enabled(q, s) && t in q.pc && !Moves(s, t)
    ensures t in Apply(q, s).pc && Same(q.pc[t], Apply(q, s).pc[t])
  {
    match s
    case DoUnlockTx(x) => ReceiversOnlyRouse(At(q, x, q.pc[x].(stage := UnlockRx)).(tx := -1), Pos(q.tx), t);
    case DoUnlockRx(x) => SendersOnlyRouse(At(q, x, q.pc[x].(stage := Unlocked)).(rx := -1), Pos(q.rx), t);
    case Attempt(x, waits) => AttemptOnlyRouses(q, x, waits, t);
    case _ =>
  }

  lemma {:induction false} AttemptOnlyRouses(q: Queue, x: TaskId, waits: bool, t: TaskId)
    requires Lists(q) && t in q.pc && x in q.pc && q.pc[x].Try? && x != t
    ensures t in Attempted(q, x, waits).pc && Same(q.pc[t], Attempted(q, x, waits).pc[t])
  {
  }

  /** Where an attempt takes its task. */
  lemma {:induction false} AttemptMoves(q: Queue, t: TaskId, waits: bool)
    requires Structure(q) && Enabled(q, Attempt(t, waits))
    ensures t in Attempted(q, t, waits).pc
    ensures Attempted(q, t, waits).pc[t] == if Stuck(q, q.pc[t].op) && waits then Pre(q.pc[t].op) else Out
  {
    assert TaskOk(q, t);
  }

  /** Where the two unlock steps leave their task. */
  lemma {:induction false} UnlockMoves(q: Queue, s: Step, t: TaskId)
    requires Inv(q) && Enabled(q, s) && (s == DoUnlockTx(t) || s == DoUnlockRx(t))
    ensures t in Apply(q, s).pc && Apply(q, s).pc[t] == q.pc[t].(stage := if s.DoUnlockTx? then UnlockRx else Unlocked)
  {
    if s.DoUnlockTx? {
      ReceiversOnlyRouse(At(q, t, q.pc[t].(stage := UnlockRx)).(tx := -1), Pos(q.tx), t);
    } else {
      SendersOnlyRouse(At(q, t, q.pc[t].(stage := Unlocked)).(rx := -1), Pos(q.rx), t);
    }
  }

  /** A call ends exactly when it is served, when it finds nothing and does not wait, or when its
      time is up: a sender's at once, a reader's if the queue is still empty. */
  lemma {:induction false} EndsIff(q: Queue, s: Step, t: TaskId)
    requires Inv(q) && Enabled(q, s) && t in q.pc && q.pc[t] != Out
    ensures t in Apply(q, s).pc
    ensures Apply(q, s).pc[t] == Out <==>
      || (Serves(q, s) && s.t == t)
      || (s == Attempt(t, false) && Stuck(q, q.pc[t].op))
      || (s == Finish(t) && q.pc[t].expired && q.pc[t].op.Send?)
      || (s == Leave(t) && q.n == 0)
  {
    assert TaskOk(q, t);
    if !Moves(s, t) {
      OthersOnlyRouse(q, s, t);
    } else {
      match s
      case Attempt(_, waits) => AttemptMoves(q, t, waits);
      case DoUnlockTx(_) => UnlockMoves(q, s, t);
      case DoUnlockRx(_) => UnlockMoves(q, s, t);
      case _ =>
    }
  }

  /** The call has not been told that its time is up. */
  predicate Patient(p: Pc) { !p.Leaving? && !(p.Unlocking? && p.expired) }

  /** The call says that it does not wait, or finds that its time is up. */
  predicate Despairs(s: Step, t: TaskId) { s == Attempt(t, false) || s == Check(t, true) }

  function Count(b: bool): nat { if b then 1 else 0 }

  lemma {:induction false} CallStep(q: Queue, s: Step, t: TaskId)
    requires Inv(q) && Enabled(q, s) && t in q.pc && Patient(q.pc[t]) && !Despairs(s, t)
    ensures t in Apply(q, s).pc && Patient(Apply(q, s).pc[t])
    ensures Count(Serves(q, s) && s.t == t) + Count(Apply(q, s).pc[t] != Out) ==
      Count(q.pc[t] != Out) + Count(s.Start? && s.t == t)
  {
    assert TaskOk(q, t);
    if !Moves(s, t) {
      OthersOnlyRouse(q, s, t);
    } else {
      match s
      case Attempt(_, waits) => AttemptMoves(q, t, waits);
      case DoUnlockTx(_) => UnlockMoves(q, s, t);
      case DoUnlockRx(_) => UnlockMoves(q, s, t);
      case _ =>
    }
  }

  /** How many calls `t` begins, and how many of its attempts are served, in a run. */
  ghost function Started(steps: seq<Step>, t: TaskId): nat
    decreases |steps|
  {
    if steps == [] then 0 else Count(steps[0].Start? && steps[0].t == t) + Started(steps[1..], t)
  }

  ghost function Served(q: Queue, steps: seq<Step>, t: TaskId): nat
    requires Possible(q, steps)
    decreases |steps|
  {
    if steps == [] then 0
    else Count(Serves(q, steps[0]) && steps[0].t == t) + Served(Apply(q, steps[0]), steps[1..], t)
  }

  /** A call that waits, and whose time is never up, returns only when it has been served, and is
      served once: over every interleaving the calls begun are those served and the one still
      going on. */
  lemma {:induction false} PatientCallsAreServed(q: Queue, steps: seq<Step>, t: TaskId)
    requires Inv(q) && Possible(q, steps) && t in q.pc && Patient(q.pc[t])
    requires forall s :: s in steps ==> !Despairs(s, t)
    ensures t in After(q, steps).pc
    ensures Served(q, steps, t) + Count(After(q, steps).pc[t] != Out) == Count(q.pc[t] != Out) + Started(steps, t)
    decreases |steps|
  {
    if steps != [] {
      assert steps[0] in steps;
      StepKeepsInv(q, steps[0]);
      CallStep(q, steps[0], t);
      PatientCallsAreServed(Apply(q, steps[0]), steps[1..], t);
    }
  }

  // ---------------------------------------------------------------------
  // Nobody is woken for nothing
  // ---------------------------------------------------------------------

  /** The step makes an item known that a receiver may be waiting for; a peek leaves it there. */
  predicate Posts(q: Queue, s: Step) { s.IsrSend? || (Serves(q, s) && !q.pc[s.t].op.Receive?) }

  /** The step makes a free slot known. */
  predicate Frees(q: Queue, s: Step) { s.IsrReceive? || (Serves(q, s) && q.pc[s.t].op.Receive?) }

  /** Who has left a wait list: the first of it, in order, and they are woken. */
  ghost predicate LeftInOrder(was: seq<TaskId>, now: seq<TaskId>, woken: set<TaskId>) {
    && |now| <= |was| && now == was[|was| - |now|..]
    && forall i :: 0 <= i < |was| - |now| ==> was[i] in woken
  }

  lemma {:induction false} ReceiversInOrder(q: Queue, k: nat)
    requires forall x :: x in q.recvQ ==> x in q.pc
    ensures var r := WakeReceivers(q, k);
      && LeftInOrder(q.recvQ, r.recvQ, r.wokenR) && |q.recvQ| - |r.recvQ| <= k
      && r.tx == q.tx && q.wokenR <= r.wokenR
    decreases k
  {
    if k > 0 && q.recvQ != [] {
      ReceiversInOrder(WakeReceiver(q), k - 1);
    }
  }

  lemma {:induction false} SendersInOrder(q: Queue, k: nat)
    requires forall x :: x in q.sendQ ==> x in q.pc
    ensures var r := WakeSenders(q, k);
      && LeftInOrder(q.sendQ, r.sendQ, r.wokenS) && |q.sendQ| - |r.sendQ| <= k
      && r.rx == q.rx && q.wokenS <= r.wokenS
    decreases k
  {
    if k > 0 && q.sendQ != [] {
      SendersInOrder(WakeSender(q), k - 1);
    }
  }

  lemma {:induction false} ReceiversKeepSenders(q: Queue, k: nat)
    requires forall x :: x in q.recvQ ==> x in q.pc
    ensures WakeReceivers(q, k).sendQ == q.sendQ && WakeReceivers(q, k).rx == q.rx
    decreases k
  {
    if k > 0 && q.recvQ != [] {
      ReceiversKeepSenders(WakeReceiver(q), k - 1);
    }
  }

  lemma {:induction false} SendersKeepReceivers(q: Queue, k: nat)
    requires forall x :: x in q.sendQ ==> x in q.pc
    ensures WakeSenders(q, k).recvQ == q.recvQ && WakeSenders(q, k).tx == q.tx
    decreases k
  {
    if k > 0 && q.sendQ != [] {
      SendersKeepReceivers(WakeSender(q), k - 1);
    }
  }

  /** The step changes the wait list of `t`'s kind for `t`'s own sake: it parks or times out. */
  predicate Own(s: Step) { s.Place? || s.Expire? }

  /** Receivers leave their list in order, and one leaves, now or when the queue is unlocked,
      for one item posted. */
  lemma {:induction false} StepWakesReceivers(q: Queue, s: Step)
    requires Lists(q) && q.n <= q.len && Enabled(q, s) && !Own(s)
    ensures var e := Apply(q, s);
      && LeftInOrder(q.recvQ, e.recvQ, e.wokenR)
      && |q.recvQ| - |e.recvQ| + Pos(e.tx) <= Count(Posts(q, s)) + Pos(q.tx)
  {
    match s
    case DoUnlockTx(x) => ReceiversInOrder(At(q, x, q.pc[x].(stage := UnlockRx)).(tx := -1), Pos(q.tx));
    case DoUnlockRx(x) => SendersKeepReceivers(At(q, x, q.pc[x].(stage := Unlocked)).(rx := -1), Pos(q.rx));
    case Attempt(t, waits) =>
      AttemptWakes(q, t, waits);
      OneInOrder(q.recvQ, Attempted(q, t, waits).recvQ, Attempted(q, t, waits).wokenR, Posts(q, s));
    case _ =>
  }

  /** The first has left, or nobody. */
  predicate OneLeft(was: seq<TaskId>, now: seq<TaskId>, woken: set<TaskId>, one: bool) {
    if one && was != [] then now == was[1..] && was[0] in woken else now == was
  }

  lemma {:induction false} OneInOrder(was: seq<TaskId>, now: seq<TaskId>, woken: set<TaskId>, one: bool)
    requires OneLeft(was, now, woken, one)
    ensures LeftInOrder(was, now, woken) && |was| - |now| <= Count(one)
  {
  }

  /** An attempt wakes the first receiver if it posts an item, the first sender if it frees a
      slot, and nobody else. */
  lemma {:induction false} AttemptWakes(q: Queue, t: TaskId, waits: bool)
    requires Lists(q) && t in q.pc && q.pc[t].Try? && q.n <= q.len
    ensures var s, e := Attempt(t, waits), Attempted(q, t, waits);
      && OneLeft(q.recvQ, e.recvQ, e.wokenR, Posts(q, s)) && OneLeft(q.sendQ, e.sendQ, e.wokenS, Frees(q, s))
      && e.tx == q.tx && e.rx == q.rx
  {
  }

  lemma {:induction false} StepWakesSenders(q: Queue, s: Step)
    requires Lists(q) && q.n <= q.len && Enabled(q, s) && !Own(s)
    ensures var e := Apply(q, s);
      && LeftInOrder(q.sendQ, e.sendQ, e.wokenS)
      && |q.sendQ| - |e.sendQ| + Pos(e.rx) <= Count(Frees(q, s)) + Pos(q.rx)
  {
    match s
    case DoUnlockTx(x) => ReceiversKeepSenders(At(q, x, q.pc[x].(stage := UnlockRx)).(tx := -1), Pos(q.tx));
    case DoUnlockRx(x) => SendersInOrder(At(q, x, q.pc[x].(stage := Unlocked)).(rx := -1), Pos(q.rx));
    case Attempt(t, waits) =>
      AttemptWakes(q, t, waits);
      OneInOrder(q.sendQ, Attempted(q, t, waits).sendQ, Attempted(q, t, waits).wokenS, Frees(q, s));
    case _ =>
  }

  /** How many receivers, and how many senders, events take off their lists in a run. */
  ghost function Woken(q: Queue, steps: seq<Step>, receivers: bool): int
    requires Possible(q, steps)
    decreases |steps|
  {
    if steps == [] then 0
    else
      var e := Apply(q, steps[0]);
      (if Own(steps[0]) then 0 else if receivers then |q.recvQ| - |e.recvQ| else |q.sendQ| - |e.sendQ|)
      + Woken(e, steps[1..], receivers)
  }

  ghost function Events(q: Queue, steps: seq<Step>, receivers: bool): nat
    requires Possible(q, steps)
    decreases |steps|
  {
    if steps == [] then 0
    else Count(if receivers then Posts(q, steps[0]) else Frees(q, steps[0])) + Events(Apply(q, steps[0]), steps[1..], receivers)
  }

  lemma {:induction false} OwnKeepsCounts(q: Queue, s: Step)
    requires Lists(q) && Enabled(q, s) && Own(s)
    ensures Apply(q, s).tx == q.tx && Apply(q, s).rx == q.rx && !Posts(q, s) && !Frees(q, s)
  {
  }

  /** Over every interleaving no more receivers are woken than items were posted, and no more
      senders than slots were freed, those still counted by the lock included. */
  lemma {:induction false} NoneWokenForNothing(q: Queue, steps: seq<Step>)
    requires Inv(q) && Possible(q, steps)
    ensures Woken(q, steps, true) + Pos(After(q, steps).tx) <= Events(q, steps, true) + Pos(q.tx)
    ensures Woken(q, steps, false) + Pos(After(q, steps).rx) <= Events(q, steps, false) + Pos(q.rx)
    decreases |steps|
  {
    if steps != [] {
      StepKeepsInv(q, steps[0]);
      if Own(steps[0]) {
        OwnKeepsCounts(q, steps[0]);
      } else {
        StepWakesReceivers(q, steps[0]);
        StepWakesSenders(q, steps[0]);
      }
      NoneWokenForNothing(Apply(q, steps[0]), steps[1..]);
    }
  }
}
