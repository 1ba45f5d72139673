/** The blocking protocol of a queue: tasks that try, lock, re-check, park, unlock
    and sleep, with interrupts sending and receiving between any two critical
    sections. Only counts and wait lists are kept here; the item storage is the
    subject of module QueueStorage. A semaphore is a queue whose items carry no data:
    take is Receive and give is Send. */
module QueueBlocking {
  import opened Common

  type TaskId = nat

  datatype Op = Receive | Peek | Send | Overwrite
  {
    predicate Reads() { Receive? || Peek? }
  }

  datatype Stage = UnlockTx | UnlockRx | Unlocked

  /** Where a task is in xQueueReceive, xQueuePeek, xQueueSemaphoreTake or xQueueGenericSend. */
  datatype Pc =
    | Out
    | Try(op: Op)
    | Pre(op: Op)
    | Locked(op: Op)
    | Seen(op: Op)
    | Unlocking(op: Op, stage: Stage, placed: bool, expired: bool)
    | Sleeping(op: Op)
    | Leaving(op: Op)
  {
    /** The task has suspended the scheduler and locked the queue. */
    predicate InLock() { Locked? || Seen? || Unlocking? }
    /** The task may be on, or may just have left, a wait list. */
    predicate MayWait(receiving: bool) {
      (Sleeping? || (Unlocking? && placed)) && op.Reads() == receiving && !op.Overwrite?
    }
    predicate MayRetry(receiving: bool) {
      (Try? || (Unlocking? && placed)) && op.Reads() == receiving && !op.Overwrite?
    }
  }

  /** `wokenR` and `wokenS` remember who was taken off a wait list by an event and
      has not yet run its next attempt. Lock counts are -1 when unlocked. */
  datatype Queue = Queue(
    n: nat,
    len: nat,
    recvQ: seq<TaskId>,
    sendQ: seq<TaskId>,
    tx: int,
    rx: int,
    pc: map<TaskId, Pc>,
    owner: Option<TaskId>,
    wokenR: set<TaskId>,
    wokenS: set<TaskId>)

  function Pos(x: int): nat { if x < 0 then 0 else x }

  // ---------------------------------------------------------------------
  // Building blocks
  // ---------------------------------------------------------------------

  /** A task taken off a wait list goes back to the top of its loop, unless it is
      still on its way out of the locked section. */
  function Roused(p: Pc): Pc { if p.Sleeping? then Try(p.op) else p }

  function WakeReceiver(q: Queue): Queue
    requires q.recvQ != [] ==> q.recvQ[0] in q.pc
  {
    if q.recvQ == [] then q
    else
      var h := q.recvQ[0];
      q.(recvQ := q.recvQ[1..], wokenR := q.wokenR + {h}, pc := q.pc[h := Roused(q.pc[h])])
  }

  function WakeSender(q: Queue): Queue
    requires q.sendQ != [] ==> q.sendQ[0] in q.pc
  {
    if q.sendQ == [] then q
    else
      var h := q.sendQ[0];
      q.(sendQ := q.sendQ[1..], wokenS := q.wokenS + {h}, pc := q.pc[h := Roused(q.pc[h])])
  }

  /** The lock counts are capped at the number of tasks. */
  function Bumped(lock: int, tasks: nat): int { if lock < tasks then lock + 1 else lock }

  /** What follows an added item: wake a receiver, or note it for the unlocker. */
  function Posted(q: Queue): Queue
    requires q.recvQ != [] ==> q.recvQ[0] in q.pc
  {
    if q.tx == -1 then WakeReceiver(q) else q.(tx := Bumped(q.tx, |q.pc|))
  }

  function Drained(q: Queue): Queue
    requires q.sendQ != [] ==> q.sendQ[0] in q.pc
  {
    if q.rx == -1 then WakeSender(q) else q.(rx := Bumped(q.rx, |q.pc|))
  }

  /** The wake loop of the unlock: at most `k` receivers, fewer if the list runs out. */
  function WakeReceivers(q: Queue, k: nat): Queue
    requires forall t :: t in q.recvQ ==> t in q.pc
    decreases k
  {
    if k == 0 || q.recvQ == [] then q else WakeReceivers(WakeReceiver(q), k - 1)
  }

  function WakeSenders(q: Queue, k: nat): Queue
    requires forall t :: t in q.sendQ ==> t in q.pc
    decreases k
  {
    if k == 0 || q.sendQ == [] then q else WakeSenders(WakeSender(q), k - 1)
  }

  // ---------------------------------------------------------------------
  // The invariant
  // ---------------------------------------------------------------------

  ghost predicate TaskOk(q: Queue, t: TaskId)
    requires t in q.pc
  {
    && (t in q.recvQ ==> q.pc[t].MayWait(true) && t !in q.wokenR)
    && (t in q.sendQ ==> q.pc[t].MayWait(false) && t !in q.wokenS)
    && (t in q.wokenR ==> q.pc[t].MayRetry(true))
    && (t in q.wokenS ==> q.pc[t].MayRetry(false))
    && (q.pc[t].Sleeping? ==> t in (if q.pc[t].op.Reads() then q.recvQ else q.sendQ))
    && (q.pc[t].InLock() <==> q.owner == Some(t))
    && (q.pc[t].Unlocking? ==> !(q.pc[t].placed && q.pc[t].expired))
    && (q.pc[t] != Out && q.pc[t].op.Overwrite? ==> q.len == 1 && q.pc[t].Try?)
  }

  ghost predicate Lists(q: Queue) {
    && NoDup(q.recvQ) && NoDup(q.sendQ)
    && (forall t :: t in q.recvQ ==> t in q.pc)
    && (forall t :: t in q.sendQ ==> t in q.pc)
    && q.wokenR <= q.pc.Keys && q.wokenS <= q.pc.Keys
  }

  ghost predicate Locks(q: Queue) {
    && -1 <= q.tx <= |q.pc| && -1 <= q.rx <= |q.pc|
    && (q.owner.None? ==> q.tx == q.rx == -1)
    && (q.owner.Some? ==>
          && q.owner.value in q.pc
          && var p := q.pc[q.owner.value];
             && p.InLock()
             && (q.tx == -1 <==> p.Unlocking? && p.stage != UnlockTx)
             && (q.rx == -1 <==> p.Unlocking? && p.stage == Unlocked))
  }

  ghost predicate Structure(q: Queue) {
    && 0 < q.len && q.n <= q.len
    && Lists(q) && Locks(q)
    && forall t :: t in q.pc ==> TaskOk(q, t)
  }

  /** No item is left unclaimed beside a parked receiver: each one is matched by a
      receiver that will still retry or by a pending unlock count. */
  ghost predicate RecvSafe(q: Queue) {
    q.recvQ != [] ==> q.n <= |q.wokenR| + Pos(q.tx) || q.tx >= |q.pc|
  }

  ghost predicate SendSafe(q: Queue) {
    q.sendQ != [] ==> q.len - q.n <= |q.wokenS| + Pos(q.rx) || q.rx >= |q.pc|
  }

  /** Between seeing the queue empty (full) and parking, whatever an interrupt adds
      (removes) is counted by the lock. */
  ghost predicate SeenSafe(q: Queue) {
    q.owner.Some? && q.owner.value in q.pc && q.pc[q.owner.value].Seen? ==>
      if q.pc[q.owner.value].op.Reads() then q.n <= Pos(q.tx) || q.tx >= |q.pc|
      else q.len - q.n <= Pos(q.rx) || q.rx >= |q.pc|
  }

  ghost predicate Inv(q: Queue) {
    Structure(q) && RecvSafe(q) && SendSafe(q) && SeenSafe(q)
  }

  // ---------------------------------------------------------------------
  // The steps
  // ---------------------------------------------------------------------

  datatype Step =
    | Start(t: TaskId, op: Op)
    | Attempt(t: TaskId, waits: bool)
    | Lock(t: TaskId)
    | Check(t: TaskId, expired: bool)
    | Place(t: TaskId, pos: nat)
    | DoUnlockTx(t: TaskId)
    | DoUnlockRx(t: TaskId)
    | Finish(t: TaskId)
    | Leave(t: TaskId)
    | Expire(t: TaskId)
    | IsrSend(overwrite: bool)
    | IsrReceive

  ghost predicate Enabled(q: Queue, s: Step) {
    match s
    case Start(t, op) => t in q.pc && q.pc[t].Out? && q.owner.None? && (op.Overwrite? ==> q.len == 1)
    case Attempt(t, _) => t in q.pc && q.pc[t].Try? && q.owner.None?
    case Lock(t) => t in q.pc && q.pc[t].Pre? && q.owner.None?
    case Check(t, _) => t in q.pc && q.pc[t].Locked?
    case Place(t, pos) => t in q.pc && q.pc[t].Seen? && pos <= |if q.pc[t].op.Reads() then q.recvQ else q.sendQ|
    case DoUnlockTx(t) => t in q.pc && q.pc[t].Unlocking? && q.pc[t].stage == UnlockTx
    case DoUnlockRx(t) => t in q.pc && q.pc[t].Unlocking? && q.pc[t].stage == UnlockRx
    case Finish(t) => t in q.pc && q.pc[t].Unlocking? && q.pc[t].stage == Unlocked
    case Leave(t) => t in q.pc && q.pc[t].Leaving? && q.owner.None?
    case Expire(t) => t in q.pc && q.pc[t].Sleeping? && q.owner.None?
    case IsrSend(overwrite) => if overwrite then q.len == 1 else q.n < q.len
    case IsrReceive => q.n > 0
  }

  function At(q: Queue, t: TaskId, p: Pc): Queue { q.(pc := q.pc[t := p]) }

  /** The critical section at the top of the loop. */
  function Attempted(q: Queue, t: TaskId, waits: bool): Queue
    requires t in q.pc && q.pc[t].Try?
    requires forall x :: x in q.recvQ || x in q.sendQ ==> x in q.pc
  {
    var op := q.pc[t].op;
    var failed := if waits then Pre(op) else Out;
    match op
    case Receive =>
      if q.n > 0 then WakeSender(At(q, t, Out).(n := q.n - 1, wokenR := q.wokenR - {t}))
      else At(q, t, failed).(wokenR := q.wokenR - {t})
    case Peek =>
      if q.n > 0 then WakeReceiver(At(q, t, Out).(wokenR := q.wokenR - {t}))
      else At(q, t, failed).(wokenR := q.wokenR - {t})
    case Send =>
      if q.n < q.len then WakeReceiver(At(q, t, Out).(n := q.n + 1, wokenS := q.wokenS - {t}))
      else At(q, t, failed).(wokenS := q.wokenS - {t})
    case Overwrite => WakeReceiver(At(q, t, Out).(n := if q.n == 0 then 1 else q.n))
  }

  function LockedBy(q: Queue, t: TaskId): Queue
    requires t in q.pc && q.pc[t].Pre?
  {
    At(q, t, Locked(q.pc[t].op)).(
      owner := Some(t),
      rx := if q.rx == -1 then 0 else q.rx,
      tx := if q.tx == -1 then 0 else q.tx)
  }

  /** After the timeout check: the caller parks only if the queue is still empty (full). */
  function Checked(q: Queue, t: TaskId, expired: bool): Queue
    requires t in q.pc && q.pc[t].Locked?
  {
    var op := q.pc[t].op;
    var stuck := if op.Reads() then q.n == 0 else q.n == q.len;
    At(q, t, if !expired && stuck then Seen(op) else Unlocking(op, UnlockTx, false, expired))
  }

  /** Sorted insertion puts the task somewhere in its list. */
  function Placed(q: Queue, t: TaskId, pos: nat): Queue
    requires t in q.pc && q.pc[t].Seen? && pos <= |if q.pc[t].op.Reads() then q.recvQ else q.sendQ|
  {
    var op := q.pc[t].op;
    var q1 := At(q, t, Unlocking(op, UnlockTx, true, false));
    if op.Reads() then q1.(recvQ := q.recvQ[..pos] + [t] + q.recvQ[pos..])
    else q1.(sendQ := q.sendQ[..pos] + [t] + q.sendQ[pos..])
  }

  function TxUnlocked(q: Queue, t: TaskId): Queue
    requires t in q.pc && q.pc[t].Unlocking? && forall x :: x in q.recvQ ==> x in q.pc
  {
    WakeReceivers(At(q, t, q.pc[t].(stage := UnlockRx)).(tx := -1), Pos(q.tx))
  }

  function RxUnlocked(q: Queue, t: TaskId): Queue
    requires t in q.pc && q.pc[t].Unlocking? && forall x :: x in q.sendQ ==> x in q.pc
  {
    WakeSenders(At(q, t, q.pc[t].(stage := Unlocked)).(rx := -1), Pos(q.rx))
  }

  /** The scheduler resumes: a parked task sleeps, a task taken off the list retries, and so
      does one that found the queue changed; a sender whose time is up leaves at once. */
  function Finished(q: Queue, t: TaskId): Queue
    requires t in q.pc && q.pc[t].Unlocking?
  {
    var op := q.pc[t].op;
    var parked := t in (if op.Reads() then q.recvQ else q.sendQ);
    var p := if parked then Sleeping(op)
             else if !q.pc[t].expired then Try(op)
             else if op.Reads() then Leaving(op) else Out;
    At(q, t, p).(owner := None)
  }

  /** A reader whose time is up leaves if the queue is empty and otherwise tries once more. */
  function Left(q: Queue, t: TaskId): Queue
    requires t in q.pc && q.pc[t].Leaving?
  {
    At(q, t, if q.n == 0 then Out else Try(q.pc[t].op))
  }

  ghost function Apply(q: Queue, s: Step): Queue
    requires Lists(q) && Enabled(q, s)
  {
    match s
    case Start(t, op) => At(q, t, Try(op))
    case Attempt(t, waits) => Attempted(q, t, waits)
    case Lock(t) => LockedBy(q, t)
    case Check(t, expired) => Checked(q, t, expired)
    case Place(t, pos) => Placed(q, t, pos)
    case DoUnlockTx(t) => TxUnlocked(q, t)
    case DoUnlockRx(t) => RxUnlocked(q, t)
    case Finish(t) => Finished(q, t)
    case Leave(t) => Left(q, t)
    case Expire(t) =>
      At(q, t, Try(q.pc[t].op)).(recvQ := Without(q.recvQ, t), sendQ := Without(q.sendQ, t))
    case IsrSend(overwrite) => Posted(q.(n := if overwrite && q.n > 0 then q.n else q.n + 1))
    case IsrReceive => Drained(q.(n := q.n - 1))
  }

  // ---------------------------------------------------------------------
  // Preservation
  // ---------------------------------------------------------------------

  lemma {:induction false} WakeReceiverStructure(q: Queue)
    requires Structure(q)
    ensures Structure(WakeReceiver(q)) && WakeReceiver(q).pc.Keys == q.pc.Keys
    ensures q.recvQ != [] ==> |WakeReceiver(q).wokenR| == |q.wokenR| + 1
  {
    if q.recvQ != [] {
      var h := q.recvQ[0];
      var q1 := WakeReceiver(q);
      assert h in q.recvQ && h !in q.recvQ[1..];
      assert q1.pc.Keys == q.pc.Keys;
      assert forall t :: t in q1.pc ==> TaskOk(q, t);
    }
  }

  lemma {:induction false} WakeSenderStructure(q: Queue)
    requires Structure(q)
    ensures Structure(WakeSender(q)) && WakeSender(q).pc.Keys == q.pc.Keys
    ensures q.sendQ != [] ==> |WakeSender(q).wokenS| == |q.wokenS| + 1
  {
    if q.sendQ != [] {
      var h := q.sendQ[0];
      var q1 := WakeSender(q);
      assert h in q.sendQ && h !in q.sendQ[1..];
      assert q1.pc.Keys == q.pc.Keys;
      assert forall t :: t in q1.pc ==> TaskOk(q, t);
    }
  }

  /** Waking one receiver settles one item too many. */
  lemma {:induction false} WakeReceiverInv(q: Queue)
    requires Structure(q) && SendSafe(q) && SeenSafe(q)
    requires q.recvQ != [] ==> q.n <= |q.wokenR| + Pos(q.tx) + 1 || q.tx >= |q.pc|
    ensures Inv(WakeReceiver(q))
  {
    WakeReceiverStructure(q);
    if q.owner.Some? {
      assert WakeReceiver(q).pc[q.owner.value] == q.pc[q.owner.value];
    }
  }

  lemma {:induction false} WakeSenderInv(q: Queue)
    requires Structure(q) && RecvSafe(q) && SeenSafe(q)
    requires q.sendQ != [] ==> q.len - q.n <= |q.wokenS| + Pos(q.rx) + 1 || q.rx >= |q.pc|
    ensures Inv(WakeSender(q))
  {
    WakeSenderStructure(q);
    if q.owner.Some? {
      assert WakeSender(q).pc[q.owner.value] == q.pc[q.owner.value];
    }
  }

  /** A step that only moves task `t` between phases off the wait lists. */
  lemma {:induction false} MoveStructure(q: Queue, t: TaskId, p: Pc, q1: Queue)
    requires Structure(q) && t in q.pc
    requires q1.recvQ == q.recvQ && q1.sendQ == q.sendQ && q1.len == q.len && q1.n <= q1.len
    requires q1.pc == q.pc[t := p]
    requires q1.wokenR == q.wokenR - {t} && q1.wokenS == q.wokenS - {t}
    requires t !in q.recvQ && t !in q.sendQ && !p.Sleeping?
    requires p != Out && p.op.Overwrite? ==> q.len == 1 && p.Try?
    requires p.Unlocking? ==> !(p.placed && p.expired)
    requires q.owner == None || q.owner == Some(t)
    requires q1.owner == (if p.InLock() then Some(t) else None)
    requires Locks(q1)
    ensures Structure(q1)
  {
    assert q1.pc.Keys == q.pc.Keys;
    forall x | x in q1.pc ensures TaskOk(q1, x) {
      assert TaskOk(q, x);
    }
  }

  lemma {:induction false} StartInv(q: Queue, t: TaskId, op: Op)
    requires Inv(q) && Enabled(q, Start(t, op))
    ensures Inv(Apply(q, Start(t, op)))
  {
    assert TaskOk(q, t);
    MoveStructure(q, t, Try(op), Apply(q, Start(t, op)));
  }

  lemma {:induction false} LockInv(q: Queue, t: TaskId)
    requires Inv(q) && Enabled(q, Lock(t))
    ensures Inv(LockedBy(q, t))
  {
    assert TaskOk(q, t);
    MoveStructure(q, t, Locked(q.pc[t].op), LockedBy(q, t));
  }

  lemma {:induction false} CheckInv(q: Queue, t: TaskId, expired: bool)
    requires Inv(q) && Enabled(q, Check(t, expired))
    ensures Inv(Checked(q, t, expired))
  {
    assert TaskOk(q, t);
    MoveStructure(q, t, Checked(q, t, expired).pc[t], Checked(q, t, expired));
  }

  /** Task `t`, woken or not, leaves its attempt with the queue holding `n` items. */
  lemma {:induction false} LeaveStructure(q: Queue, t: TaskId, p: Pc, n: nat)
    requires Structure(q) && t in q.pc && q.pc[t].Try? && q.owner.None? && n <= q.len
    requires p == Out || (p == Pre(q.pc[t].op) && !p.op.Overwrite?)
    ensures Structure(At(q, t, p).(n := n, wokenR := q.wokenR - {t}, wokenS := q.wokenS - {t}))
    ensures |At(q, t, p).pc| == |q.pc|
    ensures q.pc[t].op.Reads() ==> q.wokenS - {t} == q.wokenS
    ensures q.pc[t].op.Send? ==> q.wokenR - {t} == q.wokenR
    ensures q.pc[t].op.Overwrite? ==> q.wokenR - {t} == q.wokenR && q.wokenS - {t} == q.wokenS
  {
    assert TaskOk(q, t);
    MoveStructure(q, t, p, At(q, t, p).(n := n, wokenR := q.wokenR - {t}, wokenS := q.wokenS - {t}));
    assert At(q, t, p).pc.Keys == q.pc.Keys;
  }

  function Taken(q: Queue, t: TaskId): Queue
    requires q.n > 0
  {
    At(q, t, Out).(n := q.n - 1, wokenR := q.wokenR - {t}, wokenS := q.wokenS - {t})
  }

  lemma {:induction false} TakenStructure(q: Queue, t: TaskId)
    requires Structure(q) && t in q.pc && q.pc[t] == Try(Receive) && q.owner.None? && q.n > 0
    ensures Structure(Taken(q, t)) && q.wokenS - {t} == q.wokenS && |Taken(q, t).pc| == |q.pc|
  {
    LeaveStructure(q, t, Out, q.n - 1);
  }

  /** Before the wake-up: the freed slot is the one that may be unclaimed. */
  lemma {:induction false} TakenSafe(q: Queue, t: TaskId)
    requires RecvSafe(q) && q.owner.None? && q.n > 0 && |Taken(q, t).pc| == |q.pc|
    ensures RecvSafe(Taken(q, t)) && SeenSafe(Taken(q, t))
  {
    assert |q.wokenR - {t}| >= |q.wokenR| - 1;
  }

  lemma {:induction false} ReceiveInv(q: Queue, t: TaskId, waits: bool)
    requires Inv(q) && t in q.pc && q.pc[t] == Try(Receive) && q.owner.None? && q.n > 0
    ensures Inv(Attempted(q, t, waits))
  {
    TakenStructure(q, t);
    TakenSafe(q, t);
    WakeSenderInv(Taken(q, t));
    assert Attempted(q, t, waits) == WakeSender(Taken(q, t));
  }

  lemma {:induction false} PeekInv(q: Queue, t: TaskId, waits: bool)
    requires Inv(q) && t in q.pc && q.pc[t] == Try(Peek) && q.owner.None? && q.n > 0
    ensures Inv(Attempted(q, t, waits))
  {
    LeaveStructure(q, t, Out, q.n);
    var q1 := At(q, t, Out).(n := q.n, wokenR := q.wokenR - {t}, wokenS := q.wokenS - {t});
    assert Attempted(q, t, waits) == WakeReceiver(q1);
    WakeReceiverInv(q1);
  }

  function Sent(q: Queue, t: TaskId): Queue {
    At(q, t, Out).(n := q.n + 1, wokenR := q.wokenR - {t}, wokenS := q.wokenS - {t})
  }

  lemma {:induction false} SentStructure(q: Queue, t: TaskId)
    requires Structure(q) && t in q.pc && q.pc[t] == Try(Send) && q.owner.None? && q.n < q.len
    ensures Structure(Sent(q, t)) && q.wokenR - {t} == q.wokenR && |Sent(q, t).pc| == |q.pc|
  {
    LeaveStructure(q, t, Out, q.n + 1);
  }

  /** Before the wake-up: the sent item is the one that may be unclaimed. */
  lemma {:induction false} SentSafe(q: Queue, t: TaskId)
    requires SendSafe(q) && q.owner.None? && |Sent(q, t).pc| == |q.pc|
    ensures SendSafe(Sent(q, t)) && SeenSafe(Sent(q, t))
  {
    assert |q.wokenS - {t}| >= |q.wokenS| - 1;
  }

  lemma {:induction false} SendInv(q: Queue, t: TaskId, waits: bool)
    requires Inv(q) && t in q.pc && q.pc[t] == Try(Send) && q.owner.None? && q.n < q.len
    ensures Inv(Attempted(q, t, waits))
  {
    SentStructure(q, t);
    SentSafe(q, t);
    WakeReceiverInv(Sent(q, t));
    assert Attempted(q, t, waits) == WakeReceiver(Sent(q, t));
  }

  lemma {:induction false} OverwriteInv(q: Queue, t: TaskId, waits: bool)
    requires Inv(q) && t in q.pc && q.pc[t] == Try(Overwrite) && q.owner.None?
    ensures Inv(Attempted(q, t, waits))
  {
    var n := if q.n == 0 then 1 else q.n;
    assert TaskOk(q, t);
    LeaveStructure(q, t, Out, n);
    var q1 := At(q, t, Out).(n := n, wokenR := q.wokenR - {t}, wokenS := q.wokenS - {t});
    assert Attempted(q, t, waits) == WakeReceiver(q1);
    WakeReceiverInv(q1);
  }

  /** The failed attempt: nothing was there to claim. */
  lemma {:induction false} FailLeaves(q: Queue, t: TaskId, p: Pc)
    requires Inv(q) && t in q.pc && q.pc[t].Try? && q.owner.None?
    requires if q.pc[t].op.Reads() then q.n == 0 else q.pc[t].op.Send? && q.n == q.len
    requires p == Out || p == Pre(q.pc[t].op)
    ensures Inv(At(q, t, p).(n := q.n, wokenR := q.wokenR - {t}, wokenS := q.wokenS - {t}))
  {
    LeaveStructure(q, t, p, q.n);
  }

  lemma {:induction false} FailIs(q: Queue, t: TaskId, waits: bool, p: Pc)
    requires Structure(q) && t in q.pc && q.pc[t].Try? && q.owner.None?
    requires if q.pc[t].op.Reads() then q.n == 0 else q.pc[t].op.Send? && q.n == q.len
    requires p == if waits then Pre(q.pc[t].op) else Out
    ensures Attempted(q, t, waits) == At(q, t, p).(n := q.n, wokenR := q.wokenR - {t}, wokenS := q.wokenS - {t})
  {
    assert TaskOk(q, t);
    assert q.pc[t].op.Reads() ==> q.wokenS - {t} == q.wokenS;
    assert q.pc[t].op.Send? ==> q.wokenR - {t} == q.wokenR;
  }

  lemma {:induction false} FailInv(q: Queue, t: TaskId, waits: bool)
    requires Inv(q) && t in q.pc && q.pc[t].Try? && q.owner.None?
    requires if q.pc[t].op.Reads() then q.n == 0 else q.pc[t].op.Send? && q.n == q.len
    ensures Inv(Attempted(q, t, waits))
  {
    var p := if waits then Pre(q.pc[t].op) else Out;
    FailLeaves(q, t, p);
    FailIs(q, t, waits, p);
  }

  lemma {:induction false} AttemptInv(q: Queue, t: TaskId, waits: bool)
    requires Inv(q) && Enabled(q, Attempt(t, waits))
    ensures Inv(Attempted(q, t, waits))
  {
    match q.pc[t].op
    case Receive => if q.n > 0 { ReceiveInv(q, t, waits); } else { FailInv(q, t, waits); }
    case Peek => if q.n > 0 { PeekInv(q, t, waits); } else { FailInv(q, t, waits); }
    case Send => if q.n < q.len { SendInv(q, t, waits); } else { FailInv(q, t, waits); }
    case Overwrite => OverwriteInv(q, t, waits);
  }

  lemma {:induction false} IsrSendInv(q: Queue, overwrite: bool)
    requires Inv(q) && Enabled(q, IsrSend(overwrite))
    ensures Inv(Apply(q, IsrSend(overwrite)))
  {
    var q1 := q.(n := if overwrite && q.n > 0 then q.n else q.n + 1);
    PostStructure(q, q1);
    if q.tx == -1 {
      WakeReceiverInv(q1);
    }
  }

  lemma {:induction false} IsrReceiveInv(q: Queue)
    requires Inv(q) && Enabled(q, IsrReceive)
    ensures Inv(Apply(q, IsrReceive))
  {
    var q1 := q.(n := q.n - 1);
    PostStructure(q, q1);
    if q.rx == -1 {
      WakeSenderInv(q1);
    }
  }

  /** Changing the count, or a lock that is taken, does not touch the structure. */
  lemma {:induction false} PostStructure(q: Queue, q1: Queue)
    requires Structure(q) && q1 == q.(n := q1.n) && q1.n <= q.len
    ensures Structure(q1)
    ensures q.tx >= 0 ==> Structure(q1.(tx := Bumped(q.tx, |q.pc|)))
    ensures q.rx >= 0 ==> Structure(q1.(rx := Bumped(q.rx, |q.pc|)))
  {
    assert forall t :: t in q.pc ==> TaskOk(q, t);
  }

  // Unlocking

  /** How waking `k` receivers has changed the queue: that many have been woken, or nobody is left. */
  ghost predicate ReceiversWoken(q: Queue, k: nat, r: Queue) {
    && Structure(r)
    && r == q.(recvQ := r.recvQ, wokenR := r.wokenR, pc := r.pc)
    && r.pc.Keys == q.pc.Keys
    && (q.owner.Some? && q.owner.value in q.pc ==> r.pc[q.owner.value] == q.pc[q.owner.value])
    && (r.recvQ != [] ==> |r.wokenR| == |q.wokenR| + k && |q.recvQ| == |r.recvQ| + k)
  }

  lemma {:induction false} OneReceiverWoken(q: Queue)
    requires Structure(q) && q.recvQ != []
    ensures ReceiversWoken(q, 1, WakeReceiver(q)) && |WakeReceiver(q).recvQ| == |q.recvQ| - 1
  {
    WakeReceiverStructure(q);
    assert q.recvQ[0] in q.recvQ;
    if q.owner.Some? {
      assert TaskOk(q, q.recvQ[0]);
    }
  }

  lemma {:induction false} WakeReceiversWakes(q: Queue, k: nat)
    requires Structure(q)
    ensures ReceiversWoken(q, k, WakeReceivers(q, k))
    decreases k
  {
    if k > 0 && q.recvQ != [] {
      var q1 := WakeReceiver(q);
      OneReceiverWoken(q);
      WakeReceiversWakes(q1, k - 1);
      ReceiversWokenOn(q, q1, k - 1, WakeReceivers(q1, k - 1));
    }
  }

  lemma {:induction false} ReceiversWokenOn(q: Queue, q1: Queue, k: nat, r: Queue)
    requires ReceiversWoken(q, 1, q1) && ReceiversWoken(q1, k, r) && |q1.recvQ| == |q.recvQ| - 1
    requires r.recvQ != [] ==> q1.recvQ != []
    ensures ReceiversWoken(q, k + 1, r)
  {
  }

  /** How waking `k` senders has changed the queue: that many have been woken, or nobody is left. */
  ghost predicate SendersWoken(q: Queue, k: nat, r: Queue) {
    && Structure(r)
    && r == q.(sendQ := r.sendQ, wokenS := r.wokenS, pc := r.pc)
    && r.pc.Keys == q.pc.Keys
    && (q.owner.Some? && q.owner.value in q.pc ==> r.pc[q.owner.value] == q.pc[q.owner.value])
    && (r.sendQ != [] ==> |r.wokenS| == |q.wokenS| + k && |q.sendQ| == |r.sendQ| + k)
  }

  lemma {:induction false} OneSenderWoken(q: Queue)
    requires Structure(q) && q.sendQ != []
    ensures SendersWoken(q, 1, WakeSender(q)) && |WakeSender(q).sendQ| == |q.sendQ| - 1
  {
    WakeSenderStructure(q);
    assert q.sendQ[0] in q.sendQ;
    if q.owner.Some? {
      assert TaskOk(q, q.sendQ[0]);
    }
  }

  lemma {:induction false} WakeSendersWakes(q: Queue, k: nat)
    requires Structure(q)
    ensures SendersWoken(q, k, WakeSenders(q, k))
    decreases k
  {
    if k > 0 && q.sendQ != [] {
      var q1 := WakeSender(q);
      OneSenderWoken(q);
      WakeSendersWakes(q1, k - 1);
      SendersWokenOn(q, q1, k - 1, WakeSenders(q1, k - 1));
    }
  }

  lemma {:induction false} SendersWokenOn(q: Queue, q1: Queue, k: nat, r: Queue)
    requires SendersWoken(q, 1, q1) && SendersWoken(q1, k, r) && |q1.sendQ| == |q.sendQ| - 1
    requires r.sendQ != [] ==> q1.sendQ != []
    ensures SendersWoken(q, k + 1, r)
  {
  }

  /** The owner steps on inside its locked section. */
  lemma {:induction false} StageStructure(q: Queue, t: TaskId, p: Pc, q1: Queue)
    requires Structure(q) && t in q.pc && q.pc[t].Unlocking? && p.Unlocking? && p == q.pc[t].(stage := p.stage)
    requires q1 == q.(pc := q.pc[t := p], tx := q1.tx, rx := q1.rx)
    requires Locks(q1)
    ensures Structure(q1) && |q1.pc| == |q.pc|
  {
    assert q1.pc.Keys == q.pc.Keys;
    forall x | x in q1.pc ensures TaskOk(q1, x) {
      assert TaskOk(q, x);
    }
  }

  lemma {:induction false} UnlockTxInv(q: Queue, t: TaskId)
    requires Inv(q) && Enabled(q, DoUnlockTx(t))
    ensures Inv(TxUnlocked(q, t))
  {
    assert TaskOk(q, t);
    var q1 := At(q, t, q.pc[t].(stage := UnlockRx)).(tx := -1);
    StageStructure(q, t, q.pc[t].(stage := UnlockRx), q1);
    WakeReceiversWakes(q1, Pos(q.tx));
    NoDupBound(q.recvQ, q.pc.Keys);
  }

  lemma {:induction false} UnlockRxInv(q: Queue, t: TaskId)
    requires Inv(q) && Enabled(q, DoUnlockRx(t))
    ensures Inv(RxUnlocked(q, t))
  {
    assert TaskOk(q, t);
    var q1 := At(q, t, q.pc[t].(stage := Unlocked)).(rx := -1);
    StageStructure(q, t, q.pc[t].(stage := Unlocked), q1);
    WakeSendersWakes(q1, Pos(q.rx));
    NoDupBound(q.sendQ, q.pc.Keys);
  }

  lemma {:induction false} InsertNoDup(s: seq<TaskId>, t: TaskId, pos: nat)
    requires NoDup(s) && t !in s && pos <= |s|
    ensures NoDup(s[..pos] + [t] + s[pos..])
    ensures forall x :: x in s[..pos] + [t] + s[pos..] <==> x in s || x == t
  {
    assert s == s[..pos] + s[pos..];
  }

  lemma {:induction false} PlaceInv(q: Queue, t: TaskId, pos: nat)
    requires Inv(q) && Enabled(q, Place(t, pos))
    ensures Inv(Placed(q, t, pos))
  {
    assert TaskOk(q, t);
    var q1 := Placed(q, t, pos);
    InsertNoDup(if q.pc[t].op.Reads() then q.recvQ else q.sendQ, t, pos);
    assert q1.pc.Keys == q.pc.Keys;
    forall x | x in q1.pc ensures TaskOk(q1, x) {
      assert TaskOk(q, x);
    }
  }

  lemma {:induction false} LeaveInv(q: Queue, t: TaskId)
    requires Inv(q) && Enabled(q, Leave(t))
    ensures Inv(Left(q, t))
  {
    assert TaskOk(q, t);
    MoveStructure(q, t, Left(q, t).pc[t], Left(q, t));
  }

  lemma {:induction false} FinishInv(q: Queue, t: TaskId)
    requires Inv(q) && Enabled(q, Finish(t))
    ensures Inv(Finished(q, t))
  {
    assert TaskOk(q, t);
    var q1 := Finished(q, t);
    assert q1.pc.Keys == q.pc.Keys;
    forall x | x in q1.pc ensures TaskOk(q1, x) {
      assert TaskOk(q, x);
    }
  }

  lemma {:induction false} ExpireInv(q: Queue, t: TaskId)
    requires Inv(q) && Enabled(q, Expire(t))
    ensures Inv(Apply(q, Expire(t)))
  {
    assert TaskOk(q, t);
    var q1 := Apply(q, Expire(t));
    WithoutNoDup(q.recvQ, t);
    WithoutNoDup(q.sendQ, t);
    assert q1.pc.Keys == q.pc.Keys;
    forall x | x in q1.pc ensures TaskOk(q1, x) {
      assert TaskOk(q, x);
    }
  }

  lemma {:induction false} StepKeepsInv(q: Queue, s: Step)
    requires Inv(q) && Enabled(q, s)
    ensures Inv(Apply(q, s))
  {
    match s
    case Start(t, op) => StartInv(q, t, op);
    case Attempt(t, waits) => AttemptInv(q, t, waits);
    case Lock(t) => LockInv(q, t);
    case Check(t, expired) => CheckInv(q, t, expired);
    case Place(t, pos) => PlaceInv(q, t, pos);
    case DoUnlockTx(t) => UnlockTxInv(q, t);
    case DoUnlockRx(t) => UnlockRxInv(q, t);
    case Finish(t) => FinishInv(q, t);
    case Leave(t) => LeaveInv(q, t);
    case Expire(t) => ExpireInv(q, t);
    case IsrSend(overwrite) => IsrSendInv(q, overwrite);
    case IsrReceive => IsrReceiveInv(q);
  }

  // ---------------------------------------------------------------------
  // Whole runs
  // ---------------------------------------------------------------------

  /** A queue or semaphore that holds `n` items and that nobody uses yet. */
  ghost predicate Initial(q: Queue) {
    && 0 < q.len && q.n <= q.len && q.recvQ == [] && q.sendQ == []
    && q.tx == q.rx == -1 && q.owner.None? && q.wokenR == {} && q.wokenS == {}
    && forall t :: t in q.pc ==> q.pc[t] == Out
  }

  ghost predicate Possible(q: Queue, steps: seq<Step>)
    decreases |steps|
  {
    steps != [] ==> Lists(q) && Enabled(q, steps[0]) && Possible(Apply(q, steps[0]), steps[1..])
  }

  ghost function After(q: Queue, steps: seq<Step>): Queue
    requires Possible(q, steps)
    decreases |steps|
  {
    if steps == [] then q else After(Apply(q, steps[0]), steps[1..])
  }

  lemma {:induction false} RunKeepsInv(q: Queue, steps: seq<Step>)
    requires Inv(q) && Possible(q, steps)
    ensures Inv(After(q, steps))
    decreases |steps|
  {
    if steps != [] {
      StepKeepsInv(q, steps[0]);
      RunKeepsInv(Apply(q, steps[0]), steps[1..]);
    }
  }

  /** No lost wake-up, over every interleaving of tasks and interrupts: once the
      queue is unlocked, the items beside a parked receiver, and the free slots
      beside a parked sender, all belong to tasks that are awake and will retry. */
  lemma {:induction false} NoLostWakeup(q: Queue, steps: seq<Step>)
    requires Initial(q) && Possible(q, steps) && After(q, steps).owner.None?
    ensures var e := After(q, steps);
      && (e.recvQ != [] ==> e.n <= |e.wokenR|)
      && (e.sendQ != [] ==> e.len - e.n <= |e.wokenS|)
      && (e.recvQ != [] && e.wokenR == {} ==> e.n == 0)
      && (e.sendQ != [] && e.wokenS == {} ==> e.n == e.len)
      && (forall t :: t in e.wokenR + e.wokenS ==> t in e.pc && e.pc[t].Try?)
  {
    assert Inv(q);
    RunKeepsInv(q, steps);
    var e := After(q, steps);
    forall t | t in e.wokenR + e.wokenS ensures t in e.pc && e.pc[t].Try? {
      assert TaskOk(e, t);
    }
  }

  /** The lock counts stay in the int8_t range, so the assert in the increment
      macros cannot fire, whenever there are at most 127 tasks. */
  lemma {:induction false} LockCountsFit(q: Queue, steps: seq<Step>)
    requires Initial(q) && Possible(q, steps) && |q.pc| <= 127
    ensures -1 <= After(q, steps).tx <= 127 && -1 <= After(q, steps).rx <= 127
    ensures |After(q, steps).pc| == |q.pc|
  {
    RunKeepsInv(q, steps);
    RunKeepsTasks(q, steps);
  }

  lemma {:induction false} RunKeepsTasks(q: Queue, steps: seq<Step>)
    requires Inv(q) && Possible(q, steps)
    ensures After(q, steps).pc.Keys == q.pc.Keys
    decreases |steps|
  {
    if steps != [] {
      StepKeepsInv(q, steps[0]);
      StepKeepsTasks(q, steps[0]);
      RunKeepsTasks(Apply(q, steps[0]), steps[1..]);
    }
  }

  lemma {:induction false} StepKeepsTasks(q: Queue, s: Step)
    requires Inv(q) && Enabled(q, s)
    ensures Apply(q, s).pc.Keys == q.pc.Keys
  {
    match s
    case DoUnlockTx(t) =>
      UnlockTxInv(q, t);
      RouseReceivers(At(q, t, q.pc[t].(stage := UnlockRx)).(tx := -1), Pos(q.tx));
    case DoUnlockRx(t) =>
      RouseSenders(At(q, t, q.pc[t].(stage := Unlocked)).(rx := -1), Pos(q.rx));
    case Attempt(t, waits) => AttemptKeepsTasks(q, t, waits);
    case _ =>
  }

  lemma {:induction false} AttemptKeepsTasks(q: Queue, t: TaskId, waits: bool)
    requires Structure(q) && t in q.pc && q.pc[t].Try?
    ensures Attempted(q, t, waits).pc.Keys == q.pc.Keys
  {
  }

  lemma {:induction false} RouseReceivers(q: Queue, k: nat)
    requires forall t :: t in q.recvQ ==> t in q.pc
    ensures WakeReceivers(q, k).pc.Keys == q.pc.Keys
    decreases k
  {
    if k > 0 && q.recvQ != [] {
      RouseReceivers(WakeReceiver(q), k - 1);
    }
  }

  lemma {:induction false} RouseSenders(q: Queue, k: nat)
    requires forall t :: t in q.sendQ ==> t in q.pc
    ensures WakeSenders(q, k).pc.Keys == q.pc.Keys
    decreases k
  {
    if k > 0 && q.sendQ != [] {
      RouseSenders(WakeSender(q), k - 1);
    }
  }

  /** Each interrupt that sends while the queue is locked raises the count by one. */
  lemma {:induction false} Flood(q: Queue, k: nat) returns (steps: seq<Step>)
    requires Inv(q) && q.owner.Some? && q.tx >= 0 && q.rx >= 0 && q.n == 0 && q.tx + k <= |q.pc|
    ensures Possible(q, steps) && After(q, steps).tx == q.tx + k && After(q, steps).n == 0
    decreases k
  {
    steps := [];
    if k > 0 {
      var q1 := Apply(q, IsrSend(false));
      StepKeepsInv(q, IsrSend(false));
      var q2 := Apply(q1, IsrReceive);
      StepKeepsInv(q1, IsrReceive);
      var rest := Flood(q2, k - 1);
      steps := [IsrSend(false), IsrReceive] + rest;
      assert steps[1..] == [IsrReceive] + rest && steps[1..][1..] == rest;
    }
  }

  lemma {:induction false} Cons(q: Queue, s: Step, q1: Queue, rest: seq<Step>)
    requires Lists(q) && Enabled(q, s) && q1 == Apply(q, s) && Possible(q1, rest)
    ensures Possible(q, [s] + rest) && After(q, [s] + rest) == After(q1, rest)
  {
    assert ([s] + rest)[1..] == rest;
  }

  /** A receiver finds the queue empty and locks it. */
  lemma {:induction false} LockEmpty(q: Queue, t: TaskId, q2: Queue)
    requires Initial(q) && q.n == 0 && t in q.pc
    requires q2 == At(q, t, Pre(Receive)).(wokenR := {})
    ensures Lists(q) && Enabled(q, Start(t, Receive)) && Enabled(Apply(q, Start(t, Receive)), Attempt(t, true))
    ensures Lists(Apply(q, Start(t, Receive)))
    ensures Apply(Apply(q, Start(t, Receive)), Attempt(t, true)) == q2
    ensures Inv(q2) && q2.pc.Keys == q.pc.Keys
  {
    assert Inv(q);
    var q1 := Apply(q, Start(t, Receive));
    StepKeepsInv(q, Start(t, Receive));
    StepKeepsInv(q1, Attempt(t, true));
  }

  /** With more than 127 tasks the assert can fire: a run leaves the count of an empty locked
      queue at 127, still below the cap, so that the next interrupt that sends takes it out
      of the int8_t range. */
  lemma {:induction false} LockCountOverflows(q: Queue, t: TaskId)
    requires Initial(q) && q.n == 0 && t in q.pc && |q.pc| > 127
    ensures exists steps :: Possible(q, steps) && OnTheBrink(After(q, steps))
  {
    var q1 := Apply(q, Start(t, Receive));
    var q2 := At(q, t, Pre(Receive)).(wokenR := {});
    LockEmpty(q, t, q2);
    var steps := FloodLocked(q2, t);
    Cons(q1, Attempt(t, true), q2, steps);
    Cons(q, Start(t, Receive), q1, [Attempt(t, true)] + steps);
  }

  /** A task about to wait locks the queue, and interrupts send and receive 127 times. */
  lemma {:induction false} FloodLocked(q: Queue, t: TaskId) returns (steps: seq<Step>)
    requires Inv(q) && Enabled(q, Lock(t)) && q.tx == -1 && q.rx == -1 && q.n == 0 && |q.pc| > 127
    ensures Possible(q, steps) && OnTheBrink(After(q, steps))
  {
    var q1 := Apply(q, Lock(t));
    LockInv(q, t);
    assert q1.pc.Keys == q.pc.Keys && |q1.pc| == |q.pc| by { assert |q1.pc| == |q1.pc.Keys| && |q.pc| == |q.pc.Keys|; }
    var rest := Flood(q1, 127);
    RunKeepsInv(q1, rest);
    RunKeepsTasks(q1, rest);
    BrinkReached(q, After(q1, rest));
    Cons(q, Lock(t), q1, rest);
    steps := [Lock(t)] + rest;
  }

  /** The next send from an interrupt is possible and raises the count to 128. */
  ghost predicate OnTheBrink(e: Queue) {
    e.tx == 127 && Lists(e) && Enabled(e, IsrSend(false)) && Apply(e, IsrSend(false)).tx == 128
  }

  lemma {:induction false} BrinkReached(q: Queue, e: Queue)
    requires Inv(e) && e.pc.Keys == q.pc.Keys && |q.pc| > 127 && e.tx == 127 && e.n == 0
    ensures OnTheBrink(e)
  {
    assert |e.pc| == |e.pc.Keys| == |q.pc.Keys| == |q.pc|;
  }

  // The wake loops neither read nor write the lock counts.

  lemma {:induction false} ReceiversIgnoreTx(q: Queue, k: nat)
    requires forall t :: t in q.recvQ ==> t in q.pc
    ensures WakeReceivers(q.(tx := -1), k) == WakeReceivers(q, k).(tx := -1)
    decreases k
  {
    if k > 0 && q.recvQ != [] {
      ReceiversIgnoreTx(WakeReceiver(q), k - 1);
      assert WakeReceiver(q.(tx := -1)) == WakeReceiver(q).(tx := -1);
    }
  }

  lemma {:induction false} SendersIgnoreRx(q: Queue, k: nat)
    requires forall t :: t in q.sendQ ==> t in q.pc
    ensures WakeSenders(q.(rx := -1), k) == WakeSenders(q, k).(rx := -1)
    decreases k
  {
    if k > 0 && q.sendQ != [] {
      SendersIgnoreRx(WakeSender(q), k - 1);
      assert WakeSender(q.(rx := -1)) == WakeSender(q).(rx := -1);
    }
  }
}
