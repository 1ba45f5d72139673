/** The queue object behind the protocol steps: lock counts and wait lists updated
    in place. The ghost fields record where the tasks are. */
module BlockingQueue {
  import opened Common
  import opened QueueBlocking

  lemma {:induction false} IsrStepKeeps(q: Queue, s: Step)
    requires Inv(q) && Enabled(q, s) && (s.IsrSend? || s.IsrReceive?)
    ensures Inv(Apply(q, s)) && |Apply(q, s).pc| == |q.pc|
    ensures q.recvQ != [] ==> q.recvQ[0] in q.pc
    ensures q.sendQ != [] ==> q.sendQ[0] in q.pc
    ensures s.IsrSend? ==> Apply(q, s) == Posted(q.(n := if s.overwrite && q.n > 0 then q.n else q.n + 1))
    ensures s.IsrReceive? ==> Apply(q, s) == Drained(q.(n := q.n - 1))
  {
    StepKeepsInv(q, s);
    StepKeepsTasks(q, s);
    assert |Apply(q, s).pc| == |Apply(q, s).pc.Keys| && |q.pc| == |q.pc.Keys|;
  }

  class WaitQueue {
    var messagesWaiting: nat
    const length: nat
    var waitingToReceive: seq<TaskId>
    var waitingToSend: seq<TaskId>
    var txLock: int
    var rxLock: int
    ghost var pc: map<TaskId, Pc>
    ghost var owner: Option<TaskId>
    ghost var wokenR: set<TaskId>
    ghost var wokenS: set<TaskId>
    const numberOfTasks: nat

    ghost predicate Valid()
      reads this
    {
      Inv(Snapshot()) && |pc| == numberOfTasks
    }

    ghost function Snapshot(): Queue
      reads this
    {
      Queue(messagesWaiting, length, waitingToReceive, waitingToSend, txLock, rxLock, pc, owner, wokenR, wokenS)
    }

    constructor (length: nat, initial: nat, ghost tasks: set<TaskId>, numberOfTasks: nat)
      requires 0 < length && initial <= length && numberOfTasks == |tasks|
      ensures Valid() && Initial(Snapshot()) && pc.Keys == tasks
      ensures messagesWaiting == initial && this.length == length
    {
      this.length := length;
      messagesWaiting := initial;
      waitingToReceive, waitingToSend := [], [];
      txLock, rxLock := -1, -1;
      pc := map t | t in tasks :: Out;
      owner, wokenR, wokenS := None, {}, {};
      this.numberOfTasks := numberOfTasks;
      new;
      assert pc.Keys == tasks;
    }

    /** xTaskRemoveFromEventList on the receivers: the head of the list is readied. */
    method UnblockReceiver()
      requires waitingToReceive != [] && waitingToReceive[0] in pc
      modifies this`waitingToReceive, this`wokenR, this`pc
      ensures Snapshot() == WakeReceiver(old(Snapshot()))
    {
      ghost var head := waitingToReceive[0];
      waitingToReceive := waitingToReceive[1..];
      wokenR := wokenR + {head};
      pc := pc[head := Roused(pc[head])];
    }

    method UnblockSender()
      requires waitingToSend != [] && waitingToSend[0] in pc
      modifies this`waitingToSend, this`wokenS, this`pc
      ensures Snapshot() == WakeSender(old(Snapshot()))
    {
      ghost var head := waitingToSend[0];
      waitingToSend := waitingToSend[1..];
      wokenS := wokenS + {head};
      pc := pc[head := Roused(pc[head])];
    }

    /** What follows an added item: wake a receiver, or count it for the unlocker. */
    method NoticeSent()
      requires |pc| == numberOfTasks && (waitingToReceive != [] ==> waitingToReceive[0] in pc)
      modifies this`waitingToReceive, this`wokenR, this`pc, this`txLock
      ensures Snapshot() == Posted(old(Snapshot()))
    {
      if txLock == -1 {
        if waitingToReceive != [] {
          UnblockReceiver();
        }
      } else if txLock < numberOfTasks {
        txLock := txLock + 1;
      }
    }

    method NoticeReceived()
      requires |pc| == numberOfTasks && (waitingToSend != [] ==> waitingToSend[0] in pc)
      modifies this`waitingToSend, this`wokenS, this`pc, this`rxLock
      ensures Snapshot() == Drained(old(Snapshot()))
    {
      if rxLock == -1 {
        if waitingToSend != [] {
          UnblockSender();
        }
      } else if rxLock < numberOfTasks {
        rxLock := rxLock + 1;
      }
    }

    /** xQueueGenericSendFromISR; overwriting is for queues of length one and always passes. */
    method SendFromISR(overwrite: bool) returns (pass: bool)
      requires Valid() && (overwrite ==> length == 1)
      modifies this
      ensures pass <==> overwrite || old(messagesWaiting) < length
      ensures Snapshot() == if pass then Apply(old(Snapshot()), IsrSend(overwrite)) else old(Snapshot())
      ensures Valid()
    {
      pass := false;
      if messagesWaiting < length || overwrite {
        IsrStepKeeps(Snapshot(), IsrSend(overwrite));
        var waiting := messagesWaiting;
        if overwrite && waiting > 0 {
          waiting := waiting - 1;
        }
        messagesWaiting := waiting + 1;
        NoticeSent();
        pass := true;
      }
    }

    /** xQueueReceiveFromISR. */
    method ReceiveFromISR() returns (pass: bool)
      requires Valid()
      modifies this
      ensures pass == (old(messagesWaiting) > 0)
      ensures Snapshot() == if pass then Apply(old(Snapshot()), IsrReceive) else old(Snapshot())
      ensures Valid()
    {
      pass := false;
      if messagesWaiting > 0 {
        IsrStepKeeps(Snapshot(), IsrReceive);
        messagesWaiting := messagesWaiting - 1;
        NoticeReceived();
        pass := true;
      }
    }

    method LockQueue(ghost t: TaskId)
      requires Valid() && Enabled(Snapshot(), Lock(t))
      modifies this
      ensures Snapshot() == Apply(old(Snapshot()), Lock(t)) && Valid()
    {
      ghost var before := Snapshot();
      LockInv(before, t);
      StepKeepsTasks(before, Lock(t));
      if rxLock == -1 {
        rxLock := 0;
      }
      if txLock == -1 {
        txLock := 0;
      }
      owner := Some(t);
      pc := pc[t := Locked(pc[t].op)];
      assert Snapshot() == Apply(before, Lock(t));
    }

    /** The wake loop of the transmit side: one receiver per counted item. */
    method UnblockReceivers(count: int)
      requires forall x :: x in waitingToReceive ==> x in pc
      modifies this`waitingToReceive, this`wokenR, this`pc
      ensures Snapshot() == WakeReceivers(old(Snapshot()), Pos(count))
    {
      ghost var start := Snapshot();
      var left := count;
      while left > 0
        invariant forall x :: x in waitingToReceive ==> x in pc
        invariant WakeReceivers(Snapshot(), Pos(left)) == WakeReceivers(start, Pos(count))
      {
        if waitingToReceive == [] {
          break;
        }
        UnblockReceiver();
        left := left - 1;
      }
    }

    method UnblockSenders(count: int)
      requires forall x :: x in waitingToSend ==> x in pc
      modifies this`waitingToSend, this`wokenS, this`pc
      ensures Snapshot() == WakeSenders(old(Snapshot()), Pos(count))
    {
      ghost var start := Snapshot();
      var left := count;
      while left > 0
        invariant forall x :: x in waitingToSend ==> x in pc
        invariant WakeSenders(Snapshot(), Pos(left)) == WakeSenders(start, Pos(count))
      {
        if waitingToSend == [] {
          break;
        }
        UnblockSender();
        left := left - 1;
      }
    }

    /** First critical section of prvUnlockQueue. */
    method ReleaseTx(ghost t: TaskId)
      requires Valid() && Enabled(Snapshot(), DoUnlockTx(t))
      modifies this
      ensures Snapshot() == Apply(old(Snapshot()), DoUnlockTx(t)) && Valid()
    {
      ghost var before := Snapshot();
      UnlockTxInv(before, t);
      StepKeepsTasks(before, DoUnlockTx(t));
      pc := pc[t := pc[t].(stage := UnlockRx)];
      ReceiversIgnoreTx(Snapshot(), Pos(txLock));
      UnblockReceivers(txLock);
      txLock := -1;
    }

    /** Second critical section of prvUnlockQueue. */
    method ReleaseRx(ghost t: TaskId)
      requires Valid() && Enabled(Snapshot(), DoUnlockRx(t))
      modifies this
      ensures Snapshot() == Apply(old(Snapshot()), DoUnlockRx(t)) && Valid()
    {
      ghost var before := Snapshot();
      UnlockRxInv(before, t);
      StepKeepsTasks(before, DoUnlockRx(t));
      pc := pc[t := pc[t].(stage := Unlocked)];
      SendersIgnoreRx(Snapshot(), Pos(rxLock));
      UnblockSenders(rxLock);
      rxLock := -1;
    }
  }
}
