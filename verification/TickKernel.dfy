/** The tick and delay variables of tasks.c and the functions that update them. */
module TickKernel {
  import opened Common
  import opened SortedList
  import opened TickEngine

  class Kernel {
    var tickCount: Tick
    var delayedTasks: seq<Item>
    var overflowDelayedTasks: seq<Item>
    var nextTaskUnblockTime: Tick
    var numOfOverflows: nat
    var suspendedTasks: seq<TaskId>
    var readied: seq<TaskId>
    var pendingReady: seq<TaskId>
    var schedulerSuspended: nat
    var pendedTicks: nat

    ghost function Snapshot(): Engine
      reads this
    {
      Engine(tickCount, delayedTasks, overflowDelayedTasks, nextTaskUnblockTime, numOfOverflows,
             suspendedTasks, readied, pendingReady, schedulerSuspended, pendedTicks)
    }

    ghost predicate Valid()
      reads this
    {
      Inv(Snapshot())
    }

    constructor ()
      ensures Valid() && Now(Snapshot()) == 0 && schedulerSuspended == 0
    {
      tickCount, numOfOverflows, schedulerSuspended, pendedTicks := 0, 0, 0, 0;
      delayedTasks, overflowDelayedTasks, suspendedTasks, readied, pendingReady := [], [], [], [], [];
      nextTaskUnblockTime := MAX_DELAY;
    }

    /** prvResetNextTaskUnblockTime: with a sorted list the cache is as late as it may be, the
        earliest wake time in the list. */
    method ResetNextTaskUnblockTime()
      modifies this`nextTaskUnblockTime
      ensures nextTaskUnblockTime == HeadValue(delayedTasks)
      ensures Sorted(delayedTasks) ==> forall x :: x in delayedTasks ==> nextTaskUnblockTime <= x.value
      ensures delayedTasks != [] ==> exists x :: x in delayedTasks && nextTaskUnblockTime == x.value
      ensures old(Valid()) ==> Valid()
    {
      HeadIsMember(delayedTasks);
      if delayedTasks == [] {
        nextTaskUnblockTime := MAX_DELAY;
      } else {
        nextTaskUnblockTime := delayedTasks[0].value;
      }
    }

    /** taskSWITCH_DELAYED_LISTS, the current list being empty as its assert demands: what was
        due in the next epoch is now due in this one. */
    method SwitchDelayedLists()
      requires delayedTasks == []
      modifies this
      ensures Snapshot() == Switch(old(Snapshot())) && overflowDelayedTasks == []
      ensures forall w :: DueAt(Snapshot(), w) == DueAt(old(Snapshot()), w)
    {
      ghost var before := Snapshot();
      var temp := delayedTasks;
      delayedTasks := overflowDelayedTasks;
      overflowDelayedTasks := temp;
      numOfOverflows := numOfOverflows + 1;
      ResetNextTaskUnblockTime();
      forall w ensures DueAt(Snapshot(), w) == DueAt(before, w) {
        SwitchDue(before, w);
      }
    }

    /** The endless loop of xTaskIncrementTick: it leaves by one of its two breaks. */
    method ReadyExpired()
      modifies this
      ensures Snapshot() == Scan(old(Snapshot()))
    {
      ghost var start := Snapshot();
      while true
        invariant Scan(Snapshot()) == Scan(start)
        decreases |delayedTasks|
      {
        if delayedTasks == [] {
          nextTaskUnblockTime := MAX_DELAY;
          assert readied + Tasks([]) == readied;
          break;
        }
        var item := delayedTasks[0];
        if tickCount < item.value {
          nextTaskUnblockTime := item.value;
          assert Expired(delayedTasks, tickCount) == 0;
          assert readied + Tasks(delayedTasks[..0]) == readied;
          break;
        }
        ScanTurn(Snapshot());
        delayedTasks := delayedTasks[1..];
        readied := readied + [item.owner];
      }
    }

    method IncrementTick()
      requires Valid()
      modifies this
      ensures Snapshot() == if old(schedulerSuspended) == 0 then TickOnce(old(Snapshot())) else PendTicks(old(Snapshot()), 1)
      ensures Valid()
    {
      ghost var before := Snapshot();
      if schedulerSuspended == 0 {
        AdvanceTick();
        if tickCount >= nextTaskUnblockTime {
          ReadyExpired();
        }
        assert Snapshot() == TickOnce(before);
        assert Valid() by { TickInv(before); }
      } else {
        pendedTicks := pendedTicks + 1;
      }
    }

    method AdvanceTick()
      requires Valid()
      modifies this
      ensures Snapshot() == Advanced(old(Snapshot()))
    {
      ghost var before := Snapshot();
      tickCount := Wrapped(tickCount + 1);
      if tickCount == 0 {
        // The assert of taskSWITCH_DELAYED_LISTS.
        assert delayedTasks == [] by { EmptyAtSwitch(before); }
        SwitchDelayedLists();
      }
    }

    /** prvAddCurrentTaskToDelayedList. */
    method AddToDelayedList(t: TaskId, ticksToWait: Tick, canBlockIndefinitely: bool)
      requires Valid() && ticksToWait > 0
      modifies this
      ensures Snapshot() == Block(old(Snapshot()), t, ticksToWait, canBlockIndefinitely)
      ensures Valid()
    {
      BlockInv(Snapshot(), t, ticksToWait, canBlockIndefinitely);
      if ticksToWait == MAX_DELAY && canBlockIndefinitely {
        suspendedTasks := suspendedTasks + [t];
      } else {
        var timeToWake := Wrapped(tickCount + ticksToWait);
        if timeToWake < tickCount {
          overflowDelayedTasks := Insert(overflowDelayedTasks, Item(t, timeToWake));
        } else {
          delayedTasks := Insert(delayedTasks, Item(t, timeToWake));
          if timeToWake < nextTaskUnblockTime {
            nextTaskUnblockTime := timeToWake;
          }
        }
      }
    }

    method SuspendAll()
      modifies this`schedulerSuspended
      ensures Snapshot() == old(Snapshot()).(suspended := old(schedulerSuspended) + 1)
    {
      schedulerSuspended := schedulerSuspended + 1;
    }

    method ReadyPending()
      requires pendingReady != []
      modifies this`pendingReady, this`delayedTasks, this`overflowDelayedTasks, this`suspendedTasks, this`readied
      ensures Snapshot() == DrainOne(old(Snapshot()))
    {
      var t := pendingReady[0];
      pendingReady := pendingReady[1..];
      delayedTasks := Drop(delayedTasks, t);
      overflowDelayedTasks := Drop(overflowDelayedTasks, t);
      suspendedTasks := Without(suspendedTasks, t);
      readied := readied + [t];
    }

    /** The loop that empties the pending ready list. */
    method DrainPending() returns (moved: bool)
      modifies this`pendingReady, this`delayedTasks, this`overflowDelayedTasks, this`suspendedTasks, this`readied
      ensures Snapshot() == Drain(old(Snapshot())) && moved == (old(pendingReady) != [])
    {
      ghost var start := Snapshot();
      moved := false;
      while pendingReady != []
        invariant Drain(Snapshot()) == Drain(start)
        invariant moved == (start.pending != []) || (!moved && pendingReady == start.pending)
        decreases |pendingReady|
      {
        ReadyPending();
        moved := true;
      }
    }

    method ResumeAll()
      requires Valid() && schedulerSuspended > 0
      modifies this
      ensures Snapshot() == TickEngine.ResumeAll(old(Snapshot()))
      ensures Valid()
    {
      ghost var before := Snapshot();
      ResumeInv(before);
      schedulerSuspended := schedulerSuspended - 1;
      if schedulerSuspended == 0 {
        ghost var lower := Snapshot();
        DrainedInv(lower);
        var moved := DrainPending();
        if moved {
          ResetNextTaskUnblockTime();
        }
        assert Snapshot() == Drained(lower);
        ReplayTicks();
      }
    }

    /** The do-while loop that processes the pended ticks. */
    method ReplayTicks()
      requires Valid() && schedulerSuspended == 0
      modifies this
      ensures Snapshot() == Ticks(old(Snapshot()), old(pendedTicks)).(pended := 0)
    {
      ghost var start := Snapshot();
      var pendedCounts := pendedTicks;
      while pendedCounts > 0
        invariant Valid() && schedulerSuspended == 0
        invariant Ticks(Snapshot(), pendedCounts) == Ticks(start, start.pended)
        decreases pendedCounts
      {
        IncrementTick();
        pendedCounts := pendedCounts - 1;
      }
      pendedTicks := 0;
    }

    /** vTaskStepTick: a step that does not wrap the tick count passes nobody's wake time. */
    method StepTick(ticksToJump: Tick)
      requires Valid() && StepAllowed(Snapshot(), ticksToJump)
      modifies this`tickCount, this`pendedTicks
      ensures Snapshot() == TickEngine.StepTick(old(Snapshot()), ticksToJump)
      ensures old(tickCount) + ticksToJump < WRAP ==> Valid()
    {
      if tickCount + ticksToJump < WRAP {
        JumpInv(Snapshot(), ticksToJump);
      }
      var jump := ticksToJump;
      if Wrapped(tickCount + jump) == nextTaskUnblockTime {
        pendedTicks := pendedTicks + 1;
        jump := jump - 1;
      }
      tickCount := Wrapped(tickCount + jump);
    }
  }
}
