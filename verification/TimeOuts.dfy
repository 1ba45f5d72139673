/** Timeout checks inside retry loops and fixed-period delays, both computed on
    wrapped tick values. */
module TimeOuts {
  import opened Common
  import TickEngine
  import Wakeups

  /** A moment: how often the tick count has wrapped, and its value. */
  datatype Time = Time(overflows: nat, tick: Tick)
  {
    function At(): nat { Epoch(overflows) + tick }
  }

  // ---------------------------------------------------------------------
  // xTaskCheckForTimeOut
  // ---------------------------------------------------------------------

  datatype Check = Check(expired: bool, since: Time, wait: Tick)

  /** `since` is the TimeOut_t written when the wait began or was last adjusted. */
  function Checked(now: Time, since: Time, wait: Tick): Check {
    var elapsed := Wrapped(now.tick - since.tick);
    if wait == MAX_DELAY then Check(false, since, wait)
    else if now.overflows != since.overflows && now.tick >= since.tick then Check(true, since, 0)
    else if elapsed < wait then Check(false, now, wait - elapsed)
    else Check(true, since, 0)
  }

  /** The only way to miss an expiry: two or more wraps since the last adjustment,
      seen at a tick value that makes them look like part of one. */
  predicate Aliased(now: Time, since: Time, wait: Tick) {
    && now.overflows >= since.overflows + 2
    && now.tick < since.tick
    && Wrapped(now.tick - since.tick) < wait
  }

  /** For a finite wait the answer is the unbounded one exactly when it is not aliased. */
  lemma {:induction false} CheckIff(now: Time, since: Time, wait: Tick)
    requires wait < MAX_DELAY && since.At() <= now.At()
    ensures (Checked(now, since, wait).expired <==> now.At() - since.At() >= wait)
       <==> !Aliased(now, since, wait)
  {
    assert now.overflows >= since.overflows;
  }

  /** A wait of MAX_DELAY - 1 ticks that is reported unexpired after almost two full wraps. */
  lemma {:induction false} AliasedCheck()
    ensures var now, since := Time(2, 0), Time(0, 50);
      now.At() - since.At() >= MAX_DELAY && !Checked(now, since, MAX_DELAY - 1).expired
  {
  }

  /** The state of a retry loop after checks at the given moments. */
  function Checks(since: Time, wait: Tick, moments: seq<Time>): Check
    decreases |moments|
  {
    if moments == [] then Check(false, since, wait)
    else
      var c := Checks(since, wait, moments[..|moments| - 1]);
      Checked(moments[|moments| - 1], c.since, c.wait)
  }

  function Latest(start: Time, moments: seq<Time>): Time {
    if moments == [] then start else moments[|moments| - 1]
  }

  /** Time does not run backwards, and wraps at most once between checks. */
  ghost predicate Paced(start: Time, moments: seq<Time>)
    decreases |moments|
  {
    moments != [] ==>
      var earlier, now := moments[..|moments| - 1], moments[|moments| - 1];
      && Paced(start, earlier)
      && Latest(start, earlier).At() <= now.At()
      && now.overflows <= Latest(start, earlier).overflows + 1
  }

  lemma {:induction false} PacedPrefix(start: Time, moments: seq<Time>, k: nat)
    requires Paced(start, moments) && k <= |moments|
    ensures Paced(start, moments[..k]) && start.At() <= Latest(start, moments).At()
    decreases |moments|
  {
    if moments == [] {
    } else if k < |moments| {
      PacedPrefix(start, moments[..|moments| - 1], k);
      assert moments[..|moments| - 1][..k] == moments[..k];
    } else {
      PacedPrefix(start, moments[..|moments| - 1], 0);
      assert moments[..k] == moments;
    }
  }

  /** Over any paced retry loop a timeout is reported exactly when the unbounded
      elapsed time has reached the original wait; until then the remaining wait plus
      the elapsed time is the original wait. */
  lemma {:induction false} RetryLoopExact(start: Time, wait: Tick, moments: seq<Time>)
    requires 0 < wait < MAX_DELAY && Paced(start, moments)
    ensures var c := Checks(start, wait, moments);
            var now := Latest(start, moments);
      && (c.expired <==> now.At() - start.At() >= wait)
      && (c.expired ==> c.wait == 0)
      && (!c.expired ==> c.wait + (now.At() - start.At()) == wait && c.since == now)
    decreases |moments|
  {
    if moments != [] {
      var n := |moments| - 1;
      var now := moments[n];
      RetryLoopExact(start, wait, moments[..n]);
      PacedPrefix(start, moments[..n], 0);
      var c := Checks(start, wait, moments[..n]);
      if !c.expired {
        CheckIff(now, c.since, c.wait);
      }
    }
  }

  /** An indefinite wait never times out. */
  lemma {:induction false} IndefiniteNeverExpires(start: Time, moments: seq<Time>)
    ensures Checks(start, MAX_DELAY, moments) == Check(false, start, MAX_DELAY)
    decreases |moments|
  {
    if moments != [] {
      IndefiniteNeverExpires(start, moments[..|moments| - 1]);
    }
  }

  class TimeOut {
    var overflowCount: nat
    var timeOnEntering: Tick
    var ticksToWait: Tick

    ghost function Since(): Time
      reads this
    {
      Time(overflowCount, timeOnEntering)
    }

    constructor (now: Time, wait: Tick)
      ensures Since() == now && ticksToWait == wait
    {
      overflowCount, timeOnEntering, ticksToWait := now.overflows, now.tick, wait;
    }

    method SetState(now: Time)
      modifies this`overflowCount, this`timeOnEntering
      ensures Since() == now
    {
      overflowCount := now.overflows;
      timeOnEntering := now.tick;
    }

    method CheckForTimeOut(now: Time) returns (expired: bool)
      modifies this
      ensures Check(expired, Since(), ticksToWait) == Checked(now, old(Since()), old(ticksToWait))
    {
      var elapsed := Wrapped(now.tick - timeOnEntering);
      if ticksToWait == MAX_DELAY {
        expired := false;
      } else if now.overflows != overflowCount && now.tick >= timeOnEntering {
        expired := true;
        ticksToWait := 0;
      } else if elapsed < ticksToWait {
        ticksToWait := ticksToWait - elapsed;
        SetState(now);
        expired := false;
      } else {
        ticksToWait := 0;
        expired := true;
      }
    }
  }

  /** The deadline of a wait has been reached. */
  ghost predicate DeadlinePassed(now: Time, start: Time, wait: Tick) { now.At() >= start.At() + wait }

  lemma {:induction false} OneMoreCheck(start: Time, wait: Tick, moments: seq<Time>, k: nat, since: Time, left: Tick)
    requires 0 < wait < MAX_DELAY && Paced(start, moments) && k < |moments|
    requires Checks(start, wait, moments[..k]) == Check(false, since, left)
    ensures Checks(start, wait, moments[..k + 1]) == Checked(moments[k], since, left)
    ensures Checked(moments[k], since, left).expired <==> DeadlinePassed(moments[k], start, wait)
  {
    assert moments[..k + 1][..k] == moments[..k];
    PacedPrefix(start, moments, k + 1);
    RetryLoopExact(start, wait, moments[..k + 1]);
  }

  /** The retry loop of a blocking call: check after check until one expires or the
      moments run out. The first expiry is the first moment at or past the deadline. */
  method RetryUntilExpired(start: Time, wait: Tick, moments: seq<Time>) returns (k: nat)
    requires 0 < wait < MAX_DELAY && Paced(start, moments)
    ensures k <= |moments|
    ensures forall i :: 0 <= i < k ==> !DeadlinePassed(moments[i], start, wait)
    ensures k < |moments| ==> DeadlinePassed(moments[k], start, wait)
  {
    var timeOut := new TimeOut(start, wait);
    k := 0;
    while k < |moments|
      invariant k <= |moments|
      invariant Checks(start, wait, moments[..k]) == Check(false, timeOut.Since(), timeOut.ticksToWait)
      invariant forall i :: 0 <= i < k ==> !DeadlinePassed(moments[i], start, wait)
    {
      OneMoreCheck(start, wait, moments, k, timeOut.Since(), timeOut.ticksToWait);
      var expired := timeOut.CheckForTimeOut(moments[k]);
      if expired {
        return;
      }
      k := k + 1;
    }
  }

  // ---------------------------------------------------------------------
  // xTaskDelayUntil
  // ---------------------------------------------------------------------

  function WakeTime(previous: Tick, increment: Tick): Tick { Wrapped(previous + increment) }

  /** The decision to block, from wrapped values only. */
  predicate ShouldDelay(now: Tick, previous: Tick, increment: Tick) {
    var wake := WakeTime(previous, increment);
    if now < previous then wake < previous && wake > now
    else wake < previous || wake > now
  }

  /** For every gap, however long, the call blocks exactly when the increment is more
      than the gap modulo one wrap. So it is right exactly when the gap is less than
      a wrap or the wrapped gap has used up the increment. */
  lemma {:induction false} DelayUntilIff(now: Time, previous: Time, increment: Tick)
    requires previous.At() <= now.At() && increment > 0
    ensures ShouldDelay(now.tick, previous.tick, increment)
       <==> increment > Wrapped(now.tick - previous.tick)
    ensures (ShouldDelay(now.tick, previous.tick, increment) <==> previous.At() + increment > now.At())
       <==> now.At() - previous.At() < WRAP || increment <= Wrapped(now.tick - previous.tick)
  {
    assert now.overflows >= previous.overflows;
  }

  /** A call that comes a wrap and five ticks after the last wake time and still blocks,
      although its next wake time is long past. */
  lemma {:induction false} LateDelayUntil()
    ensures var now, previous := Time(1, 5), Time(0, 0);
      previous.At() + 10 < now.At() && ShouldDelay(now.tick, previous.tick, 10)
  {
  }

  /** The block time handed on is what is left until the wake time. */
  lemma {:induction false} DelayUntilBlockTime(now: Time, previous: Time, increment: Tick)
    requires previous.At() <= now.At() < previous.At() + increment && increment > 0
    ensures Wrapped(WakeTime(previous.tick, increment) - now.tick) == previous.At() + increment - now.At()
  {
  }

  /** The unbounded wake time after `k` calls. */
  function Due(start: nat, increment: nat, k: nat): nat {
    if k == 0 then start else Due(start, increment, k - 1) + increment
  }

  /** The stored previous wake time after calls at the given moments. */
  function Previous(start: Tick, increment: Tick, k: nat): Tick {
    if k == 0 then start else WakeTime(Previous(start, increment, k - 1), increment)
  }

  /** Each call comes no earlier than the wake time it was to wait for before, and
      less than one wrap after it. */
  ghost predicate OnSchedule(start: Time, increment: Tick, moments: seq<Time>) {
    forall i :: 0 <= i < |moments| ==>
      Due(start.At(), increment, i) <= moments[i].At() < Due(start.At(), increment, i) + WRAP
  }

  lemma {:induction false} PreviousIsDue(start: Time, increment: Tick, k: nat)
    ensures Previous(start.tick, increment, k) == Wrapped(Due(start.At(), increment, k))
  {
    if k > 0 {
      PreviousIsDue(start, increment, k - 1);
      WrappedSum(Due(start.At(), increment, k - 1), increment);
    }
  }

  /** k calls put the wake time at start + k * increment, and the k-th call blocks
      exactly when that time is still ahead. */
  lemma {:induction false} PeriodExact(start: Time, increment: Tick, moments: seq<Time>, k: nat)
    requires increment > 0 && k < |moments| && OnSchedule(start, increment, moments)
    ensures Previous(start.tick, increment, k + 1) == Wrapped(Due(start.At(), increment, k + 1))
    ensures Due(start.At(), increment, k + 1) == start.At() + (k + 1) * increment
    ensures ShouldDelay(moments[k].tick, Previous(start.tick, increment, k), increment)
       <==> start.At() + (k + 1) * increment > moments[k].At()
  {
    PreviousIsDue(start, increment, k);
    PreviousIsDue(start, increment, k + 1);
    DueClosed(start.At(), increment, k);
    DueClosed(start.At(), increment, k + 1);
    var due := Due(start.At(), increment, k);
    var previous := Time(due / 0x1_0000_0000, Wrapped(due));
    assert previous.At() == due;
    DelayUntilIff(moments[k], previous, increment);
  }

  lemma {:induction false} DueClosed(start: nat, increment: nat, k: nat)
    ensures Due(start, increment, k) == start + k * increment
  {
    if k > 0 {
      DueClosed(start, increment, k - 1);
    }
  }

  /** The whole path: a periodic task that calls at engine time `Now(e)` and has to
      block becomes ready exactly when the unbounded time reaches previous + increment. */
  lemma {:induction false} PeriodicWakeup(e: TickEngine.Engine, t: TickEngine.TaskId, previous: Time, increment: Tick, ops: seq<TickEngine.Op>)
    requires TickEngine.Inv(e) && Wakeups.Unlisted(e, t) && t !in e.pending && increment > 0
    requires previous.At() <= TickEngine.Now(e) < previous.At() + WRAP
    requires ShouldDelay(e.tick, previous.tick, increment)
    requires TickEngine.Possible(TickEngine.Step(e, TickEngine.Sleep(t, Wrapped(WakeTime(previous.tick, increment) - e.tick), false)), ops)
    requires Wakeups.Spares(ops, t)
    ensures var d := Wrapped(WakeTime(previous.tick, increment) - e.tick);
            var end := TickEngine.Run(TickEngine.Step(e, TickEngine.Sleep(t, d, false)), ops);
      && |e.readied| <= |end.readied|
      && Wakeups.Readyings(end, t, |e.readied|) == (if TickEngine.Now(end) >= previous.At() + increment then 1 else 0)
  {
    var now := Time(e.overflows, e.tick);
    DelayUntilIff(now, previous, increment);
    DelayUntilBlockTime(now, previous, increment);
    Wakeups.ExactWakeup(e, t, Wrapped(WakeTime(previous.tick, increment) - e.tick), false, ops);
  }
}
