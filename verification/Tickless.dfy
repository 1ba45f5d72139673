/** Tickless idle: when stepping the tick count on by n ticks and resuming is the same as
    pending n ticks and resuming. */
module Tickless {
  import opened Common
  import opened SortedList
  import opened TickEngine

  // ---------------------------------------------------------------------
  // Without a wrap
  // ---------------------------------------------------------------------

  /** Ticks short of the cached time only count. */
  lemma {:induction false} QuietTicks(e: Engine, m: nat)
    requires e.tick + m < e.next || m == 0
    ensures Ticks(e, m) == e.(tick := e.tick + m)
  {
    var p := (k: nat, a: Engine) => a.tick == e.tick + k && a == e.(tick := a.tick);
    forall k: nat, a | k < m && p(k, a) ensures p(k + 1, TickOnce(a)) {
    }
    IterateKeeps(TickOnce, p, e, 0, m);
  }

  lemma {:induction false} TicksAdd(e: Engine, m: nat, k: nat)
    ensures Ticks(e, m + k) == Ticks(Ticks(e, m), k)
  {
    IterateAdd(TickOnce, e, m, k);
  }

  lemma {:induction false} TicksIgnorePended(e: Engine, n: nat, p: nat)
    ensures Ticks(e.(pended := p), n) == Ticks(e, n).(pended := p)
  {
    var related := (x: Engine, y: Engine) => x == y.(pended := p);
    forall x, y | related(x, y) ensures related(TickOnce(x), TickOnce(y)) {
    }
    IterateRelated(TickOnce, TickOnce, related, e.(pended := p), e, n);
  }

  lemma {:induction false} DrainIgnoresTime(e: Engine, t: Tick, p: nat)
    ensures Drain(e.(tick := t, pended := p)) == Drain(e).(tick := t, pended := p)
    decreases |e.pending|
  {
    if e.pending != [] {
      DrainIgnoresTime(DrainOne(e), t, p);
      assert DrainOne(e.(tick := t, pended := p)) == DrainOne(e).(tick := t, pended := p);
    }
  }

  lemma {:induction false} DrainedIgnoresTime(e: Engine, t: Tick, p: nat)
    ensures Drained(e.(tick := t, pended := p)) == Drained(e).(tick := t, pended := p)
  {
    DrainIgnoresTime(e, t, p);
  }

  /** Replaying `jump` quiet ticks and `rest` more is jumping and replaying the rest. */
  lemma {:induction false} JumpIsReplay(d: Engine, jump: nat, t: Tick, rest: nat, p: nat, total: nat)
    requires d.tick + jump < d.next || jump == 0
    requires t == d.tick + jump && total == jump + rest
    ensures Ticks(d.(pended := total), total).(pended := 0)
         == Ticks(d.(tick := t, pended := p), rest).(pended := 0)
  {
    var x := d.(tick := t);
    assert Ticks(d.(pended := total), total) == Ticks(x.(pended := total), rest) by {
      TicksAdd(d.(pended := total), jump, rest);
      QuietTicks(d.(pended := total), jump);
    }
    assert Ticks(x.(pended := total), rest) == Ticks(x, rest).(pended := total) by {
      TicksIgnorePended(x, rest, total);
    }
    assert Ticks(x.(pended := p), rest) == Ticks(x, rest).(pended := p) by {
      TicksIgnorePended(x, rest, p);
    }
  }

  lemma {:induction false} ResumeReplays(e: Engine, d: Engine)
    requires e.suspended == 1 && Drained(e.(suspended := 0)) == d
    ensures ResumeAll(e) == Ticks(d, e.pended).(pended := 0)
  {
  }

  lemma {:induction false} ResumeAfterStep(e: Engine, n: Tick, t: Tick, p: nat, d: Engine)
    requires e.suspended == 1 && StepAllowed(e, n) && e.tick + n < WRAP && d == Drained(e.(suspended := 0))
    requires t == e.tick + n - (p - e.pended) && p == e.pended + (if e.tick + n == e.next then 1 else 0)
    ensures ResumeAll(StepTick(e, n)) == Ticks(d.(tick := t, pended := p), p).(pended := 0)
  {
    var e0 := e.(suspended := 0);
    DrainedIgnoresTime(e0, t, p);
    assert StepTick(e, n).(suspended := 0) == e0.(tick := t, pended := p);
    ResumeReplays(StepTick(e, n), d.(tick := t, pended := p));
  }

  lemma {:induction false} ResumeAfterPending(e: Engine, n: nat, d: Engine, q: nat)
    requires e.suspended == 1 && d == Drained(e.(suspended := 0)) && d.tick == e.tick && q == e.pended + n
    ensures ResumeAll(PendTicks(e, n)) == Ticks(d.(pended := q), q).(pended := 0)
  {
    var e0 := e.(suspended := 0);
    DrainedIgnoresTime(e0, e.tick, q);
    assert PendTicks(e, n).(suspended := 0) == e0.(tick := e.tick, pended := q);
    ResumeReplays(PendTicks(e, n), d.(pended := q));
  }

  lemma {:induction false} StepTickMatches(e: Engine, n: Tick, d: Engine)
    requires e.suspended == 1 && StepAllowed(e, n) && e.tick + n < WRAP
    requires d == Drained(e.(suspended := 0)) && d.tick == e.tick && d.next >= e.next
    ensures ResumeAll(StepTick(e, n)) == ResumeAll(PendTicks(e, n))
  {
    var p, total := e.pended + (if e.tick + n == e.next then 1 else 0), e.pended + n;
    var jump := n - (p - e.pended);
    var t: Tick := e.tick + jump;
    var stepped, pended := d.(tick := t, pended := p), d.(pended := total);
    assert ResumeAll(StepTick(e, n)) == Ticks(stepped, p).(pended := 0) by { ResumeAfterStep(e, n, t, p, d); }
    assert ResumeAll(PendTicks(e, n)) == Ticks(pended, total).(pended := 0) by { ResumeAfterPending(e, n, d, total); }
    assert Ticks(pended, total).(pended := 0) == Ticks(stepped, p).(pended := 0) by { JumpIsReplay(d, jump, t, p, p, total); }
  }

  // ---------------------------------------------------------------------
  // With a wrap
  // ---------------------------------------------------------------------

  lemma {:induction false} WrapLeavesInv(e: Engine, n: Tick)
    requires Inv(e) && e.suspended == 1 && StepAllowed(e, n) && e.tick + n >= WRAP
    ensures Inv(StepTick(e, n))
    ensures Now(StepTick(e, n)) + StepTick(e, n).pended == Now(e) + n + e.pended - WRAP
  {
    var j := StepTick(e, n);
    assert j.tick < e.tick;
  }

  /** The step taken and the pending tasks readied: the clock is a wrap behind. */
  lemma {:induction false} SteppedBack(e: Engine, n: Tick, d: Engine, j: Engine, p: nat)
    requires Inv(e) && e.suspended == 1 && StepAllowed(e, n) && e.tick + n >= WRAP
    requires d == Drained(e.(suspended := 0)) && p == StepTick(e, n).pended && j == d.(tick := StepTick(e, n).tick)
    ensures Inv(d) && Inv(j) && Now(d) == Now(e) && d.overflows == e.overflows
    ensures Now(j) + p == Now(d) + n + e.pended - WRAP && Now(j) < Now(d) && Now(d) + n >= Epoch(d.overflows + 1)
    ensures Drained(StepTick(e, n).(suspended := 0)) == j.(pended := p)
  {
    var e0, s := e.(suspended := 0), StepTick(e, n);
    WrapLeavesInv(e, n);
    DrainedInv(e0);
    DrainedIgnoresTime(e0, s.tick, p);
    assert s.(suspended := 0) == e0.(tick := s.tick, pended := p);
    DrainedInv(s.(suspended := 0));
  }

  /** What stepping and resuming comes to: `a`, reached from the stepped-back engine. */
  lemma {:induction false} StepOutcome(e: Engine, n: Tick, d: Engine, j: Engine, p: nat) returns (a: Engine)
    requires Inv(e) && e.suspended == 1 && StepAllowed(e, n) && e.tick + n >= WRAP
    requires d == Drained(e.(suspended := 0)) && p == StepTick(e, n).pended && j == d.(tick := StepTick(e, n).tick)
    ensures ResumeAll(StepTick(e, n)) == a.(pended := 0) && Reached(j, p, a)
  {
    SteppedBack(e, n, d, j, p);
    a := Ticks(j, p);
    TicksReach(j, p);
    assert ResumeAll(StepTick(e, n)) == Ticks(j.(pended := p), p).(pended := 0) by {
      ResumeReplays(StepTick(e, n), j.(pended := p));
    }
    assert Ticks(j.(pended := p), p) == a.(pended := p) by { TicksIgnorePended(j, p, p); }
  }

  /** What pending and resuming comes to. */
  lemma {:induction false} PendOutcome(e: Engine, n: Tick, d: Engine) returns (b: Engine)
    requires Inv(e) && e.suspended == 1 && d == Drained(e.(suspended := 0))
    ensures ResumeAll(PendTicks(e, n)) == b.(pended := 0) && Reached(d, e.pended + n, b)
  {
    var q := e.pended + n;
    DrainedInv(e.(suspended := 0));
    b := Ticks(d, q);
    TicksReach(d, q);
    assert ResumeAll(PendTicks(e, n)) == Ticks(d.(pended := q), q).(pended := 0) by { ResumeAfterPending(e, n, d, q); }
    PendedSame(d, q);
  }

  lemma {:induction false} PendedSame(d: Engine, q: nat)
    ensures Ticks(d.(pended := q), q).(pended := 0) == Ticks(d, q).(pended := 0)
  {
    TicksIgnorePended(d, q, q);
  }

  /** The jump loses a whole wrap of unbounded time. */
  lemma {:induction false} WrappedStepLosesTime(e: Engine, n: Tick)
    requires Inv(e) && e.suspended == 1 && StepAllowed(e, n) && e.tick + n >= WRAP
    ensures Now(ResumeAll(StepTick(e, n))) == Now(e) + n + e.pended - WRAP
    ensures Now(ResumeAll(PendTicks(e, n))) == Now(e) + n + e.pended
  {
    var d := Drained(e.(suspended := 0));
    var j, p := d.(tick := StepTick(e, n).tick), StepTick(e, n).pended;
    SteppedBack(e, n, d, j, p);
    var a := StepOutcome(e, n, d, j, p);
    var b := PendOutcome(e, n, d);
  }

  /** Tickless idle on the whole state, the number of wraps included: stepping and pending
      agree exactly when the step does not wrap the tick count. The asserts of
      vTaskStepTick compare wrapped values and so also admit steps that do. */
  lemma {:induction false} TicklessIff(e: Engine, n: Tick)
    requires Inv(e) && e.suspended == 1 && StepAllowed(e, n)
    ensures ResumeAll(StepTick(e, n)) == ResumeAll(PendTicks(e, n)) <==> e.tick + n < WRAP
  {
    if e.tick + n < WRAP {
      DrainedInv(e.(suspended := 0));
      StepTickMatches(e, n, Drained(e.(suspended := 0)));
    } else {
      WrappedStepLosesTime(e, n);
    }
  }

  // ---------------------------------------------------------------------
  // Tick count and lists alone
  // ---------------------------------------------------------------------

  /** The same tick count, delayed lists and ready order. */
  ghost predicate SameLists(a: Engine, b: Engine) {
    a.tick == b.tick && a.delayed == b.delayed && a.overflow == b.overflow && a.readied == b.readied
  }

  /** Everybody who sleeps for a time is to wake by time `w`. */
  ghost predicate AllDueBy(e: Engine, w: int) {
    && (forall x :: x in e.delayed ==> Epoch(e.overflows) + x.value <= w)
    && (forall x :: x in e.overflow ==> Epoch(e.overflows + 1) + x.value <= w)
  }

  lemma {:induction false} AllDueMeans(e: Engine, w: int, v: int)
    requires AllDueBy(e, w) && v > w
    ensures DueAt(e, v) == []
  {
    FiledNowhere(e.delayed, v - Epoch(e.overflows));
    FiledNowhere(e.overflow, v - Epoch(e.overflows + 1));
  }

  /** Nobody is still to wake at a time that has been processed. */
  lemma {:induction false} PastIsOver(e: Engine, v: int)
    requires Inv(e) && v <= Now(e)
    ensures DueAt(e, v) == []
  {
    var near, far := v - Epoch(e.overflows), v - Epoch(e.overflows + 1);
    assert near <= e.tick && far < 0;
    assert FiledAt(e.delayed, near) == [] by { FiledNowhere(e.delayed, near); }
    assert FiledAt(e.overflow, far) == [] by { FiledNowhere(e.overflow, far); }
  }

  /** Who is to wake when. */
  ghost function Timetable(e: Engine): int -> seq<TaskId> { w => DueAt(e, w) }

  /** The tasks due in the `n` ticks after `from`, in the order in which they are readied. */
  ghost function DueIn(due: int -> seq<TaskId>, from: int, n: nat): seq<TaskId> {
    if n == 0 then [] else DueIn(due, from, n - 1) + due(from + n)
  }

  lemma {:induction false} DueInSplit(due: int -> seq<TaskId>, from: int, m: nat, n: nat)
    ensures DueIn(due, from, m + n) == DueIn(due, from, m) + DueIn(due, from + m, n)
  {
    if n > 0 {
      DueInSplit(due, from, m, n - 1);
    }
  }

  lemma {:induction false} DueInNone(due: int -> seq<TaskId>, from: int, n: nat)
    requires forall w :: from < w <= from + n ==> due(w) == []
    ensures DueIn(due, from, n) == []
  {
    if n > 0 {
      DueInNone(due, from, n - 1);
    }
  }

  lemma {:induction false} DueInSame(due: int -> seq<TaskId>, also: int -> seq<TaskId>, from: int, n: nat)
    requires forall w :: due(w) == also(w)
    ensures DueIn(due, from, n) == DueIn(also, from, n)
  {
    if n > 0 {
      DueInSame(due, also, from, n - 1);
    }
  }

  /** If nobody is due up to `now` or after from + p, the stretch from `from` and the one from
      `now`, which ends later, ready the same tasks in the same order. */
  lemma {:induction false} SameDue(due: int -> seq<TaskId>, from: int, p: nat, now: int, q: nat)
    requires from < now && from + p <= now + q
    requires forall w :: w <= now || w > from + p ==> due(w) == []
    ensures DueIn(due, from, p) == DueIn(due, now, q)
  {
    var last := from + p;
    if last <= now {
      DueInNone(due, from, p);
      DueInNone(due, now, q);
    } else {
      var early, common := now - from, last - now;
      DueInSplit(due, from, early, common);
      DueInNone(due, from, early);
      DueInSplit(due, now, common, q - common);
      DueInNone(due, last, q - common);
    }
  }

  /** What `n` ticks after `e` have come to: everybody due has been readied in order, and
      everybody due later is where they were on the timeline. */
  ghost predicate Reached(e: Engine, n: nat, a: Engine) { Inv(a) && TimeHasPassed(e, n, a) }

  ghost predicate TimeHasPassed(e: Engine, n: nat, a: Engine) {
    && Now(a) == Now(e) + n
    && a.readied == e.readied + DueIn(Timetable(e), Now(e), n)
    && forall w :: w > Now(a) ==> DueAt(a, w) == DueAt(e, w)
  }

  lemma {:induction false} LogOn(due: int -> seq<TaskId>, from: int, n: nat, log: seq<TaskId>, log1: seq<TaskId>, log2: seq<TaskId>)
    requires log1 == log + DueIn(due, from, n) && log2 == log1 + due(from + (n + 1))
    ensures log2 == log + DueIn(due, from, n + 1)
  {
  }

  lemma {:induction false} LaterOn(e: Engine, a: Engine, a1: Engine, now: int)
    requires forall w :: w > now ==> DueAt(a, w) == DueAt(e, w)
    requires forall w :: w > now + 1 ==> DueAt(a1, w) == DueAt(a, w)
    ensures forall w :: w > now + 1 ==> DueAt(a1, w) == DueAt(e, w)
    ensures DueAt(a, now + 1) == DueAt(e, now + 1)
  {
  }

  lemma {:induction false} TimePasses(e: Engine, n: nat, a: Engine, a1: Engine)
    requires TimeHasPassed(e, n, a) && Now(a1) == Now(a) + 1
    requires a1.readied == a.readied + DueAt(a, Now(a) + 1)
    requires forall w :: w > Now(a) + 1 ==> DueAt(a1, w) == DueAt(a, w)
    ensures TimeHasPassed(e, n + 1, a1)
  {
    LaterOn(e, a, a1, Now(a));
    assert DueAt(a, Now(a) + 1) == Timetable(e)(Now(e) + (n + 1));
    LogOn(Timetable(e), Now(e), n, e.readied, a.readied, a1.readied);
  }

  lemma {:induction false} OneMoreTick(e: Engine, n: nat, a: Engine)
    requires Reached(e, n, a)
    ensures Reached(e, n + 1, TickOnce(a))
  {
    TickInv(a);
    TickWakesExactly(a);
    TimePasses(e, n, a, TickOnce(a));
  }

  lemma {:induction false} ReachedStart(e: Engine)
    requires Inv(e)
    ensures Reached(e, 0, e)
  {
    assert e.readied + [] == e.readied;
  }

  lemma {:induction false} TicksReach(e: Engine, n: nat)
    requires Inv(e)
    ensures Reached(e, n, Ticks(e, n))
  {
    if n == 0 {
      ReachedStart(e);
    } else {
      TicksReach(e, n - 1);
      LastTick(e, n - 1);
      OneMoreTick(e, n - 1, Ticks(e, n - 1));
    }
  }

  lemma {:induction false} LastTick(e: Engine, n: nat)
    ensures Ticks(e, n + 1) == TickOnce(Ticks(e, n))
  {
    var a := Ticks(e, n);
    TicksAdd(e, n, 1);
    assert Iterate(TickOnce, a, 1) == Iterate(TickOnce, TickOnce(a), 0);
  }

  /** Lists with nobody due after now are empty. */
  lemma {:induction false} EmptyWhenAllDue(e: Engine)
    requires Inv(e) && forall w :: w > Now(e) ==> DueAt(e, w) == []
    ensures e.delayed == [] && e.overflow == []
  {
    HeadIsMember(e.delayed);
    HeadIsMember(e.overflow);
    if e.delayed != [] {
      DueMember(e, e.delayed[0].owner, Epoch(e.overflows) + e.delayed[0].value);
    }
    if e.overflow != [] {
      DueMember(e, e.overflow[0].owner, Epoch(e.overflows + 1) + e.overflow[0].value);
    }
  }

  /** Engines a whole wrap apart have the same tick count. */
  lemma {:induction false} WrapApart(a: Engine, b: Engine)
    requires Now(a) + WRAP == Now(b)
    ensures a.tick == b.tick && b.overflows == a.overflows + 1
  {
  }

  /** Both stretches ready everybody there is. */
  lemma {:induction false} SameReadied(d: Engine, j: Engine, p: nat, q: nat)
    requires Inv(d) && j == d.(tick := j.tick) && Now(j) < Now(d) && Now(j) + p <= Now(d) + q
    requires AllDueBy(d, Now(j) + p)
    ensures DueIn(Timetable(j), Now(j), p) == DueIn(Timetable(d), Now(d), q)
  {
    forall w ensures Timetable(j)(w) == Timetable(d)(w) {
    }
    DueInSame(Timetable(j), Timetable(d), Now(j), p);
    forall w | w <= Now(d) || w > Now(j) + p ensures Timetable(d)(w) == [] {
      if w <= Now(d) { PastIsOver(d, w); } else { AllDueMeans(d, Now(j) + p, w); }
    }
    SameDue(Timetable(d), Now(j), p, Now(d), q);
  }

  /** Once everybody's time has come the lists are empty. */
  lemma {:induction false} ListsRunOut(d: Engine, w: int, p: nat, a: Engine)
    requires Reached(d, p, a) && AllDueBy(d, w) && w <= Now(a)
    ensures a.delayed == [] && a.overflow == []
  {
    forall v | v > Now(a) ensures DueAt(a, v) == [] {
      AllDueMeans(d, w, v);
    }
    EmptyWhenAllDue(a);
  }

  lemma {:induction false} AllDueSame(d: Engine, j: Engine, p: nat, q: nat, a: Engine, b: Engine)
    requires Inv(d) && j == d.(tick := j.tick) && Now(j) < Now(d) && Now(j) + p + WRAP == Now(d) + q
    requires Reached(j, p, a) && Reached(d, q, b) && AllDueBy(d, Now(j) + p)
    ensures SameLists(a, b)
  {
    WrapApart(a, b);
    SameReadied(d, j, p, q);
    ListsRunOut(j, Now(j) + p, p, a);
    ListsRunOut(d, Now(j) + p, q, b);
  }

  /** After a wrap nobody is left beyond the epoch of the time reached. */
  lemma {:induction false} NothingBeyond(d: Engine, q: nat, b: Engine)
    requires Reached(d, q, b) && Now(b) >= Epoch(d.overflows + 1)
    ensures b.overflow == []
  {
    HeadIsMember(b.overflow);
    if b.overflow != [] {
      var x := b.overflow[0];
      var w := Epoch(b.overflows + 1) + x.value;
      DueMember(b, x.owner, w);
      DueMember(d, x.owner, w);
      assert false;
    }
  }

  lemma {:induction false} SameMeansAllDue(d: Engine, j: Engine, p: nat, q: nat, a: Engine, b: Engine)
    requires j == d.(tick := j.tick) && Now(j) + p + WRAP == Now(d) + q
    requires Reached(j, p, a) && Reached(d, q, b) && Now(b) >= Epoch(d.overflows + 1) && SameLists(a, b)
    ensures AllDueBy(d, Now(j) + p)
  {
    WrapApart(a, b);
    NothingBeyond(d, q, b);
    HeadIsMember(b.delayed);
    if b.delayed != [] {
      var x := b.delayed[0];
      var w := Epoch(b.overflows) + x.value;
      DueMember(b, x.owner, w);
      assert DueAt(j, w) == DueAt(d, w);
      DueMember(a, x.owner, w);
      assert false;
    }
    LeftBehind(d, j, p, a);
  }

  /** Whoever is due after the time reached is still on a list. */
  lemma {:induction false} LeftBehind(d: Engine, j: Engine, p: nat, a: Engine)
    requires j == d.(tick := j.tick) && Reached(j, p, a) && a.delayed == [] && a.overflow == []
    ensures AllDueBy(d, Now(j) + p)
  {
    forall t, w | w > Now(a) ensures !SleepsUntil(d, t, w) {
      assert DueAt(a, w) == DueAt(j, w) == DueAt(d, w);
      DueMember(d, t, w);
      DueMember(a, t, w);
    }
    forall x | x in d.delayed ensures Epoch(d.overflows) + x.value <= Now(a) {
      assert SleepsUntil(d, x.owner, Epoch(d.overflows) + x.value);
    }
    forall x | x in d.overflow ensures Epoch(d.overflows + 1) + x.value <= Now(a) {
      assert SleepsUntil(d, x.owner, Epoch(d.overflows + 1) + x.value);
    }
  }

  /** Tickless idle on tick count and lists: stepping and pending agree exactly when the step
      does not wrap the tick count or everybody who is still asleep once the pending tasks
      are readied is due by the time a wrap earlier, which without many pended ticks means
      that nobody sleeps for a time at all. */
  lemma {:induction false} TicklessListsIff(e: Engine, n: Tick)
    requires Inv(e) && e.suspended == 1 && StepAllowed(e, n)
    ensures SameLists(ResumeAll(StepTick(e, n)), ResumeAll(PendTicks(e, n))) <==>
      e.tick + n < WRAP || AllDueBy(Drained(e.(suspended := 0)), Now(e) + n + e.pended - WRAP)
  {
    if e.tick + n < WRAP {
      TicklessIff(e, n);
    } else {
      var d := Drained(e.(suspended := 0));
      var j, p := d.(tick := StepTick(e, n).tick), StepTick(e, n).pended;
      var a := StepOutcome(e, n, d, j, p);
      var b := PendOutcome(e, n, d);
      WrappedOutcome(e, n, d, j, p, a, b);
      assert SameLists(a.(pended := 0), b.(pended := 0)) <==> SameLists(a, b);
    }
  }

  lemma {:induction false} WrappedOutcome(e: Engine, n: Tick, d: Engine, j: Engine, p: nat, a: Engine, b: Engine)
    requires Inv(e) && e.suspended == 1 && StepAllowed(e, n) && e.tick + n >= WRAP
    requires d == Drained(e.(suspended := 0)) && p == StepTick(e, n).pended && j == d.(tick := StepTick(e, n).tick)
    requires Reached(j, p, a) && Reached(d, e.pended + n, b)
    ensures SameLists(a, b) <==> AllDueBy(d, Now(e) + n + e.pended - WRAP)
  {
    SteppedBack(e, n, d, j, p);
    SameListsIff(d, j, p, e.pended + n, Now(e) + n + e.pended - WRAP, a, b);
  }

  lemma {:induction false} SameListsIff(d: Engine, j: Engine, p: nat, q: nat, last: int, a: Engine, b: Engine)
    requires Inv(d) && j == d.(tick := j.tick) && Now(j) < Now(d) && Now(j) + p == last == Now(d) + q - WRAP
    requires Reached(j, p, a) && Reached(d, q, b) && Now(d) + q >= Epoch(d.overflows + 1)
    ensures SameLists(a, b) <==> AllDueBy(d, last)
  {
    if AllDueBy(d, last) {
      AllDueSame(d, j, p, q, a, b);
    }
    if SameLists(a, b) {
      SameMeansAllDue(d, j, p, q, a, b);
    }
  }

  /** A step the asserts allow after which the tick count is the same but a sleeping task is
      on the wrong list, and so will be woken a whole wrap late. */
  lemma {:induction false} TicklessCounterexample()
    ensures var e := Engine(MAX_DELAY - 5, [], [Item(7, 20)], MAX_DELAY, 0, [], [], [], 1, 0);
      && Inv(e) && StepAllowed(e, 10)
      && !SameLists(ResumeAll(StepTick(e, 10)), ResumeAll(PendTicks(e, 10)))
  {
    var e := Engine(MAX_DELAY - 5, [], [Item(7, 20)], MAX_DELAY, 0, [], [], [], 1, 0);
    TicklessListsIff(e, 10);
    assert Item(7, 20) in Drained(e.(suspended := 0)).overflow;
  }
}
