/** How often and when a sleeping task is readied, over whole runs of the tick engine: by its
    time, by an event, or through the pending ready list. */
module Wakeups {
  import opened Common
  import opened SortedList
  import opened TickEngine

  // ---------------------------------------------------------------------
  // How often a task is filed
  // ---------------------------------------------------------------------

  /** How often `t` is filed to wake at unbounded time `w`. */
  ghost function Times(e: Engine, t: TaskId, w: int): nat { Occurrences(DueAt(e, w), t) }

  lemma {:induction false} TimesMeans(e: Engine, t: TaskId, w: int)
    ensures Times(e, t, w) > 0 <==> SleepsUntil(e, t, w)
  {
    DueMember(e, t, w);
  }

  lemma {:induction false} InsertedOnce(s: seq<Item>, x: Item, t: TaskId, v: int)
    ensures Occurrences(FiledAt(Insert(s, x), v), t) ==
      Occurrences(FiledAt(s, v), t) + (if x.owner == t && x.value == v then 1 else 0)
  {
    if s == [] || x.value < s[0].value {
      assert Insert(s, x)[0] == x && Insert(s, x)[1..] == s;
      HeadOccurs(Insert(s, x), t, v);
    } else {
      InsertedOnce(s[1..], x, t, v);
      assert Insert(s, x)[0] == s[0] && Insert(s, x)[1..] == Insert(s[1..], x);
      HeadOccurs(s, t, v);
      HeadOccurs(Insert(s, x), t, v);
    }
  }

  lemma {:induction false} HeadOccurs(s: seq<Item>, t: TaskId, v: int)
    requires s != []
    ensures Occurrences(FiledAt(s, v), t) ==
      Occurrences(FiledAt(s[1..], v), t) + (if s[0].owner == t && s[0].value == v then 1 else 0)
  {
    OccurrencesJoined(if s[0].value == v then [s[0].owner] else [], FiledAt(s[1..], v), t);
  }

  lemma {:induction false} DroppedAll(s: seq<Item>, x: TaskId, t: TaskId, v: int)
    ensures Occurrences(FiledAt(Drop(s, x), v), t) == if t == x then 0 else Occurrences(FiledAt(s, v), t)
  {
    if s != [] {
      DroppedAll(s[1..], x, t, v);
      HeadOccurs(s, t, v);
      if s[0].owner != x {
        assert Drop(s, x)[0] == s[0] && Drop(s, x)[1..] == Drop(s[1..], x);
        HeadOccurs(Drop(s, x), t, v);
      }
    }
  }

  /** What is due is due in the current list or in the overflow list. */
  lemma {:induction false} TimesSplit(e: Engine, t: TaskId, w: int, near: int, far: int)
    requires near == w - Epoch(e.overflows) && far == w - Epoch(e.overflows + 1)
    ensures Times(e, t, w) == Occurrences(FiledAt(e.delayed, near), t) + Occurrences(FiledAt(e.overflow, far), t)
  {
    OccurrencesJoined(FiledAt(e.delayed, near), FiledAt(e.overflow, far), t);
  }

  /** Blocking files the caller once, at its time, and nobody else. */
  lemma {:induction false} BlockTimes(e: Engine, x: TaskId, d: Tick, canWaitForever: bool, t: TaskId, v: int)
    ensures Times(Block(e, x, d, canWaitForever), t, v) == Times(e, t, v) +
      (if t == x && v == Now(e) + d && !(d == MAX_DELAY && canWaitForever) then 1 else 0)
  {
    if !(d == MAX_DELAY && canWaitForever) {
      var item := Item(x, Wrapped(e.tick + d));
      if item.value < e.tick {
        FarTimes(e, Block(e, x, d, canWaitForever), item, t, v);
      } else {
        NearTimes(e, Block(e, x, d, canWaitForever), item, t, v);
      }
    }
  }

  lemma {:induction false} NearTimes(e: Engine, e1: Engine, x: Item, t: TaskId, v: int)
    requires e1.delayed == Insert(e.delayed, x) && e1.overflow == e.overflow && e1.overflows == e.overflows
    ensures Times(e1, t, v) == Times(e, t, v) + (if x.owner == t && Epoch(e.overflows) + x.value == v then 1 else 0)
  {
    var near, far := v - Epoch(e.overflows), v - Epoch(e.overflows + 1);
    TimesSplit(e, t, v, near, far);
    TimesSplit(e1, t, v, near, far);
    InsertedOnce(e.delayed, x, t, near);
  }

  lemma {:induction false} FarTimes(e: Engine, e1: Engine, x: Item, t: TaskId, v: int)
    requires e1.overflow == Insert(e.overflow, x) && e1.delayed == e.delayed && e1.overflows == e.overflows
    ensures Times(e1, t, v) == Times(e, t, v) + (if x.owner == t && Epoch(e.overflows + 1) + x.value == v then 1 else 0)
  {
    var near, far := v - Epoch(e.overflows), v - Epoch(e.overflows + 1);
    TimesSplit(e, t, v, near, far);
    TimesSplit(e1, t, v, near, far);
    InsertedOnce(e.overflow, x, t, far);
  }

  /** A released task is filed nowhere; the others stay where they are. */
  lemma {:induction false} ReleaseTimes(e: Engine, x: TaskId, recompute: bool, t: TaskId, v: int)
    ensures Times(Release(e, x, recompute), t, v) == if t == x then 0 else Times(e, t, v)
  {
    var near, far := v - Epoch(e.overflows), v - Epoch(e.overflows + 1);
    TimesSplit(e, t, v, near, far);
    TimesSplit(Release(e, x, recompute), t, v, near, far);
    DroppedAll(e.delayed, x, t, near);
    DroppedAll(e.overflow, x, t, far);
  }

  // ---------------------------------------------------------------------
  // A task through a run
  // ---------------------------------------------------------------------

  /** `t` is to wake once, at `w`, if that is still ahead, and at no other time. */
  ghost predicate Filed(e: Engine, t: TaskId, w: int) {
    forall v :: v > Now(e) ==> Times(e, t, v) == if v == w then 1 else 0
  }

  /** How often `t` has been readied since the log had `mark` entries. */
  ghost function Readyings(e: Engine, t: TaskId, mark: nat): nat
    requires mark <= |e.readied|
  {
    Occurrences(e.readied[mark..], t)
  }

  /** `t` is filed under `w` while that is ahead, and has been readied `c` times, and once
      more when `w` has passed. */
  ghost predicate OnCourse(e: Engine, t: TaskId, w: int, mark: nat, c: int) {
    && mark <= |e.readied| && Filed(e, t, w)
    && Readyings(e, t, mark) == c + (if Now(e) >= w then 1 else 0)
  }

  /** The log grows by `more`. */
  lemma {:induction false} MoreReadied(e: Engine, e1: Engine, more: seq<TaskId>, t: TaskId, mark: nat)
    requires mark <= |e.readied| && e1.readied == e.readied + more
    ensures Readyings(e1, t, mark) == Readyings(e, t, mark) + Occurrences(more, t)
  {
    assert e1.readied[mark..] == e.readied[mark..] + more;
    OccurrencesJoined(e.readied[mark..], more, t);
  }

  lemma {:induction false} TickFiled(e: Engine, t: TaskId, w: int)
    requires Inv(e) && Filed(e, t, w)
    ensures Filed(TickOnce(e), t, w)
  {
    TickWakesExactly(e);
    TickInv(e);
    var e1 := TickOnce(e);
    forall v | v > Now(e1) ensures Times(e1, t, v) == if v == w then 1 else 0 {
      assert Times(e1, t, v) == Times(e, t, v);
    }
  }

  lemma {:induction false} TickOnCourse(e: Engine, t: TaskId, w: int, mark: nat, c: int)
    requires Inv(e) && OnCourse(e, t, w, mark, c)
    ensures OnCourse(TickOnce(e), t, w, mark, c)
  {
    var due := DueAt(e, Now(e) + 1);
    TickFiled(e, t, w);
    assert TickOnce(e).readied == e.readied + due by { TickWakesExactly(e); }
    assert Now(TickOnce(e)) == Now(e) + 1 by { TickInv(e); }
    MoreReadied(e, TickOnce(e), due, t, mark);
    assert Times(e, t, Now(e) + 1) == if w == Now(e) + 1 then 1 else 0;
  }

  lemma {:induction false} BlockOnCourse(e: Engine, x: TaskId, d: Tick, canWaitForever: bool, t: TaskId, w: int, mark: nat, c: int)
    requires OnCourse(e, t, w, mark, c) && x != t
    ensures OnCourse(Block(e, x, d, canWaitForever), t, w, mark, c)
  {
    var e1 := Block(e, x, d, canWaitForever);
    forall v | v > Now(e1) ensures Times(e1, t, v) == if v == w then 1 else 0 {
      BlockTimes(e, x, d, canWaitForever, t, v);
    }
  }

  lemma {:induction false} ReleaseOnCourse(e: Engine, x: TaskId, recompute: bool, t: TaskId, w: int, mark: nat, c: int)
    requires OnCourse(e, t, w, mark, c) && x != t
    ensures OnCourse(Release(e, x, recompute), t, w, mark, c)
  {
    var e1 := Release(e, x, recompute);
    forall v | v > Now(e1) ensures Times(e1, t, v) == if v == w then 1 else 0 {
      ReleaseTimes(e, x, recompute, t, v);
    }
    MoreReadied(e, e1, [x], t, mark);
  }

  /** A task that is released has been readied once more and is filed nowhere: as if its time
      were now. */
  lemma {:induction false} OwnRelease(e: Engine, t: TaskId, recompute: bool, mark: nat)
    requires mark <= |e.readied|
    ensures OnCourse(Release(e, t, recompute), t, Now(e), mark, Readyings(e, t, mark))
    ensures t !in Release(e, t, recompute).forever
  {
    var e1 := Release(e, t, recompute);
    forall v | v > Now(e1) ensures Times(e1, t, v) == 0 {
      ReleaseTimes(e, t, recompute, t, v);
    }
    MoreReadied(e, e1, [t], t, mark);
  }

  /** Only lists, log and time matter. */
  lemma {:induction false} SameCourse(e: Engine, f: Engine, t: TaskId, w: int, mark: nat, c: int)
    requires OnCourse(e, t, w, mark, c)
    requires f == e.(next := f.next, pended := f.pended, suspended := f.suspended, pending := f.pending, forever := f.forever)
    ensures OnCourse(f, t, w, mark, c)
  {
    forall v | v > Now(f) ensures Times(f, t, v) == if v == w then 1 else 0 {
      assert Times(f, t, v) == Times(e, t, v);
    }
  }

  lemma {:induction false} DrainOnCourse(e: Engine, t: TaskId, w: int, mark: nat, c: int)
    requires OnCourse(e, t, w, mark, c) && t !in e.pending
    ensures OnCourse(Drain(e), t, w, mark, c)
    ensures t in Drain(e).forever <==> t in e.forever
    decreases |e.pending|
  {
    if e.pending != [] {
      var r := Release(e, e.pending[0], false);
      ReleaseOnCourse(e, e.pending[0], false, t, w, mark, c);
      SameCourse(r, DrainOne(e), t, w, mark, c);
      DrainOnCourse(DrainOne(e), t, w, mark, c);
    }
  }

  lemma {:induction false} TicksOnCourse(e: Engine, n: nat, t: TaskId, w: int, mark: nat, c: int)
    requires Inv(e) && OnCourse(e, t, w, mark, c)
    ensures OnCourse(Ticks(e, n), t, w, mark, c)
  {
    var p := (k: nat, a: Engine) => Inv(a) && OnCourse(a, t, w, mark, c);
    forall k: nat, a | k < n && p(k, a) ensures p(k + 1, TickOnce(a)) {
      TickInv(a);
      TickOnCourse(a, t, w, mark, c);
    }
    IterateKeeps(TickOnce, p, e, 0, n);
  }

  /** The ticks replayed when the pending tasks have been readied. */
  lemma {:induction false} ReplayOnCourse(e: Engine, t: TaskId, w: int, mark: nat, c: int)
    requires Inv(e) && e.suspended == 1 && OnCourse(Drain(e.(suspended := 0)), t, w, mark, c)
    ensures OnCourse(ResumeAll(e), t, w, mark, c)
  {
    var e1 := e.(suspended := 0);
    var d := Drained(e1);
    SameCourse(Drain(e1), d, t, w, mark, c);
    DrainedInv(e1);
    TicksOnCourse(d, e1.pended, t, w, mark, c);
    SameCourse(Ticks(d, e1.pended), ResumeAll(e), t, w, mark, c);
  }

  lemma {:induction false} ResumeOnCourse(e: Engine, t: TaskId, w: int, mark: nat, c: int)
    requires Inv(e) && OnCourse(e, t, w, mark, c) && t !in e.pending && e.suspended > 0
    ensures OnCourse(ResumeAll(e), t, w, mark, c)
  {
    var e1 := e.(suspended := e.suspended - 1);
    SameCourse(e, e1, t, w, mark, c);
    if e1.suspended == 0 {
      DrainOnCourse(e1, t, w, mark, c);
      ReplayOnCourse(e, t, w, mark, c);
    }
  }

  lemma {:induction false} JumpOnCourse(e: Engine, n: Tick, t: TaskId, w: int, mark: nat, c: int)
    requires Inv(e) && OnCourse(e, t, w, mark, c) && StepAllowed(e, n) && e.tick + n < WRAP
    ensures OnCourse(StepTick(e, n), t, w, mark, c)
  {
    JumpInv(e, n);
    LaterFiled(e, StepTick(e, n), t, w);
    if Now(e) < w {
      assert SleepsUntil(e, t, w) by { TimesMeans(e, t, w); }
      StillAhead(e, n, t, w);
    }
  }

  /** Time passes and nobody moves. */
  lemma {:induction false} LaterFiled(e: Engine, f: Engine, t: TaskId, w: int)
    requires Filed(e, t, w) && f.delayed == e.delayed && f.overflow == e.overflow && f.overflows == e.overflows && e.tick <= f.tick
    ensures Filed(f, t, w)
  {
    forall v | v > Now(f) ensures Times(f, t, v) == if v == w then 1 else 0 {
      assert Times(f, t, v) == Times(e, t, v);
    }
  }

  /** A jump passes nobody's wake time. */
  lemma {:induction false} StillAhead(e: Engine, n: Tick, t: TaskId, w: int)
    requires Inv(e) && StepAllowed(e, n) && e.tick + n < WRAP && SleepsUntil(e, t, w) && Now(e) < w
    ensures Now(StepTick(e, n)) < w
  {
    JumpInv(e, n);
  }

  lemma {:induction false} StepOnCourse(e: Engine, op: Op, t: TaskId, w: int, mark: nat, c: int)
    requires Inv(e) && CanStep(e, op) && !op.Names(t) && OnCourse(e, t, w, mark, c) && t !in e.pending
    ensures OnCourse(Step(e, op), t, w, mark, c)
  {
    match op
    case OneTick => if e.suspended == 0 { TickOnCourse(e, t, w, mark, c); } else { SameCourse(e, PendTicks(e, 1), t, w, mark, c); }
    case Sleep(x, d, canWaitForever) => BlockOnCourse(e, x, d, canWaitForever, t, w, mark, c);
    case Wake(x, recompute) => ReleaseOnCourse(e, x, recompute, t, w, mark, c);
    case Resume => ResumeOnCourse(e, t, w, mark, c);
    case Jump(n) => JumpOnCourse(e, n, t, w, mark, c);
    case _ => SameCourse(e, Step(e, op), t, w, mark, c);
  }

  lemma {:induction false} TicksForever(e: Engine, n: nat)
    ensures Ticks(e, n).forever == e.forever
  {
    var p := (k: nat, a: Engine) => a.forever == e.forever;
    forall k: nat, a | k < n && p(k, a) ensures p(k + 1, TickOnce(a)) {
    }
    IterateKeeps(TickOnce, p, e, 0, n);
  }

  lemma {:induction false} DrainForever(e: Engine, t: TaskId)
    ensures t in Drain(e).forever <==> t in e.forever && t !in e.pending
    decreases |e.pending|
  {
    if e.pending != [] {
      DrainForever(DrainOne(e), t);
    }
  }

  /** Only an interrupt that readies `t` puts it on the pending list, and only a call of its
      own or its release concerns an indefinite wait. */
  lemma {:induction false} StaysUnpended(e: Engine, op: Op, t: TaskId)
    requires CanStep(e, op) && !op.Names(t) && t !in e.pending
    ensures t !in Step(e, op).pending && (t in Step(e, op).forever <==> t in e.forever)
  {
    if op.Resume? && e.suspended == 1 {
      ResumeClears(e, t);
    }
  }

  ghost predicate Spares(ops: seq<Op>, t: TaskId) { forall op :: op in ops ==> !op.Names(t) }

  lemma {:induction false} RunOnCourse(e: Engine, ops: seq<Op>, t: TaskId, w: int, mark: nat, c: int)
    requires Inv(e) && OnCourse(e, t, w, mark, c) && t !in e.pending && Possible(e, ops) && Spares(ops, t)
    ensures Inv(Run(e, ops)) && OnCourse(Run(e, ops), t, w, mark, c)
    ensures t !in Run(e, ops).pending && (t in Run(e, ops).forever <==> t in e.forever)
    decreases |ops|
  {
    if ops != [] {
      assert ops[0] in ops;
      StepOnCourse(e, ops[0], t, w, mark, c);
      StaysUnpended(e, ops[0], t);
      StepInv(e, ops[0]);
      RunOnCourse(Step(e, ops[0]), ops[1..], t, w, mark, c);
    }
  }

  // ---------------------------------------------------------------------
  // One sleep, one readying
  // ---------------------------------------------------------------------

  /** A task that is in no delayed list. */
  ghost predicate Unlisted(e: Engine, t: TaskId) {
    forall x :: x in e.delayed || x in e.overflow ==> x.owner != t
  }

  predicate Indefinite(d: Tick, canWaitForever: bool) { d == MAX_DELAY && canWaitForever }

  lemma {:induction false} UnlistedTimes(e: Engine, t: TaskId, v: int)
    requires Unlisted(e, t)
    ensures Times(e, t, v) == 0
  {
    TimesMeans(e, t, v);
  }

  /** Whoever's time has passed is in no delayed list. */
  lemma {:induction false} PastMeansUnlisted(e: Engine, t: TaskId, w: int)
    requires Inv(e) && Filed(e, t, w) && w <= Now(e)
    ensures Unlisted(e, t)
  {
    forall v | v > Now(e) ensures !SleepsUntil(e, t, v) {
      TimesMeans(e, t, v);
    }
    forall x | x in e.delayed ensures x.owner != t {
      assert x.owner == t ==> SleepsUntil(e, t, Epoch(e.overflows) + x.value);
    }
    forall x | x in e.overflow ensures x.owner != t {
      assert x.owner == t ==> SleepsUntil(e, t, Epoch(e.overflows + 1) + x.value);
    }
  }

  /** A task that goes to sleep is filed once, or waits for ever, and has not been readied. */
  lemma {:induction false} BlockFiles(e: Engine, t: TaskId, d: Tick, canWaitForever: bool)
    requires d > 0 && Unlisted(e, t)
    ensures var e1, mark := Block(e, t, d, canWaitForever), |e.readied|;
      if Indefinite(d, canWaitForever) then OnCourse(e1, t, -1, mark, -1) && t in e1.forever
      else OnCourse(e1, t, Now(e) + d, mark, 0)
  {
    var e1 := Block(e, t, d, canWaitForever);
    var w := if Indefinite(d, canWaitForever) then -1 else Now(e) + d;
    forall v | v > Now(e1) ensures Times(e1, t, v) == if v == w then 1 else 0 {
      BlockTimes(e, t, d, canWaitForever, t, v);
      UnlistedTimes(e, t, v);
    }
    assert e1.readied[|e.readied|..] == [];
  }

  /** Exact wake-up across any number of wraps: a task that blocks for `d` ticks and is not
      otherwise released has been readied exactly once when the time processed has reached
      the time of the call plus `d`, and not before; until then it sleeps until then, and
      afterwards it is in no delayed list.  Meanwhile the scheduler may be suspended and
      resumed, ticks pended and replayed, and the tick count stepped on. */
  lemma {:induction false} ExactWakeup(e: Engine, t: TaskId, d: Tick, canWaitForever: bool, ops: seq<Op>)
    requires Inv(e) && Unlisted(e, t) && t !in e.pending && d > 0 && !Indefinite(d, canWaitForever)
    requires Possible(Step(e, Sleep(t, d, canWaitForever)), ops) && Spares(ops, t)
    ensures var end := Run(Step(e, Sleep(t, d, canWaitForever)), ops);
      && |e.readied| <= |end.readied|
      && Readyings(end, t, |e.readied|) == (if Now(end) >= Now(e) + d then 1 else 0)
      && (if Now(end) >= Now(e) + d then Unlisted(end, t) else SleepsUntil(end, t, Now(e) + d))
  {
    GoesToSleep(e, t, d, canWaitForever);
    ExactFrom(Step(e, Sleep(t, d, canWaitForever)), t, Now(e) + d, |e.readied|, ops);
  }

  lemma {:induction false} GoesToSleep(e: Engine, t: TaskId, d: Tick, canWaitForever: bool)
    requires Inv(e) && Unlisted(e, t) && t !in e.pending && d > 0 && !Indefinite(d, canWaitForever)
    ensures var e1 := Step(e, Sleep(t, d, canWaitForever));
      Inv(e1) && OnCourse(e1, t, Now(e) + d, |e.readied|, 0) && t !in e1.pending
  {
    BlockInv(e, t, d, canWaitForever);
    BlockFiles(e, t, d, canWaitForever);
  }

  lemma {:induction false} ExactFrom(e: Engine, t: TaskId, w: int, mark: nat, ops: seq<Op>)
    requires Inv(e) && OnCourse(e, t, w, mark, 0) && t !in e.pending && Possible(e, ops) && Spares(ops, t)
    ensures var end := Run(e, ops);
      && mark <= |end.readied| && Readyings(end, t, mark) == (if Now(end) >= w then 1 else 0)
      && (if Now(end) >= w then Unlisted(end, t) else SleepsUntil(end, t, w))
  {
    RunOnCourse(e, ops, t, w, mark, 0);
    ListedUntil(Run(e, ops), t, w);
  }

  lemma {:induction false} ListedUntil(e: Engine, t: TaskId, w: int)
    requires Inv(e) && Filed(e, t, w)
    ensures if Now(e) >= w then Unlisted(e, t) else SleepsUntil(e, t, w)
  {
    if Now(e) >= w {
      PastMeansUnlisted(e, t, w);
    } else {
      TimesMeans(e, t, w);
    }
  }

  /** An indefinite wait ends with a release and with nothing else. */
  lemma {:induction false} NeverWakesByItself(e: Engine, t: TaskId, d: Tick, ops: seq<Op>)
    requires Inv(e) && Unlisted(e, t) && t !in e.pending && Indefinite(d, true)
    requires Possible(Step(e, Sleep(t, d, true)), ops) && Spares(ops, t)
    ensures var end := Run(Step(e, Sleep(t, d, true)), ops);
      && |e.readied| <= |end.readied| && Readyings(end, t, |e.readied|) == 0
      && t in end.forever && Unlisted(end, t)
  {
    BlockInv(e, t, d, true);
    BlockFiles(e, t, d, true);
    RunOnCourse(Step(e, Sleep(t, d, true)), ops, t, -1, |e.readied|, -1);
    PastMeansUnlisted(Run(Step(e, Sleep(t, d, true)), ops), t, -1);
  }

  /** A task asleep at `mid` since the log had `mark` entries. */
  ghost predicate StillAsleep(e: Engine, t: TaskId, mark: nat) {
    mark <= |e.readied| && Readyings(e, t, mark) == 0 && t !in e.pending
  }

  /** A task that has been readied once since then, and is on no list where it could be
      readied again. */
  ghost predicate AwakeOnce(e: Engine, t: TaskId, mark: nat) {
    mark <= |e.readied| && Readyings(e, t, mark) == 1 && Unlisted(e, t) && t !in e.forever && t !in e.pending
  }

  /** A sleeping task that an event releases is readied by that, and through every later run
      that does not name it is not readied again. */
  lemma {:induction false} ReleasedOnce(mid: Engine, t: TaskId, mark: nat, recompute: bool, ops: seq<Op>)
    requires Inv(mid) && StillAsleep(mid, t, mark)
    requires Possible(Step(mid, Wake(t, recompute)), ops) && Spares(ops, t)
    ensures AwakeOnce(Run(Step(mid, Wake(t, recompute)), ops), t, mark)
  {
    ReleaseInv(mid, t, recompute);
    OwnRelease(mid, t, recompute, mark);
    var e := Step(mid, Wake(t, recompute));
    RunOnCourse(e, ops, t, Now(mid), mark, 0);
    RunNow(e, ops);
    PastMeansUnlisted(Run(e, ops), t, Now(mid));
  }

  lemma {:induction false} RunNow(e: Engine, ops: seq<Op>)
    requires Inv(e) && Possible(e, ops)
    ensures Now(e) <= Now(Run(e, ops))
    decreases |ops|
  {
    if ops != [] {
      StepInv(e, ops[0]);
      RunNow(Step(e, ops[0]), ops[1..]);
    }
  }

  /** Each sleep readies its task exactly once, at the earlier of its release and its time: a
      task that blocks, is released by an event before its time has come, whatever happens
      in between, and then runs on. */
  lemma {:induction false} OneSleepOneReadying(e: Engine, t: TaskId, d: Tick, canWaitForever: bool, before: seq<Op>, recompute: bool, after: seq<Op>)
    requires Inv(e) && Unlisted(e, t) && t !in e.pending && d > 0
    requires Possible(Step(e, Sleep(t, d, canWaitForever)), before) && Spares(before, t) && Spares(after, t)
    requires var mid := Run(Step(e, Sleep(t, d, canWaitForever)), before);
      && (Indefinite(d, canWaitForever) || Now(mid) < Now(e) + d)
      && Possible(Step(mid, Wake(t, recompute)), after)
    ensures var mid := Run(Step(e, Sleep(t, d, canWaitForever)), before);
      && StillAsleep(mid, t, |e.readied|)
      && AwakeOnce(Run(Step(mid, Wake(t, recompute)), after), t, |e.readied|)
  {
    StillAsleepAt(e, t, d, canWaitForever, before);
    ReleasedOnce(Run(Step(e, Sleep(t, d, canWaitForever)), before), t, |e.readied|, recompute, after);
  }

  lemma {:induction false} StillAsleepAt(e: Engine, t: TaskId, d: Tick, canWaitForever: bool, before: seq<Op>)
    requires Inv(e) && Unlisted(e, t) && t !in e.pending && d > 0
    requires Possible(Step(e, Sleep(t, d, canWaitForever)), before) && Spares(before, t)
    requires Indefinite(d, canWaitForever) || Now(Run(Step(e, Sleep(t, d, canWaitForever)), before)) < Now(e) + d
    ensures Inv(Run(Step(e, Sleep(t, d, canWaitForever)), before))
    ensures StillAsleep(Run(Step(e, Sleep(t, d, canWaitForever)), before), t, |e.readied|)
  {
    BlockInv(e, t, d, canWaitForever);
    BlockFiles(e, t, d, canWaitForever);
    var e1 := Step(e, Sleep(t, d, canWaitForever));
    if Indefinite(d, canWaitForever) {
      RunOnCourse(e1, before, t, -1, |e.readied|, -1);
    } else {
      RunOnCourse(e1, before, t, Now(e) + d, |e.readied|, 0);
    }
  }

  // ---------------------------------------------------------------------
  // Through the pending ready list
  // ---------------------------------------------------------------------

  /** An interrupt has put `t` on the pending ready list, once, and it has not been readied. */
  ghost predicate OnItsWay(e: Engine, t: TaskId, mark: nat) {
    && e.suspended > 0 && Occurrences(e.pending, t) == 1
    && mark <= |e.readied| && Readyings(e, t, mark) == 0
  }

  lemma {:induction false} DrainReleases(e: Engine, t: TaskId, mark: nat)
    requires Occurrences(e.pending, t) == 1 && mark <= |e.readied| && Readyings(e, t, mark) == 0
    ensures OnCourse(Drain(e), t, Now(e), mark, 0)
    decreases |e.pending|
  {
    var x, rest := e.pending[0], e.pending[1..];
    assert e.pending == [x] + rest;
    var r := Release(e, x, false);
    if x == t {
      assert t !in rest;
      OwnRelease(e, t, false, mark);
      SameCourse(r, DrainOne(e), t, Now(e), mark, 0);
      DrainOnCourse(DrainOne(e), t, Now(e), mark, 0);
    } else {
      MoreReadied(e, DrainOne(e), [x], t, mark);
      DrainReleases(DrainOne(e), t, mark);
    }
  }

  /** The outermost resume readies it. */
  lemma {:induction false} ResumeReleases(e: Engine, t: TaskId, mark: nat)
    requires Inv(e) && e.suspended == 1 && OnItsWay(e, t, mark)
    ensures OnCourse(ResumeAll(e), t, Now(e), mark, 0) && t !in ResumeAll(e).forever && t !in ResumeAll(e).pending
  {
    var e1 := e.(suspended := 0);
    DrainReleases(e1, t, mark);
    ReplayOnCourse(e, t, Now(e), mark, 0);
    assert t in e.pending by { assert Occurrences(e.pending, t) == 1; }
    ResumeClears(e, t);
  }

  lemma {:induction false} ResumeClears(e: Engine, t: TaskId)
    requires e.suspended == 1
    ensures ResumeAll(e).pending == [] && (t in ResumeAll(e).forever <==> t in e.forever && t !in e.pending)
  {
    var e1 := e.(suspended := 0);
    DrainEmpties(e1);
    DrainForever(e1, t);
    TicksPending(Drained(e1), e1.pended);
    TicksForever(Drained(e1), e1.pended);
  }

  lemma {:induction false} StaysOnItsWay(e: Engine, op: Op, t: TaskId, mark: nat)
    requires OnItsWay(e, t, mark) && CanStep(e, op) && !op.Names(t) && !(op.Resume? && e.suspended == 1)
    ensures OnItsWay(Step(e, op), t, mark)
  {
    if op.Wake? {
      MoreReadied(e, Step(e, op), [op.t], t, mark);
    } else if op.Pend? {
      OccurrencesJoined(e.pending, [op.t], t);
    }
  }

  /** A sleeping task that an interrupt readies while the scheduler is suspended is readied
      exactly once, by the resume that ends the suspension, and until then stays pending. */
  lemma {:induction false} PendedOnce(e: Engine, t: TaskId, mark: nat, ops: seq<Op>)
    requires Inv(e) && OnItsWay(e, t, mark) && Possible(e, ops) && Spares(ops, t)
    ensures OnItsWay(Run(e, ops), t, mark) || AwakeOnce(Run(e, ops), t, mark)
    ensures Run(e, ops).suspended == 0 ==> AwakeOnce(Run(e, ops), t, mark)
    decreases |ops|
  {
    if ops != [] {
      assert ops[0] in ops;
      var e1 := Step(e, ops[0]);
      StepInv(e, ops[0]);
      if ops[0].Resume? && e.suspended == 1 {
        ResumeReleases(e, t, mark);
        RunOnCourse(e1, ops[1..], t, Now(e), mark, 0);
        RunNow(e1, ops[1..]);
        PastMeansUnlisted(Run(e1, ops[1..]), t, Now(e));
      } else {
        StaysOnItsWay(e, ops[0], t, mark);
        PendedOnce(e1, t, mark, ops[1..]);
      }
    }
  }

  /** The whole way: a task blocks, an interrupt readies it before its time has come while the
      scheduler is suspended, and from then on it is readied once, at the resume. */
  lemma {:induction false} OneSleepOneResume(e: Engine, t: TaskId, d: Tick, canWaitForever: bool, before: seq<Op>, after: seq<Op>)
    requires Inv(e) && Unlisted(e, t) && t !in e.pending && d > 0
    requires Possible(Step(e, Sleep(t, d, canWaitForever)), before) && Spares(before, t) && Spares(after, t)
    requires var mid := Run(Step(e, Sleep(t, d, canWaitForever)), before);
      && (Indefinite(d, canWaitForever) || Now(mid) < Now(e) + d)
      && CanStep(mid, Pend(t)) && Possible(Step(mid, Pend(t)), after)
    ensures var end := Run(Step(Run(Step(e, Sleep(t, d, canWaitForever)), before), Pend(t)), after);
      if end.suspended > 0 && t in end.pending then OnItsWay(end, t, |e.readied|) else AwakeOnce(end, t, |e.readied|)
  {
    StillAsleepAt(e, t, d, canWaitForever, before);
    var mid := Run(Step(e, Sleep(t, d, canWaitForever)), before);
    StepInv(mid, Pend(t));
    OccurrencesJoined(mid.pending, [t], t);
    PendedOnce(Step(mid, Pend(t)), t, |e.readied|, after);
    var end := Run(Step(mid, Pend(t)), after);
    assert OnItsWay(end, t, |e.readied|) ==> t in end.pending by {
      if OnItsWay(end, t, |e.readied|) { assert Occurrences(end.pending, t) == 1; }
    }
  }
}
