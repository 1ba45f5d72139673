/** The tick and delay engine of tasks.c: two delayed lists that change places when
    the 32-bit tick count wraps, the cached next unblock time, ticks pended while
    the scheduler is suspended, and the tickless jump.

    `overflows` is xNumOfOverflows, kept unbounded: together with the tick count it
    names a point on an unbounded timeline, and so does the position of every
    sleeping task. `readied` is the sequence of prvAddTaskToReadyList calls. */
module TickEngine {
  import opened Common
  import opened SortedList

  type TaskId = nat

  datatype Engine = Engine(
    tick: Tick,
    delayed: seq<Item>,
    overflow: seq<Item>,
    next: Tick,
    overflows: nat,
    forever: seq<TaskId>,
    readied: seq<TaskId>,
    pending: seq<TaskId>,
    suspended: nat,
    pended: nat)

  /** Unbounded time. */
  function Now(e: Engine): nat { Epoch(e.overflows) + e.tick }

  function HeadValue(s: seq<Item>): Tick { if s == [] then MAX_DELAY else s[0].value }

  /** How many items at the front have reached their time. */
  function Expired(s: seq<Item>, tick: Tick): (k: nat)
    ensures k <= |s|
  {
    if s == [] || s[0].value > tick then 0 else 1 + Expired(s[1..], tick)
  }

  lemma {:induction false} ExpiredMeans(s: seq<Item>, tick: Tick)
    ensures var k := Expired(s, tick);
      (forall i :: 0 <= i < k ==> s[i].value <= tick) && (k < |s| ==> s[k].value > tick)
  {
    if s != [] && s[0].value <= tick {
      ExpiredMeans(s[1..], tick);
    }
  }

  function Tasks(s: seq<Item>): seq<TaskId> {
    if s == [] then [] else [s[0].owner] + Tasks(s[1..])
  }

  // ---------------------------------------------------------------------
  // The operations
  // ---------------------------------------------------------------------

  /** prvAddCurrentTaskToDelayedList for task `t`. */
  function Block(e: Engine, t: TaskId, d: Tick, canWaitForever: bool): Engine {
    if d == MAX_DELAY && canWaitForever then e.(forever := e.forever + [t])
    else
      var wake := Wrapped(e.tick + d);
      if wake < e.tick then e.(overflow := Insert(e.overflow, Item(t, wake)))
      else e.(delayed := Insert(e.delayed, Item(t, wake)), next := if wake < e.next then wake else e.next)
  }

  /** taskSWITCH_DELAYED_LISTS. */
  function Switch(e: Engine): Engine {
    e.(delayed := e.overflow, overflow := e.delayed, overflows := e.overflows + 1, next := HeadValue(e.overflow))
  }

  /** The scan: ready everything due and remember when the next one is. */
  function Scan(e: Engine): Engine {
    var k := Expired(e.delayed, e.tick);
    e.(delayed := e.delayed[k..], readied := e.readied + Tasks(e.delayed[..k]), next := HeadValue(e.delayed[k..]))
  }

  function Advanced(e: Engine): Engine {
    var e1 := e.(tick := Wrapped(e.tick + 1));
    if e1.tick == 0 then Switch(e1) else e1
  }

  /** xTaskIncrementTick with the scheduler running. */
  function TickOnce(e: Engine): Engine {
    var e1 := Advanced(e);
    if e1.tick >= e1.next then Scan(e1) else e1
  }

  /** The same without the cached guard. */
  function ScanningTick(e: Engine): Engine { Scan(Advanced(e)) }

  function Ticks(e: Engine, n: nat): Engine { Iterate(TickOnce, e, n) }

  /** A task leaves the Blocked state for another reason than time. Whether the
      cache is recomputed depends on the configuration. */
  function Release(e: Engine, t: TaskId, recompute: bool): Engine {
    var e1 := e.(delayed := Drop(e.delayed, t), overflow := Drop(e.overflow, t),
                 forever := Without(e.forever, t), readied := e.readied + [t]);
    if recompute then e1.(next := HeadValue(e1.delayed)) else e1
  }

  function DrainOne(e: Engine): Engine
    requires e.pending != []
  {
    Release(e, e.pending[0], false).(pending := e.pending[1..])
  }

  /** The pending-ready loop of xTaskResumeAll. */
  function Drain(e: Engine): Engine
    decreases |e.pending|
  {
    if e.pending == [] then e else Drain(DrainOne(e))
  }

  function Drained(e: Engine): Engine {
    if e.pending == [] then e else var d := Drain(e); d.(next := HeadValue(d.delayed))
  }

  function ResumeAll(e: Engine): Engine
    requires e.suspended > 0
  {
    var e1 := e.(suspended := e.suspended - 1);
    if e1.suspended > 0 then e1 else Ticks(Drained(e1), e1.pended).(pended := 0)
  }

  /** A tick interrupt while the scheduler is suspended. */
  function PendTicks(e: Engine, n: nat): Engine { e.(pended := e.pended + n) }

  /** The asserts of vTaskStepTick. */
  predicate StepAllowed(e: Engine, n: Tick) {
    && Wrapped(e.tick + n) <= e.next
    && (Wrapped(e.tick + n) == e.next ==> e.suspended > 0 && n != 0)
  }

  function StepTick(e: Engine, n: Tick): Engine
    requires StepAllowed(e, n)
  {
    if Wrapped(e.tick + n) == e.next then e.(pended := e.pended + 1, tick := Wrapped(e.tick + n - 1))
    else e.(tick := Wrapped(e.tick + n))
  }

  // ---------------------------------------------------------------------
  // The invariant
  // ---------------------------------------------------------------------

  /** Both lists are sorted, every task in the current list is still ahead of the
      tick count, and the cached unblock time is not after any of them. */
  ghost predicate Inv(e: Engine) {
    && Sorted(e.delayed) && Sorted(e.overflow)
    && (forall x :: x in e.delayed ==> e.tick < x.value && e.next <= x.value)
    && (e.tick < e.next || e.next == MAX_DELAY)
  }

  lemma {:induction false} HeadIsMember(s: seq<Item>)
    ensures s != [] ==> s[0] in s
  {
  }

  /** The current delayed list is empty whenever the lists are switched. */
  lemma {:induction false} EmptyAtSwitch(e: Engine)
    requires Inv(e) && Wrapped(e.tick + 1) == 0
    ensures e.delayed == []
  {
    HeadIsMember(e.delayed);
  }

  lemma {:induction false} AdvancedSorted(e: Engine)
    requires Inv(e)
    ensures var e1 := Advanced(e);
      && Sorted(e1.delayed) && Sorted(e1.overflow)
      && (forall x :: x in e1.delayed ==> e1.tick <= x.value && e1.next <= x.value)
      && Now(e1) == Now(e) + 1
  {
    if Wrapped(e.tick + 1) == 0 {
      EmptyAtSwitch(e);
    }
  }

  lemma {:induction false} ScanInv(e: Engine)
    requires Sorted(e.delayed) && Sorted(e.overflow)
    requires forall x :: x in e.delayed ==> e.tick <= x.value
    ensures Inv(Scan(e)) && Now(Scan(e)) == Now(e)
  {
    var k := Expired(e.delayed, e.tick);
    var rest := e.delayed[k..];
    ExpiredMeans(e.delayed, e.tick);
    forall x | x in rest ensures e.tick < x.value && HeadValue(rest) <= x.value {
      var i :| 0 <= i < |rest| && rest[i] == x;
    }
  }

  lemma {:induction false} TickInv(e: Engine)
    requires Inv(e)
    ensures Inv(TickOnce(e)) && Now(TickOnce(e)) == Now(e) + 1
    ensures Inv(ScanningTick(e)) && Now(ScanningTick(e)) == Now(e) + 1
  {
    AdvancedSorted(e);
    ScanInv(Advanced(e));
  }

  lemma {:induction false} BlockInv(e: Engine, t: TaskId, d: Tick, canWaitForever: bool)
    requires Inv(e) && d > 0
    ensures Inv(Block(e, t, d, canWaitForever))
  {
    var wake := Wrapped(e.tick + d);
    InsertSorted(e.delayed, Item(t, wake));
    InsertSorted(e.overflow, Item(t, wake));
  }

  lemma {:induction false} ReleaseInv(e: Engine, t: TaskId, recompute: bool)
    requires Inv(e)
    ensures Inv(Release(e, t, recompute))
    ensures Release(e, t, recompute).next >= e.next || !recompute
    ensures var r := Release(e, t, recompute);
      && (forall x :: x in r.delayed || x in r.overflow ==> x.owner != t) && t !in r.forever
      && r.readied == e.readied + [t] && Now(r) == Now(e)
      && (if recompute then r.delayed != [] ==> exists x :: x in r.delayed && x.value == r.next else r.next == e.next)
  {
    DropSorted(e.delayed, t);
    DropSorted(e.overflow, t);
    var d := Drop(e.delayed, t);
    assert d != [] ==> d[0] in d;
  }

  // ---------------------------------------------------------------------
  // Exact wake-up on the unbounded timeline
  // ---------------------------------------------------------------------

  /** The tasks filed under value `v`, in list order. */
  ghost function FiledAt(s: seq<Item>, v: int): seq<TaskId> {
    if s == [] then []
    else (if s[0].value == v then [s[0].owner] else []) + FiledAt(s[1..], v)
  }

  lemma {:induction false} FiledMember(s: seq<Item>, v: int, t: TaskId)
    ensures t in FiledAt(s, v) <==> 0 <= v < WRAP && Item(t, v) in s
  {
    if s != [] {
      FiledMember(s[1..], v, t);
      assert s == [s[0]] + s[1..];
    }
  }

  /** The tasks that are to wake at unbounded time `w`. */
  ghost function DueAt(e: Engine, w: int): seq<TaskId> {
    FiledAt(e.delayed, w - Epoch(e.overflows)) + FiledAt(e.overflow, w - Epoch(e.overflows + 1))
  }

  /** `t` is filed to wake at `w`. */
  ghost predicate SleepsUntil(e: Engine, t: TaskId, w: int) {
    var v := w - Epoch(e.overflows);
    || (0 <= v < WRAP && Item(t, v) in e.delayed)
    || (WRAP <= v < 2 * WRAP && Item(t, v - WRAP) in e.overflow)
  }

  lemma {:induction false} DueMember(e: Engine, t: TaskId, w: int)
    ensures t in DueAt(e, w) <==> SleepsUntil(e, t, w)
  {
    FiledMember(e.delayed, w - Epoch(e.overflows), t);
    FiledMember(e.overflow, w - Epoch(e.overflows + 1), t);
  }

  lemma {:induction false} FiledNowhere(s: seq<Item>, v: int)
    requires forall x :: x in s ==> x.value != v
    ensures FiledAt(s, v) == []
  {
    if s != [] {
      assert s[0] in s;
      FiledNowhere(s[1..], v);
    }
  }

  lemma {:induction false} ExpiredAreFiled(s: seq<Item>, v: Tick)
    requires Sorted(s) && forall x :: x in s ==> v <= x.value
    ensures Tasks(s[..Expired(s, v)]) == FiledAt(s, v)
  {
    if s == [] {
    } else if s[0].value > v {
      assert forall x :: x in s ==> x.value != v;
      FiledNowhere(s, v);
    } else {
      assert s[0] in s;
      ExpiredAreFiled(s[1..], v);
      assert s[..Expired(s, v)] == [s[0]] + s[1..][..Expired(s[1..], v)];
    }
  }

  lemma {:induction false} FiledBehind(s: seq<Item>, k: nat, v: int)
    requires k <= |s| && forall i :: 0 <= i < k ==> s[i].value != v
    ensures FiledAt(s[k..], v) == FiledAt(s, v)
  {
    if k > 0 {
      FiledBehind(s[1..], k - 1, v);
      assert s[1..][k - 1..] == s[k..];
    }
  }

  lemma {:induction false} AdvancedDue(e: Engine, w: int)
    requires Wrapped(e.tick + 1) == 0 ==> e.delayed == []
    ensures DueAt(Advanced(e), w) == DueAt(e, w)
  {
    if Wrapped(e.tick + 1) == 0 {
      var e1 := e.(tick := 0);
      SwitchDue(e1, w);
      assert DueAt(e1, w) == DueAt(e, w);
    }
  }

  /** Switching the lists at a wrap moves nobody on the timeline. */
  lemma {:induction false} SwitchDue(e: Engine, w: int)
    requires e.delayed == []
    ensures DueAt(Switch(e), w) == DueAt(e, w)
  {
    var later := FiledAt(e.overflow, w - Epoch(e.overflows + 1));
    assert DueAt(e, w) == [] + later;
    assert DueAt(Switch(e), w) == later + [];
  }

  lemma {:induction false} ScanDue(e: Engine, w: int)
    requires w > Now(e)
    ensures DueAt(Scan(e), w) == DueAt(e, w)
  {
    ExpiredMeans(e.delayed, e.tick);
    FiledBehind(e.delayed, Expired(e.delayed, e.tick), w - Epoch(e.overflows));
  }

  lemma {:induction false} ScanReadies(e: Engine)
    requires Sorted(e.delayed) && forall x :: x in e.delayed ==> e.tick <= x.value
    ensures Scan(e).readied == e.readied + DueAt(e, Now(e))
  {
    ExpiredAreFiled(e.delayed, e.tick);
    FiledNowhere(e.overflow, -WRAP + e.tick);
    assert FiledAt(e.delayed, e.tick) + [] == FiledAt(e.delayed, e.tick);
  }

  /** Nothing is due while the tick count is short of every listed value. */
  lemma {:induction false} QuietDue(e: Engine)
    requires forall x :: x in e.delayed ==> e.tick < x.value
    ensures DueAt(e, Now(e)) == []
  {
    FiledNowhere(e.delayed, e.tick);
    FiledNowhere(e.overflow, -WRAP + e.tick);
  }

  lemma {:induction false} TickKeepsLater(e: Engine, w: int)
    requires Inv(e) && w > Now(e) + 1
    ensures DueAt(TickOnce(e), w) == DueAt(e, w)
  {
    AdvancedSorted(e);
    if Wrapped(e.tick + 1) == 0 {
      EmptyAtSwitch(e);
    }
    AdvancedDue(e, w);
    ScanDue(Advanced(e), w);
  }

  lemma {:induction false} GuardedScanWakes(e: Engine)
    requires Sorted(e.delayed) && forall x :: x in e.delayed ==> e.tick <= x.value && e.next <= x.value
    ensures (if e.tick >= e.next then Scan(e) else e).readied == e.readied + DueAt(e, Now(e))
  {
    if e.tick < e.next {
      QuietDue(e);
    } else {
      ScanReadies(e);
    }
  }

  lemma {:induction false} TickWakesDue(e: Engine)
    requires Inv(e)
    ensures TickOnce(e).readied == e.readied + DueAt(e, Now(e) + 1)
  {
    var e1 := Advanced(e);
    assert Now(e1) == Now(e) + 1 by { AdvancedSorted(e); }
    assert TickOnce(e).readied == e.readied + DueAt(e1, Now(e1)) by {
      AdvancedSorted(e);
      GuardedScanWakes(e1);
    }
    assert DueAt(e1, Now(e1)) == DueAt(e, Now(e1)) by {
      if Wrapped(e.tick + 1) == 0 {
        EmptyAtSwitch(e);
      }
      AdvancedDue(e, Now(e1));
    }
  }

  /** One tick readies exactly the tasks due at the new time, in the order in which
      they are listed, and leaves every later task where it is on the timeline. */
  lemma {:induction false} TickWakesExactly(e: Engine)
    requires Inv(e)
    ensures TickOnce(e).readied == e.readied + DueAt(e, Now(e) + 1)
    ensures forall w :: w > Now(e) + 1 ==> DueAt(TickOnce(e), w) == DueAt(e, w)
  {
    TickWakesDue(e);
    forall w | w > Now(e) + 1 ensures DueAt(TickOnce(e), w) == DueAt(e, w) {
      TickKeepsLater(e, w);
    }
  }

  // ---------------------------------------------------------------------
  // Suspending, resuming, jumping
  // ---------------------------------------------------------------------

  lemma {:induction false} TicksNow(e: Engine, n: nat)
    requires Inv(e)
    ensures Inv(Ticks(e, n)) && Now(Ticks(e, n)) == Now(e) + n
  {
    var p := (k: nat, a: Engine) => Inv(a) && Now(a) == Now(e) + k;
    forall k: nat, a | k < n && p(k, a) ensures p(k + 1, TickOnce(a)) {
      TickInv(a);
    }
    IterateKeeps(TickOnce, p, e, 0, n);
  }

  lemma {:induction false} DrainInv(e: Engine)
    requires Inv(e)
    ensures Inv(Drain(e)) && Drain(e).next == e.next && Now(Drain(e)) == Now(e)
    ensures Drain(e).tick == e.tick && Drain(e).pended == e.pended && Drain(e).suspended == e.suspended
    decreases |e.pending|
  {
    if e.pending != [] {
      ReleaseInv(e, e.pending[0], false);
      DrainInv(DrainOne(e));
    }
  }

  lemma {:induction false} DrainedInv(e: Engine)
    requires Inv(e)
    ensures Inv(Drained(e)) && Drained(e).next >= e.next && Now(Drained(e)) == Now(e)
    ensures Drained(e).tick == e.tick && Drained(e).pended == e.pended
    ensures if e.pending == [] then Drained(e) == e else Drained(e).next == HeadValue(Drained(e).delayed)
  {
    DrainInv(e);
    HeadIsMember(Drain(e).delayed);
  }

  /** The outermost resume replays every pended tick. */
  lemma {:induction false} ResumeInv(e: Engine)
    requires Inv(e) && e.suspended > 0
    ensures Inv(ResumeAll(e))
    ensures Now(ResumeAll(e)) == Now(e) + (if e.suspended == 1 then e.pended else 0)
  {
    var e1 := e.(suspended := e.suspended - 1);
    DrainedInv(e1);
    TicksNow(Drained(e1), e.pended);
  }

  /** A tickless jump that does not wrap the tick count passes nobody's wake time. */
  lemma {:induction false} JumpInv(e: Engine, n: Tick)
    requires Inv(e) && StepAllowed(e, n) && e.tick + n < WRAP
    ensures Inv(StepTick(e, n))
    ensures StepTick(e, n) == e.(tick := StepTick(e, n).tick, pended := StepTick(e, n).pended)
    ensures StepTick(e, n).tick + StepTick(e, n).pended == e.tick + n + e.pended
    ensures e.tick <= StepTick(e, n).tick && (StepTick(e, n).tick < e.next || n == 0)
  {
  }

  // ---------------------------------------------------------------------
  // Runs
  // ---------------------------------------------------------------------

  datatype Op =
    | OneTick                                            // the tick interrupt
    | Sleep(t: TaskId, d: Tick, canWaitForever: bool)    // the running task blocks
    | Wake(t: TaskId, recompute: bool)                   // a task is readied before its time
    | Suspend
    | Resume
    | Jump(n: Tick)                                      // vTaskStepTick
    | Pend(t: TaskId)                                    // an interrupt readies a task meanwhile
  {
    predicate Names(x: TaskId) { (Sleep? || Wake? || Pend?) && t == x }
  }

  predicate CanStep(e: Engine, op: Op) {
    match op
    case Sleep(_, d, _) => d > 0
    case Resume => e.suspended > 0
    case Jump(n) => StepAllowed(e, n) && e.tick + n < WRAP
    case Pend(_) => e.suspended > 0
    case _ => true
  }

  function Step(e: Engine, op: Op): Engine
    requires CanStep(e, op)
  {
    match op
    case OneTick => if e.suspended == 0 then TickOnce(e) else PendTicks(e, 1)
    case Sleep(t, d, canWaitForever) => Block(e, t, d, canWaitForever)
    case Wake(t, recompute) => Release(e, t, recompute)
    case Suspend => e.(suspended := e.suspended + 1)
    case Resume => ResumeAll(e)
    case Jump(n) => StepTick(e, n)
    case Pend(t) => e.(pending := e.pending + [t])
  }

  predicate Possible(e: Engine, ops: seq<Op>)
    decreases |ops|
  {
    ops != [] ==> CanStep(e, ops[0]) && Possible(Step(e, ops[0]), ops[1..])
  }

  function Run(e: Engine, ops: seq<Op>): Engine
    requires Possible(e, ops)
    decreases |ops|
  {
    if ops == [] then e else Run(Step(e, ops[0]), ops[1..])
  }

  lemma {:induction false} StepInv(e: Engine, op: Op)
    requires Inv(e) && CanStep(e, op)
    ensures Inv(Step(e, op)) && Now(e) <= Now(Step(e, op))
  {
    match op
    case OneTick => TickInv(e);
    case Sleep(t, d, canWaitForever) => BlockInv(e, t, d, canWaitForever);
    case Wake(t, recompute) => ReleaseInv(e, t, recompute);
    case Resume => ResumeInv(e);
    case Jump(n) => JumpInv(e, n);
    case _ =>
  }

  /** In every run, however the scheduler is suspended and resumed and the tick count stepped
      on, the cached unblock time is not after any listed wake time, and every listed wake
      time is still ahead. */
  lemma {:induction false} RunInv(e: Engine, ops: seq<Op>)
    requires Inv(e) && Possible(e, ops)
    ensures Inv(Run(e, ops))
    decreases |ops|
  {
    if ops != [] {
      StepInv(e, ops[0]);
      RunInv(Step(e, ops[0]), ops[1..]);
    }
  }

  /** The tick interrupts and tickless jumps of a run, in ticks, and how much deeper it leaves
      the scheduler suspended. */
  function Elapsed(ops: seq<Op>): nat {
    if ops == [] then 0
    else Elapsed(ops[1..]) + (match ops[0] case OneTick => 1 case Jump(n) => n case _ => 0)
  }

  function Depth(ops: seq<Op>): int {
    if ops == [] then 0
    else Depth(ops[1..]) + (match ops[0] case Suspend => 1 case Resume => -1 case _ => 0)
  }

  /** No ticks are pended while the scheduler runs. */
  ghost predicate Current(e: Engine) { e.suspended == 0 ==> e.pended == 0 }

  lemma {:induction false} StepTime(e: Engine, op: Op)
    requires Inv(e) && Current(e) && CanStep(e, op)
    ensures Current(Step(e, op))
    ensures Now(Step(e, op)) + Step(e, op).pended == Now(e) + e.pended + Elapsed([op])
    ensures Step(e, op).suspended == e.suspended + Depth([op])
  {
    assert [op][1..] == [] && [op][0] == op;
    match op
    case OneTick => TickInv(e);
    case Resume =>
      ResumeInv(e);
      var e1 := e.(suspended := e.suspended - 1);
      DrainedInv(e1);
      DrainEmpties(e1);
      TicksPending(Drained(e1), e1.pended);
    case Jump(n) => JumpInv(e, n);
    case _ =>
  }

  /** No tick is lost and none counted twice: over every run the time processed and the ticks
      still pended grow by the tick interrupts and the jumps, however the scheduler is
      suspended meanwhile; suspensions nest, and with the last one gone nothing is pended. */
  lemma {:induction false} NoTickLost(e: Engine, ops: seq<Op>)
    requires Inv(e) && Current(e) && Possible(e, ops)
    ensures var end := Run(e, ops);
      && Now(end) + end.pended == Now(e) + e.pended + Elapsed(ops)
      && end.suspended == e.suspended + Depth(ops)
      && (end.suspended == 0 ==> end.pended == 0)
    decreases |ops|
  {
    if ops != [] {
      var e1 := Step(e, ops[0]);
      assert [ops[0]][1..] == [] && [ops[0]][0] == ops[0];
      StepTime(e, ops[0]);
      StepInv(e, ops[0]);
      NoTickLost(e1, ops[1..]);
    }
  }

  /** Replayed ticks are tick steps of a run. */
  lemma {:induction false} TicksAreSteps(e: Engine, n: nat)
    requires e.suspended == 0
    ensures Possible(e, seq(n, _ => OneTick)) && Ticks(e, n) == Run(e, seq(n, _ => OneTick))
    decreases n
  {
    if n > 0 {
      var ops := seq(n, _ => OneTick);
      TicksAreSteps(TickOnce(e), n - 1);
      assert ops[1..] == seq(n - 1, _ => OneTick);
      assert Step(e, ops[0]) == TickOnce(e);
    }
  }

  lemma {:induction false} TicksPending(e: Engine, n: nat)
    ensures Ticks(e, n).pending == e.pending && Ticks(e, n).suspended == e.suspended
  {
    var p := (k: nat, a: Engine) => a.pending == e.pending && a.suspended == e.suspended;
    forall k: nat, a | k < n && p(k, a) ensures p(k + 1, TickOnce(a)) {
    }
    IterateKeeps(TickOnce, p, e, 0, n);
  }

  lemma {:induction false} DrainEmpties(e: Engine)
    ensures Drain(e).pending == [] && Drain(e).suspended == e.suspended
    decreases |e.pending|
  {
    if e.pending != [] {
      DrainEmpties(DrainOne(e));
    }
  }

  /** One turn of the scan loop. */
  lemma {:induction false} ScanTurn(e: Engine)
    requires e.delayed != [] && e.delayed[0].value <= e.tick
    ensures Scan(e) == Scan(e.(delayed := e.delayed[1..], readied := e.readied + [e.delayed[0].owner]))
  {
    var k := Expired(e.delayed, e.tick);
    var rest := e.delayed[1..];
    assert k == 1 + Expired(rest, e.tick);
    assert rest[k - 1..] == e.delayed[k..];
    assert e.delayed[..k][1..] == rest[..k - 1];
    assert Tasks(e.delayed[..k]) == [e.delayed[0].owner] + Tasks(rest[..k - 1]);
    assert e.readied + Tasks(e.delayed[..k]) == e.readied + [e.delayed[0].owner] + Tasks(rest[..k - 1]);
  }
}
