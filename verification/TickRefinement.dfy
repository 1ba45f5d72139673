/** What the tick engine refines: a kernel without a cached unblock time and without tickless
    jumps. */
module TickRefinement {
  import opened Common
  import opened SortedList
  import opened TickEngine

  // ---------------------------------------------------------------------
  // One tick without the cache
  // ---------------------------------------------------------------------

  /** Equal in everything but the cache and the number of pended ticks. */
  ghost predicate Agree(a: Engine, b: Engine) { a.(next := 0, pended := 0) == b.(next := 0, pended := 0) }

  lemma {:induction false} AgreeAdvances(a: Engine, b: Engine)
    requires Agree(a, b)
    ensures Agree(Advanced(a), Advanced(b)) && Agree(ScanningTick(a), ScanningTick(b))
  {
  }

  lemma {:induction false} QuietScan(e: Engine)
    requires forall x :: x in e.delayed ==> e.tick < x.value
    ensures Agree(e, Scan(e))
  {
    HeadIsMember(e.delayed);
    assert Expired(e.delayed, e.tick) == 0;
    assert e.readied + Tasks(e.delayed[..0]) == e.readied;
  }

  /** The guarded tick does what the scanning tick does. */
  lemma {:induction false} GuardIsSound(a: Engine, b: Engine)
    requires Inv(a) && Agree(a, b)
    ensures Agree(TickOnce(a), ScanningTick(b))
  {
    AdvancedSorted(a);
    AgreeAdvances(a, b);
    if Advanced(a).tick < Advanced(a).next {
      QuietScan(Advanced(a));
    }
  }

  function ScanTicks(e: Engine, n: nat): Engine { Iterate(ScanningTick, e, n) }

  lemma {:induction false} GuardedTicksAgree(a: Engine, b: Engine, n: nat)
    requires Inv(a) && Agree(a, b)
    ensures Agree(Ticks(a, n), ScanTicks(b, n))
  {
    var related := (x: Engine, y: Engine) => Inv(x) && Agree(x, y);
    forall x, y | related(x, y) ensures related(TickOnce(x), ScanningTick(y)) {
      TickInv(x);
      GuardIsSound(x, y);
    }
    IterateRelated(TickOnce, ScanningTick, related, a, b, n);
  }

  /** Scans that find nothing due only count. */
  lemma {:induction false} QuietScans(e: Engine, n: nat)
    requires e.tick + n < WRAP && forall x :: x in e.delayed ==> e.tick + n < x.value
    ensures Agree(ScanTicks(e, n), e.(tick := e.tick + n)) && ScanTicks(e, n).pended == e.pended
    decreases n
  {
    if n > 0 {
      var e1 := ScanningTick(e);
      QuietScan(Advanced(e));
      assert e1 == e.(tick := e.tick + 1, next := e1.next);
      QuietScans(e1, n - 1);
    }
  }

  // ---------------------------------------------------------------------
  // Whole runs without cache and jumps
  // ---------------------------------------------------------------------

  /** The plain kernel: every tick is scanned, and a jump of n ticks is n ticks. */
  function PlainStep(e: Engine, op: Op): Engine {
    match op
    case OneTick => if e.suspended == 0 then ScanningTick(e) else PendTicks(e, 1)
    case Sleep(t, d, canWaitForever) => Block(e, t, d, canWaitForever)
    case Wake(t, recompute) => Release(e, t, recompute)
    case Suspend => e.(suspended := e.suspended + 1)
    case Resume =>
      if e.suspended > 1 then e.(suspended := e.suspended - 1)
      else ScanTicks(Drained(e.(suspended := 0)), e.pended).(pended := 0)
    case Jump(n) => if e.suspended == 0 then ScanTicks(e, n) else PendTicks(e, n)
    case Pend(t) => e.(pending := e.pending + [t])
  }

  function PlainRun(e: Engine, ops: seq<Op>): Engine
    decreases |ops|
  {
    if ops == [] then e else PlainRun(PlainStep(e, ops[0]), ops[1..])
  }

  /** Between a jump and the resume the plain kernel lags behind by ticks that are pended. */
  ghost predicate Lags(a: Engine, b: Engine) {
    && b.tick <= a.tick && a.pended + (a.tick - b.tick) == b.pended
    && Agree(a, b.(tick := a.tick))
    && (a.suspended == 0 ==> a.tick == b.tick && a.pended == 0 && a.pending == [])
  }

  /** The caller of vTaskStepTick has the scheduler suspended, so nobody blocks for a time
      between a jump and the resume. */
  predicate Orderly(e: Engine, ops: seq<Op>, jumped: bool)
    requires Possible(e, ops)
    decreases |ops|
  {
    ops != [] ==>
      && (ops[0].Sleep? ==> !jumped)
      && Orderly(Step(e, ops[0]), ops[1..], JumpedBy(e, ops[0], jumped))
  }

  predicate JumpedBy(e: Engine, op: Op, jumped: bool) {
    if op.Jump? then jumped || e.suspended > 0 else jumped && !(op.Resume? && e.suspended == 1)
  }

  lemma {:induction false} DrainIgnores(e: Engine, t: Tick, p: nat, x: Tick)
    ensures Drain(e.(tick := t, pended := p, next := x)) == Drain(e).(tick := t, pended := p, next := x)
    decreases |e.pending|
  {
    if e.pending != [] {
      DrainIgnores(DrainOne(e), t, p, x);
      assert DrainOne(e.(tick := t, pended := p, next := x)) == DrainOne(e).(tick := t, pended := p, next := x);
    }
  }

  lemma {:induction false} DrainedLags(a: Engine, b: Engine)
    requires Agree(a, b.(tick := a.tick))
    ensures Agree(Drained(a), Drained(b).(tick := a.tick)) && Drained(a).tick == a.tick && Drained(b).tick == b.tick
    ensures Drained(a).pended == a.pended && Drained(b).pended == b.pended
  {
    assert b == a.(tick := b.tick, pended := b.pended, next := b.next);
    DrainIgnores(a, b.tick, b.pended, b.next);
    DrainIgnores(a, a.tick, a.pended, a.next);
  }

  /** Resuming makes up for the lag. */
  lemma {:induction false} ResumeCatchesUp(a: Engine, b: Engine)
    requires Inv(a) && Lags(a, b) && a.suspended == 1
    ensures Lags(ResumeAll(a), PlainStep(b, Resume))
  {
    var a0, b0 := a.(suspended := 0), b.(suspended := 0);
    var da, db, lag := Drained(a0), Drained(b0), a.tick - b.tick;
    DrainedLags(a0, b0);
    assert Inv(da) by { DrainedInv(a0); }
    ReplayCatchesUp(da, db, lag, a.pended);
    assert da.pending == [] && da.suspended == 0 by { DrainEmpties(a0); }
    assert Ticks(da, a.pended).pending == [] && Ticks(da, a.pended).suspended == 0 by { TicksPending(da, a.pended); }
    CaughtUp(Ticks(da, a.pended), ScanTicks(db, lag + a.pended));
    Resumed(a, b, da, db, lag);
  }

  lemma {:induction false} Resumed(a: Engine, b: Engine, da: Engine, db: Engine, lag: int)
    requires a.suspended == 1 && b.suspended == 1 && da == Drained(a.(suspended := 0)) && db == Drained(b.(suspended := 0))
    requires lag >= 0 && b.pended == lag + a.pended
    ensures ResumeAll(a) == Ticks(da, a.pended).(pended := 0)
    ensures PlainStep(b, Resume) == ScanTicks(db, lag + a.pended).(pended := 0)
  {
  }

  lemma {:induction false} CaughtUp(a: Engine, b: Engine)
    requires Agree(a, b) && a.pending == []
    ensures Lags(a.(pended := 0), b.(pended := 0))
  {
  }

  lemma {:induction false} ReplayCatchesUp(da: Engine, db: Engine, lag: nat, p: nat)
    requires Inv(da) && Agree(da, db.(tick := da.tick)) && da.tick == db.tick + lag
    ensures Agree(Ticks(da, p), ScanTicks(db, lag + p))
  {
    assert Agree(da, ScanTicks(db, lag)) by { QuietScans(db, lag); }
    GuardedTicksAgree(da, ScanTicks(db, lag), p);
    IterateAdd(ScanningTick, db, lag, p);
  }

  lemma {:induction false} JumpLags(a: Engine, b: Engine, n: Tick)
    requires Inv(a) && Lags(a, b) && StepAllowed(a, n) && a.tick + n < WRAP
    ensures Lags(StepTick(a, n), PlainStep(b, Jump(n)))
  {
    JumpInv(a, n);
    if a.suspended == 0 {
      var c := a.(tick := a.tick + n);
      assert StepTick(a, n) == c;
      if n > 0 {
        QuietScans(b, n);
      }
    }
  }

  lemma {:induction false} TickLags(a: Engine, b: Engine)
    requires Inv(a) && Lags(a, b)
    ensures Lags(Step(a, OneTick), PlainStep(b, OneTick))
  {
    if a.suspended == 0 {
      GuardIsSound(a, b);
    }
  }

  lemma {:induction false} StepLags(a: Engine, b: Engine, op: Op)
    requires Inv(a) && CanStep(a, op) && Lags(a, b) && (op.Sleep? ==> a.tick == b.tick)
    ensures Lags(Step(a, op), PlainStep(b, op))
  {
    match op
    case OneTick => TickLags(a, b);
    case Resume => if a.suspended == 1 { ResumeCatchesUp(a, b); }
    case Jump(n) => JumpLags(a, b, n);
    case _ =>
  }

  /** Without a jump since the last resume there is no lag. */
  lemma {:induction false} LagMeansJumped(a: Engine, b: Engine, op: Op, jumped: bool)
    requires Inv(a) && CanStep(a, op) && Lags(a, b) && (a.tick != b.tick ==> jumped) && (op.Sleep? ==> a.tick == b.tick)
    requires Step(a, op).tick != PlainStep(b, op).tick
    ensures JumpedBy(a, op, jumped)
  {
    StepLags(a, b, op);
  }

  lemma {:induction false} RunLags(a: Engine, b: Engine, ops: seq<Op>, jumped: bool)
    requires Inv(a) && Lags(a, b) && (a.tick != b.tick ==> jumped)
    requires Possible(a, ops) && Orderly(a, ops, jumped)
    ensures Lags(Run(a, ops), PlainRun(b, ops))
    decreases |ops|
  {
    if ops != [] {
      var op := ops[0];
      StepInv(a, op);
      StepLags(a, b, op);
      if Step(a, op).tick != PlainStep(b, op).tick {
        LagMeansJumped(a, b, op, jumped);
      }
      RunLags(Step(a, op), PlainStep(b, op), ops[1..], JumpedBy(a, op, jumped));
    }
  }

  /** In every run of ticks, sleeps, releases, suspensions, resumes and tickless jumps, the
      kernel with the cache has the same tick count, delayed lists and ready order as the
      plain kernel whenever the scheduler is not suspended. */
  lemma {:induction false} CacheIsTransparent(e: Engine, ops: seq<Op>)
    requires Inv(e) && e.suspended == 0 && e.pended == 0 && e.pending == []
    requires Possible(e, ops) && Orderly(e, ops, false)
    ensures Run(e, ops).suspended == 0 ==> Agree(Run(e, ops), PlainRun(e, ops)) && PlainRun(e, ops).pended == 0
  {
    RunLags(e, e, ops, false);
  }
}
