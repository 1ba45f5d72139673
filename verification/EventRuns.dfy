/** What the operations on an event group come to for a single bit and a single task, over
    whole runs. */
module EventRuns {
  import opened Common
  import opened EventGroup

  /** A wait condition, bit by bit. */
  ghost predicate Met(bits: Bits, wanted: Bits, all: bool) {
    if all then forall b <- wanted :: b in bits else exists b :: b in wanted && b in bits
  }

  lemma {:induction false} ConditionMeans(bits: Bits, wanted: Bits, all: bool)
    ensures TestWaitCondition(bits, wanted, all) <==> Met(bits, wanted, all)
  {
    if all {
      assert bits * wanted == wanted <==> wanted <= bits;
    } else {
      assert forall b :: b in wanted && b in bits <==> b in bits * wanted;
      if bits * wanted != {} {
        var b :| b in bits * wanted;
      }
    }
  }

  /** Task `t` is blocked in a call. */
  ghost predicate Blocked(g: Group, t: Task) { exists x :: x in g.waiting && x.task == t }

  /** The bits `full` release task `t`. */
  ghost predicate ReleasedBy(g: Group, full: Bits, t: Task) {
    exists x :: x in g.waiting && x.task == t && Met(full, Wanted(x.value), ForAll(x.value))
  }

  function Brings(op: Op): Bits { if op.Set? || op.Meet? then op.b else {} }

  /** The operation takes the bit away. */
  ghost predicate Removes(g: Group, op: Op, bit: nat)
    requires Enabled(g, op)
  {
    match op
    case Set(b) => Claimed(g.waiting, g.bits + b, bit)
    case Clear(b) => bit in b
    case Wait(_, wanted, clear, all, _) => clear && bit in wanted && Met(g.bits, wanted, all)
    case Meet(_, b, wanted, _) => Claimed(g.waiting, g.bits + b, bit) || (bit in wanted && wanted <= g.bits + b)
    case Lapse(_) => false
    case RunOn(t, wanted, clear, all) =>
      clear && bit in wanted && !Unblocked(g.outcome[t]) && Met(g.bits, wanted, all)
  }

  /** A bit is set afterwards exactly if it was set or is brought, and the operation does not
      take it away. */
  lemma {:induction false} BitIff(g: Group, op: Op, bit: nat)
    requires Inv(g) && Enabled(g, op)
    ensures bit in Apply(g, op).bits <==> bit in g.bits + Brings(op) && !Removes(g, op, bit)
  {
    match op
    case Set(b) => SetBitsLeaves(g, b, bit);
    case Wait(t, wanted, clear, all, patient) => ConditionMeans(g.bits, wanted, all);
    case Meet(t, b, wanted, patient) => SyncReturns(g, t, b, wanted, patient, bit);
    case RunOn(t, wanted, clear, all) => ConditionMeans(g.bits, wanted, all);
    case _ =>
  }

  /** The operation makes its caller `t` wait. */
  ghost predicate Blocks(g: Group, op: Op, t: Task) {
    match op
    case Wait(u, wanted, _, all, patient) => u == t && patient && !Met(g.bits, wanted, all)
    case Meet(u, b, wanted, patient) => u == t && patient && !(wanted <= g.bits + b)
    case _ => false
  }

  /** The operation ends the wait of task `t`, by bits or because its time is up. */
  ghost predicate Frees(g: Group, op: Op, t: Task)
    requires Enabled(g, op)
  {
    match op
    case Set(b) => ReleasedBy(g, g.bits + b, t)
    case Meet(_, b, _, _) => ReleasedBy(g, g.bits + b, t)
    case Lapse(i) => g.waiting[i].task == t
    case _ => false
  }

  lemma {:induction false} SetBitsFrees(g: Group, b: Bits, t: Task)
    requires Inv(g)
    ensures Blocked(SetBits(g, b), t) <==> Blocked(g, t) && !ReleasedBy(g, g.bits + b, t)
    ensures t in SetBits(g, b).outcome <==> t in g.outcome || ReleasedBy(g, g.bits + b, t)
    ensures ReleasedBy(g, g.bits + b, t) ==> SetBits(g, b).outcome[t] == Released(g.bits + b)
  {
    var full := g.bits + b;
    forall x | x in g.waiting ensures Satisfied(x.value, full) <==> Met(full, Wanted(x.value), ForAll(x.value)) {
      ConditionMeans(full, Wanted(x.value), ForAll(x.value));
    }
    HandedExactly(g.waiting, full, g.outcome, t);
    if Blocked(g, t) {
      var x :| x in g.waiting && x.task == t;
      forall y | y in g.waiting && y.task == t ensures y == x {
        SameTaskSameItem(g.waiting, x, y);
      }
    }
  }

  /** A task is blocked from the call that finds its bits missing until bits release it or its
      time is up. */
  lemma {:induction false} BlockedIff(g: Group, op: Op, t: Task)
    requires Inv(g) && Enabled(g, op)
    ensures Blocked(Apply(g, op), t) <==> Blocks(g, op, t) || (Blocked(g, t) && !Frees(g, op, t))
  {
    match op
    case Set(b) => SetBitsFrees(g, b, t);
    case Wait(u, wanted, clear, all, patient) =>
      ConditionMeans(g.bits, wanted, all);
      AppendBlocks(g.waiting, Item(u, Packed(wanted, clear, all)), t);
    case Meet(u, b, wanted, patient) =>
      SetBitsFrees(g, b, t);
      AppendBlocks(SetBits(g, b).waiting, Item(u, Packed(wanted, true, true)), t);
      assert (g.bits + b) * wanted == wanted <==> wanted <= g.bits + b;
    case Lapse(i) => LapseFrees(g, i, t);
    case _ =>
  }

  lemma {:induction false} AppendBlocks(s: seq<Item>, y: Item, t: Task)
    ensures (exists x :: x in s + [y] && x.task == t) <==> (exists x :: x in s && x.task == t) || y.task == t
  {
    assert y in s + [y];
  }

  lemma {:induction false} LapseFrees(g: Group, i: nat, t: Task)
    requires Inv(g) && i < |g.waiting|
    ensures Blocked(TimeOut(g, i), t) <==> Blocked(g, t) && g.waiting[i].task != t
  {
    var h := TimeOut(g, i);
    forall k | 0 <= k < |h.waiting| ensures h.waiting[k] in g.waiting && h.waiting[k].task != g.waiting[i].task {
      assert h.waiting[k] == if k < i then g.waiting[k] else g.waiting[k + 1];
    }
    if Blocked(g, t) && g.waiting[i].task != t {
      var k :| 0 <= k < |g.waiting| && g.waiting[k].task == t;
      assert h.waiting[if k < i then k else k - 1] == g.waiting[k];
    }
  }

  /** A blocked caller can always run out of time, and then runs on and returns the bits as they
      are, no longer blocked. */
  lemma {:induction false} LapsedCallerReturns(g: Group, i: nat, wanted: Bits, clear: bool, all: bool)
    requires Inv(g) && i < |g.waiting|
    ensures Enabled(g, Lapse(i))
    ensures var t, h := g.waiting[i].task, Apply(g, Lapse(i));
      && Enabled(h, RunOn(t, wanted, clear, all)) && Resume(h, t, wanted, clear, all).value == Some(g.bits)
      && !Blocked(Apply(h, RunOn(t, wanted, clear, all)), t) && t !in Apply(h, RunOn(t, wanted, clear, all)).outcome
  {
    var t, h := g.waiting[i].task, Apply(g, Lapse(i));
    TimedOutCaller(g, i, wanted, clear, all);
    StepKeepsInv(g, Lapse(i));
    BlockedIff(g, Lapse(i), t);
    BlockedIff(h, RunOn(t, wanted, clear, all), t);
    OutcomeIff(h, RunOn(t, wanted, clear, all), t);
  }

  /** A task whose wait has ended has its outcome to collect until it runs on: the bits that
      released it, or its own item if its time was up. */
  lemma {:induction false} OutcomeIff(g: Group, op: Op, t: Task)
    requires Inv(g) && Enabled(g, op)
    ensures t in Apply(g, op).outcome <==> Frees(g, op, t) || (t in g.outcome && !(op.RunOn? && op.t == t))
    ensures Frees(g, op, t) ==> Apply(g, op).outcome[t] == if op.Lapse? then g.waiting[op.i].value else Released(g.bits + Brings(op))
  {
    match op
    case Set(b) => SetBitsFrees(g, b, t);
    case Meet(u, b, wanted, patient) => SetBitsFrees(g, b, t);
    case _ =>
  }

  /** Nothing in the run ends the wait of `t`. */
  ghost predicate NeverFreed(g: Group, run: seq<Op>, t: Task)
    decreases run
  {
    run != [] ==> Enabled(g, run[0]) && !Frees(g, run[0], t) && NeverFreed(Apply(g, run[0]), run[1..], t)
  }

  /** Over every run a blocked task stays blocked, with nothing to collect, until bits that meet
      its condition are set or its time is up. */
  lemma {:induction false} BlockedUntilFreed(g: Group, run: seq<Op>, h: Group, t: Task)
    requires Inv(g) && Leads(g, run, h) && Blocked(g, t) && NeverFreed(g, run, t)
    ensures Blocked(h, t) && t !in h.outcome
    decreases run
  {
    if run == [] {
      var x :| x in g.waiting && x.task == t;
    } else {
      BlockedIff(g, run[0], t);
      StepKeepsInv(g, run[0]);
      BlockedUntilFreed(Apply(g, run[0]), run[1..], h, t);
    }
  }
}
