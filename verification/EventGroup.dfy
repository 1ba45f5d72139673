/** event_groups.c: bits, tasks waiting for combinations of them, and the release of
    those tasks.  Each operation runs with the scheduler suspended or in a critical
    section, so it is one step. */
module EventGroup {
  import opened Common

  /** An event value: the numbers of the bits that are set. */
  type Bits = set<nat>
  type Task = nat

  const CLEAR_ON_EXIT: Bits := {24}
  const UNBLOCKED_BY_BITS: Bits := {25}
  const WAIT_FOR_ALL: Bits := {26}
  const VALUE_IN_USE: Bits := {31}
  const CONTROL: Bits := {24, 25, 26, 27, 28, 29, 30, 31}

  /** A task's event item: the bits waited for together with the control bits. */
  datatype Item = Item(task: Task, value: Bits)

  /** `outcome` holds the event item value of every task that is no longer blocked but has
      not yet run on. */
  datatype Group = Group(bits: Bits, waiting: seq<Item>, outcome: map<Task, Bits>)

  // ------------------------------------------------------------------ wait conditions

  /** prvTestWaitCondition. */
  function TestWaitCondition(current: Bits, wanted: Bits, all: bool): bool {
    if !all then current * wanted != {} else current * wanted == wanted
  }

  /** The item value under which a caller waits (vTaskPlaceOnUnorderedEventList adds the
      last bit). */
  function Packed(wanted: Bits, clear: bool, all: bool): Bits {
    wanted + (if clear then CLEAR_ON_EXIT else {}) + (if all then WAIT_FOR_ALL else {}) + VALUE_IN_USE
  }

  /** The item value with which a waiter is released (vTaskRemoveFromUnorderedEventList). */
  function Released(bits: Bits): Bits { bits + UNBLOCKED_BY_BITS + VALUE_IN_USE }

  function Wanted(value: Bits): Bits { value - CONTROL }

  function ForAll(value: Bits): bool { value * WAIT_FOR_ALL != {} }

  function ClearsOnExit(value: Bits): bool { value * CLEAR_ON_EXIT != {} }

  function Unblocked(value: Bits): bool { value * UNBLOCKED_BY_BITS != {} }

  predicate User(b: Bits) { b * CONTROL == {} }

  /** The control bits do not disturb the bits waited for, nor each other, and a waiting
      item never looks like a released one. */
  lemma {:induction false} PackingRoundTrip(wanted: Bits, clear: bool, all: bool)
    requires User(wanted)
    ensures Wanted(Packed(wanted, clear, all)) == wanted
    ensures ForAll(Packed(wanted, clear, all)) == all
    ensures ClearsOnExit(Packed(wanted, clear, all)) == clear
    ensures !Unblocked(Packed(wanted, clear, all))
  {
  }

  lemma {:induction false} ReleaseRoundTrip(b: Bits)
    requires User(b)
    ensures Wanted(Released(b)) == b && Unblocked(Released(b))
  {
    UserBitsOnly(b);
    assert Wanted(Released(b)) == Wanted(b);
    assert 25 in Released(b) * UNBLOCKED_BY_BITS;
  }

  lemma {:induction false} UserBitsOnly(b: Bits)
    requires User(b)
    ensures Wanted(b) == b
  {
    assert b - CONTROL == b - b * CONTROL;
  }

  predicate Satisfied(value: Bits, current: Bits) {
    TestWaitCondition(current, Wanted(value), ForAll(value))
  }

  /** Clearing bits satisfies nobody. */
  lemma {:induction false} ClearingSatisfiesNobody(value: Bits, current: Bits, cleared: Bits)
    requires Satisfied(value, current - cleared)
    ensures Satisfied(value, current)
  {
    assert (current - cleared) * Wanted(value) <= current * Wanted(value);
  }

  // ------------------------------------------------------------------------ releasing

  /** The waiters left behind when the bits become `full`, in order. */
  function Kept(s: seq<Item>, full: Bits): (r: seq<Item>)
    ensures forall x :: x in r <==> x in s && !Satisfied(x.value, full)
  {
    if s == [] then []
    else
      var x := s[|s| - 1];
      Kept(s[..|s| - 1], full) + (if Satisfied(x.value, full) then [] else [x])
  }

  /** The bits that the released waiters asked to have cleared. */
  function ToClear(s: seq<Item>, full: Bits): Bits {
    if s == [] then {}
    else
      var x := s[|s| - 1];
      ToClear(s[..|s| - 1], full) +
        (if Satisfied(x.value, full) && ClearsOnExit(x.value) then Wanted(x.value) else {})
  }

  /** Every released waiter is handed the bits as they were before clearing. */
  function Handed(s: seq<Item>, full: Bits, outcome: map<Task, Bits>): map<Task, Bits> {
    if s == [] then outcome
    else
      var x := s[|s| - 1];
      var rest := Handed(s[..|s| - 1], full, outcome);
      if Satisfied(x.value, full) then rest[x.task := Released(full)] else rest
  }

  function SetBits(g: Group, b: Bits): Group {
    var full := g.bits + b;
    Group(full - ToClear(g.waiting, full), Kept(g.waiting, full), Handed(g.waiting, full, g.outcome))
  }

  /** A bit is cleared exactly if some released waiter asked for it. */
  lemma {:induction false} ClearsTheUnion(s: seq<Item>, full: Bits, bit: nat)
    ensures bit in ToClear(s, full) <==>
      exists x :: x in s && Satisfied(x.value, full) && ClearsOnExit(x.value) && bit in Wanted(x.value)
  {
    if s != [] {
      ClearsTheUnion(s[..|s| - 1], full, bit);
      assert s == s[..|s| - 1] + [s[|s| - 1]];
    }
  }

  lemma {:induction false} HandedExactly(s: seq<Item>, full: Bits, outcome: map<Task, Bits>, t: Task)
    ensures (exists x :: x in s && x.task == t && Satisfied(x.value, full)) ==>
      t in Handed(s, full, outcome) && Handed(s, full, outcome)[t] == Released(full)
    ensures !(exists x :: x in s && x.task == t && Satisfied(x.value, full)) ==>
      && (t in Handed(s, full, outcome) <==> t in outcome)
      && (t in outcome ==> Handed(s, full, outcome)[t] == outcome[t])
  {
    if s != [] {
      HandedExactly(s[..|s| - 1], full, outcome, t);
      assert s == s[..|s| - 1] + [s[|s| - 1]];
    }
  }

  // ----------------------------------------------------------------------- operations

  /** The group afterwards, and the value returned unless the caller has blocked. */
  datatype Reply = Reply(group: Group, value: Option<Bits>)

  /** xEventGroupWaitBits up to the point where the caller returns or blocks; `patient`
      says that a block time was given. */
  function WaitBits(g: Group, t: Task, wanted: Bits, clear: bool, all: bool, patient: bool): Reply {
    if TestWaitCondition(g.bits, wanted, all) then
      Reply(if clear then g.(bits := g.bits - wanted) else g, Some(g.bits))
    else if !patient then Reply(g, Some(g.bits))
    else Reply(g.(waiting := g.waiting + [Item(t, Packed(wanted, clear, all))]), None)
  }

  /** xEventGroupSync up to the point where the caller returns or blocks. */
  function Sync(g: Group, t: Task, set_: Bits, wanted: Bits, patient: bool): Reply {
    var h := SetBits(g, set_);
    if (g.bits + set_) * wanted == wanted then
      Reply(h.(bits := h.bits - wanted), Some(g.bits + set_))
    else if patient then Reply(h.(waiting := h.waiting + [Item(t, Packed(wanted, true, true))]), None)
    else Reply(h, Some(h.bits))
  }

  /** xEventGroupClearBits. */
  function ClearBits(g: Group, b: Bits): Reply {
    Reply(g.(bits := g.bits - b), Some(g.bits))
  }

  /** The tick unblocks a task whose block time is over. */
  function TimeOut(g: Group, i: nat): Group
    requires i < |g.waiting|
  {
    var x := g.waiting[i];
    g.(waiting := g.waiting[..i] + g.waiting[i + 1..], outcome := g.outcome[x.task := x.value])
  }

  /** A task that had blocked runs on to the end of its call. */
  function Resume(g: Group, t: Task, wanted: Bits, clear: bool, all: bool): Reply
    requires t in g.outcome
  {
    var value, h := g.outcome[t], g.(outcome := g.outcome - {t});
    if Unblocked(value) then Reply(h, Some(Wanted(value)))
    else if TestWaitCondition(g.bits, wanted, all) && clear then
      Reply(h.(bits := g.bits - wanted), Some(Wanted(g.bits)))
    else Reply(h, Some(Wanted(g.bits)))
  }

  datatype Op =
    | Set(b: Bits)
    | Clear(b: Bits)
    | Wait(t: Task, wanted: Bits, clear: bool, all: bool, patient: bool)
    | Meet(t: Task, b: Bits, wanted: Bits, patient: bool)
    | Lapse(i: nat)
    | RunOn(t: Task, wanted: Bits, clear: bool, all: bool)

  /** A task whose call is under way. */
  ghost predicate Busy(g: Group, t: Task) {
    t in g.outcome || exists x :: x in g.waiting && x.task == t
  }

  ghost predicate Enabled(g: Group, op: Op) {
    match op
    case Set(b) => User(b)
    case Clear(b) => User(b)
    case Wait(t, wanted, _, _, _) => !Busy(g, t) && User(wanted) && wanted != {}
    case Meet(t, b, wanted, _) => !Busy(g, t) && User(b) && User(wanted) && wanted != {}
    case Lapse(i) => i < |g.waiting|
    case RunOn(t, _, _, _) => t in g.outcome
  }

  ghost function Apply(g: Group, op: Op): Group
    requires Enabled(g, op)
  {
    match op
    case Set(b) => SetBits(g, b)
    case Clear(b) => ClearBits(g, b).group
    case Wait(t, wanted, clear, all, patient) => WaitBits(g, t, wanted, clear, all, patient).group
    case Meet(t, b, wanted, patient) => Sync(g, t, b, wanted, patient).group
    case Lapse(i) => TimeOut(g, i)
    case RunOn(t, wanted, clear, all) => Resume(g, t, wanted, clear, all).group
  }

  // ------------------------------------------------------------------------ invariant

  /** No blocked task's condition is met by the bits. */
  ghost predicate NobodySatisfied(waiting: seq<Item>, bits: Bits) {
    forall x <- waiting :: !Satisfied(x.value, bits)
  }

  ghost predicate DistinctTasks(s: seq<Item>) {
    forall i, j :: 0 <= i < j < |s| ==> s[i].task != s[j].task
  }

  /** No task is in two places, and waiting items never look released. */
  ghost predicate WellFormed(g: Group) {
    && User(g.bits)
    && DistinctTasks(g.waiting)
    && (forall x <- g.waiting :: x.task !in g.outcome && !Unblocked(x.value))
  }

  ghost predicate Inv(g: Group) {
    WellFormed(g) && NobodySatisfied(g.waiting, g.bits)
  }

  lemma {:induction false} KeptIsSubsequence(s: seq<Item>, full: Bits)
    requires DistinctTasks(s)
    ensures DistinctTasks(Kept(s, full))
  {
    if s != [] {
      var init, x := s[..|s| - 1], s[|s| - 1];
      KeptIsSubsequence(init, full);
      var k := Kept(init, full);
      forall i | 0 <= i < |k| ensures k[i].task != x.task {
        assert k[i] in k;
      }
    }
  }

  /** After SetBits nobody left waiting is satisfied: not by the full value, hence not by
      what remains after clearing. */
  lemma {:induction false} SetBitsKeepsInv(g: Group, b: Bits)
    requires Inv(g) && User(b)
    ensures Inv(SetBits(g, b)) && NobodySatisfied(SetBits(g, b).waiting, g.bits + b)
  {
    var full, h := g.bits + b, SetBits(g, b);
    KeptIsSubsequence(g.waiting, full);
    forall x | x in h.waiting ensures !Satisfied(x.value, h.bits) && x.task !in h.outcome {
      if Satisfied(x.value, h.bits) {
        ClearingSatisfiesNobody(x.value, full, ToClear(g.waiting, full));
      }
      HandedExactly(g.waiting, full, g.outcome, x.task);
    }
  }

  lemma {:induction false} ClearingKeepsInv(g: Group, b: Bits)
    requires Inv(g)
    ensures Inv(g.(bits := g.bits - b))
  {
    forall x | x in g.waiting ensures !Satisfied(x.value, g.bits - b) {
      if Satisfied(x.value, g.bits - b) {
        ClearingSatisfiesNobody(x.value, g.bits, b);
      }
    }
  }

  lemma {:induction false} BlockingKeepsInv(g: Group, t: Task, wanted: Bits, clear: bool, all: bool)
    requires Inv(g) && !Busy(g, t) && User(wanted) && !TestWaitCondition(g.bits, wanted, all)
    ensures Inv(g.(waiting := g.waiting + [Item(t, Packed(wanted, clear, all))]))
  {
    PackingRoundTrip(wanted, clear, all);
  }

  /** SetBits never makes an idle task busy. */
  lemma {:induction false} StillIdle(g: Group, b: Bits, t: Task)
    requires !Busy(g, t)
    ensures !Busy(SetBits(g, b), t)
  {
    HandedExactly(g.waiting, g.bits + b, g.outcome, t);
  }

  lemma {:induction false} SyncKeepsInv(g: Group, t: Task, b: Bits, wanted: Bits, patient: bool)
    requires Inv(g) && !Busy(g, t) && User(b) && User(wanted)
    ensures Inv(Sync(g, t, b, wanted, patient).group)
  {
    var h := SetBits(g, b);
    SetBitsKeepsInv(g, b);
    if (g.bits + b) * wanted == wanted {
      ClearingKeepsInv(h, wanted);
    } else if patient {
      StillIdle(g, b, t);
      assert h.bits * wanted <= (g.bits + b) * wanted <= wanted;
      BlockingKeepsInv(h, t, wanted, true, true);
    }
  }

  lemma {:induction false} TimeOutKeepsInv(g: Group, i: nat)
    requires Inv(g) && i < |g.waiting|
    ensures Inv(TimeOut(g, i))
  {
    var h := TimeOut(g, i);
    forall k | 0 <= k < |h.waiting| ensures h.waiting[k] in g.waiting && h.waiting[k].task != g.waiting[i].task {
      assert h.waiting[k] == if k < i then g.waiting[k] else g.waiting[k + 1];
    }
  }

  lemma {:induction false} StepKeepsInv(g: Group, op: Op)
    requires Inv(g) && Enabled(g, op)
    ensures Inv(Apply(g, op))
  {
    match op
    case Set(b) => SetBitsKeepsInv(g, b);
    case Clear(b) => ClearingKeepsInv(g, b);
    case Wait(t, wanted, clear, all, patient) =>
      ClearingKeepsInv(g, wanted);
      if !TestWaitCondition(g.bits, wanted, all) { BlockingKeepsInv(g, t, wanted, clear, all); }
    case Meet(t, b, wanted, patient) => SyncKeepsInv(g, t, b, wanted, patient);
    case Lapse(i) => TimeOutKeepsInv(g, i);
    case RunOn(t, wanted, clear, all) => ClearingKeepsInv(g, wanted);
  }

  ghost predicate Leads(g: Group, run: seq<Op>, h: Group)
    decreases run
  {
    if run == [] then g == h else Enabled(g, run[0]) && Leads(Apply(g, run[0]), run[1..], h)
  }

  /** In every run, no blocked task's condition is ever met by the bits. */
  lemma {:induction false} RunKeepsInv(g: Group, run: seq<Op>, h: Group)
    requires Inv(g) && Leads(g, run, h)
    ensures Inv(h)
    decreases run
  {
    if run != [] {
      StepKeepsInv(g, run[0]);
      RunKeepsInv(Apply(g, run[0]), run[1..], h);
    }
  }

  // ------------------------------------------------------------------------- releases

  /** One SetBits releases exactly the waiters satisfied by the old bits and the new
      together, and hands each of them that value, before any clearing. */
  lemma {:induction false} ReleasesExactly(g: Group, b: Bits, x: Item)
    requires Inv(g) && x in g.waiting
    ensures var h := SetBits(g, b);
      if Satisfied(x.value, g.bits + b)
      then x !in h.waiting && x.task in h.outcome && h.outcome[x.task] == Released(g.bits + b)
      else x in h.waiting && x.task !in h.outcome
  {
    HandedExactly(g.waiting, g.bits + b, g.outcome, x.task);
    if !Satisfied(x.value, g.bits + b) {
      forall y | y in g.waiting && y.task == x.task ensures y == x {
        SameTaskSameItem(g.waiting, x, y);
      }
    }
  }

  lemma {:induction false} SameTaskSameItem(s: seq<Item>, x: Item, y: Item)
    requires DistinctTasks(s) && x in s && y in s && x.task == y.task
    ensures x == y
  {
    var i :| 0 <= i < |s| && s[i] == x;
    var j :| 0 <= j < |s| && s[j] == y;
    assert i == j;
  }

  /** A released caller returns a value that meets its own condition, even though the bits
      may have been cleared by then. */
  lemma {:induction false} ReleasedCallerSeesItsBits(g: Group, b: Bits, t: Task, wanted: Bits, clear: bool, all: bool)
    requires Inv(g) && User(b) && User(wanted) && Item(t, Packed(wanted, clear, all)) in g.waiting
    requires TestWaitCondition(g.bits + b, wanted, all)
    ensures var h := SetBits(g, b);
      && t in h.outcome
      && Resume(h, t, wanted, clear, all).value == Some(g.bits + b)
      && Resume(h, t, wanted, clear, all).group.bits == h.bits
  {
    PackingRoundTrip(wanted, clear, all);
    ReleasesExactly(g, b, Item(t, Packed(wanted, clear, all)));
    ReleaseRoundTrip(g.bits + b);
  }

  /** A call blocks exactly if it is patient and its condition is not met; if the condition
      is met it returns a value that meets it, and on clear-on-exit takes away the bits it
      waited for and no others. */
  lemma {:induction false} WaitReturns(g: Group, t: Task, wanted: Bits, clear: bool, all: bool, patient: bool)
    requires Inv(g) && User(wanted) && wanted != {}
    ensures var r := WaitBits(g, t, wanted, clear, all, patient);
      && (r.value == None <==> patient && !TestWaitCondition(g.bits, wanted, all))
      && (r.value == None ==> Item(t, Packed(wanted, clear, all)) in r.group.waiting && r.group.bits == g.bits)
      && (r.value.Some? ==> r.value.value == g.bits && r.group.waiting == g.waiting)
      && (forall b :: b in r.group.bits <==>
           b in g.bits && !(clear && TestWaitCondition(g.bits, wanted, all) && b in wanted))
      && (clear && TestWaitCondition(g.bits, wanted, all) ==> !TestWaitCondition(r.group.bits, wanted, all))
  {
    assert (g.bits - wanted) * wanted == {};
  }

  /** Some waiter that `full` releases has asked for the bit to be cleared. */
  ghost predicate Claimed(s: seq<Item>, full: Bits, bit: nat) {
    exists x :: x in s && Satisfied(x.value, full) && ClearsOnExit(x.value) && bit in Wanted(x.value)
  }

  /** SetBits leaves a bit set exactly if it was set or is being set and no waiter it releases
      has asked for it to be cleared. */
  lemma {:induction false} SetBitsLeaves(g: Group, b: Bits, bit: nat)
    ensures bit in SetBits(g, b).bits <==> bit in g.bits + b && !Claimed(g.waiting, g.bits + b, bit)
  {
    ClearsTheUnion(g.waiting, g.bits + b, bit);
  }

  /** A rendezvous call blocks exactly if it is patient and the bits are not complete; the call
      that completes them returns them all and takes them away; an impatient one returns what
      is left once the waiters that its bits release have had theirs cleared, and leaves that. */
  lemma {:induction false} SyncReturns(g: Group, t: Task, b: Bits, wanted: Bits, patient: bool, bit: nat)
    requires Inv(g) && User(b) && User(wanted)
    ensures var r, full := Sync(g, t, b, wanted, patient), g.bits + b;
      && (r.value == None <==> patient && !(wanted <= full))
      && (r.value == None ==> Item(t, Packed(wanted, true, true)) in r.group.waiting)
      && (r.value.Some? ==>
           && (bit in r.value.value <==> bit in full && (wanted <= full || !Claimed(g.waiting, full, bit)))
           && (forall x <- r.group.waiting :: x in g.waiting && !Satisfied(x.value, full)))
      && (bit in r.group.bits <==> bit in full && !Claimed(g.waiting, full, bit) && !(wanted <= full && bit in wanted))
  {
    SetBitsLeaves(g, b, bit);
    assert (g.bits + b) * wanted == wanted <==> wanted <= g.bits + b;
  }

  /** A caller that timed out gets the bits as they are when it runs on, and clears what it
      waited for only if its condition has meanwhile been met. */
  lemma {:induction false} TimedOutCaller(g: Group, i: nat, wanted: Bits, clear: bool, all: bool)
    requires Inv(g) && i < |g.waiting|
    ensures var t, h := g.waiting[i].task, TimeOut(g, i);
      && Resume(h, t, wanted, clear, all).value == Some(g.bits)
      && (clear && TestWaitCondition(g.bits, wanted, all) ==> Resume(h, t, wanted, clear, all).group.bits == g.bits - wanted)
      && (!(clear && TestWaitCondition(g.bits, wanted, all)) ==> Resume(h, t, wanted, clear, all).group.bits == g.bits)
  {
    assert g.waiting[i] in g.waiting;
    UserBitsOnly(g.bits);
  }

  // ----------------------------------------------------------------------- rendezvous

  /** The last arrival at a rendezvous: every participant is released having seen all the
      bits, the caller returns them too, and the bits are cleared for the next round.
      As long as a bit is missing, nobody waiting for all of them is released. */
  lemma {:induction false} LastArrivalReleasesAll(g: Group, t: Task, b: Bits, all: Bits, p: Task)
    requires Inv(g) && User(b) && User(all) && all != {} && Item(p, Packed(all, true, true)) in g.waiting
    ensures var r := Sync(g, t, b, all, true);
      if all <= g.bits + b then
        && r.value == Some(g.bits + b)
        && r.group.bits * all == {}
        && p in r.group.outcome
        && Resume(r.group, p, all, true, true).value == Some(g.bits + b)
      else
        r.value == None && Item(p, Packed(all, true, true)) in r.group.waiting
  {
    PackingRoundTrip(all, true, true);
    ReleasesExactly(g, b, Item(p, Packed(all, true, true)));
    ReleaseRoundTrip(g.bits + b);
    assert (g.bits + b) * all == all <==> all <= g.bits + b;
  }

  datatype Arrival = Arrival(task: Task, bits: Bits)

  /** The bits brought by the arrivals so far. */
  function Brought(s: seq<Arrival>): Bits {
    if s == [] then {} else Brought(s[..|s| - 1]) + s[|s| - 1].bits
  }

  /** The items of the arrivals so far, all waiting for `all`. */
  function Queued(s: seq<Arrival>, all: Bits): seq<Item> {
    if s == [] then [] else Queued(s[..|s| - 1], all) + [Item(s[|s| - 1].task, Packed(all, true, true))]
  }

  lemma {:induction false} NoneReleased(s: seq<Arrival>, all: Bits, full: Bits, outcome: map<Task, Bits>)
    requires User(all) && !(all <= full)
    ensures Kept(Queued(s, all), full) == Queued(s, all)
    ensures ToClear(Queued(s, all), full) == {}
    ensures Handed(Queued(s, all), full, outcome) == outcome
  {
    if s != [] {
      var q, x := Queued(s[..|s| - 1], all), Item(s[|s| - 1].task, Packed(all, true, true));
      NoneReleased(s[..|s| - 1], all, full, outcome);
      PackingRoundTrip(all, true, true);
      assert Queued(s, all)[..|q|] == q;
      assert !Satisfied(x.value, full);
    }
  }

  /** The group after the given arrivals have called Sync for `all`, one after another. */
  function Arrived(g: Group, s: seq<Arrival>, all: Bits): Group {
    if s == [] then g
    else Sync(Arrived(g, s[..|s| - 1], all), s[|s| - 1].task, s[|s| - 1].bits, all, true).group
  }

  /** Until the arrivals have brought all the bits they simply queue up. */
  lemma {:induction false} EarlyArrivalsWait(s: seq<Arrival>, all: Bits, outcome: map<Task, Bits>)
    requires User(all) && !(all <= Brought(s))
    ensures Arrived(Group({}, [], outcome), s, all) == Group(Brought(s), Queued(s, all), outcome)
  {
    if s != [] {
      var init := s[..|s| - 1];
      assert !(all <= Brought(init));
      EarlyArrivalsWait(init, all, outcome);
      NoneReleased(init, all, Brought(s), outcome);
      assert Brought(s) * all != all;
    }
  }

  lemma {:induction false} QueuedHas(s: seq<Arrival>, all: Bits, a: Arrival)
    requires a in s
    ensures Item(a.task, Packed(all, true, true)) in Queued(s, all)
  {
    if s[|s| - 1] != a {
      QueuedHas(s[..|s| - 1], all, a);
    }
  }

  ghost predicate DifferentTasks(s: seq<Arrival>) {
    forall i, j :: 0 <= i < j < |s| ==> s[i].task != s[j].task
  }

  lemma {:induction false} QueuedIsInv(s: seq<Arrival>, all: Bits)
    requires User(all) && User(Brought(s)) && !(all <= Brought(s)) && DifferentTasks(s)
    ensures Inv(Group(Brought(s), Queued(s, all), map[]))
  {
    PackingRoundTrip(all, true, true);
    QueuedItems(s, all);
    var q := Queued(s, all);
    forall x | x in q ensures x.value == Packed(all, true, true) {
      var i :| 0 <= i < |q| && q[i] == x;
    }
    assert Brought(s) * all != all;
  }

  lemma {:induction false} QueuedItems(s: seq<Arrival>, all: Bits)
    ensures |Queued(s, all)| == |s|
    ensures forall i :: 0 <= i < |s| ==> Queued(s, all)[i] == Item(s[i].task, Packed(all, true, true))
  {
    if s != [] {
      QueuedItems(s[..|s| - 1], all);
    }
  }

  /** A whole rendezvous on an idle group: whoever comes, in whatever order and with
      whatever bits, everybody who came before the bits were complete waits, the arrival
      that completes them returns at once, every other participant is released having seen
      all the bits, and the group is ready for the next round. */
  lemma {:induction false} Rendezvous(s: seq<Arrival>, last: Arrival, all: Bits, a: Arrival)
    requires User(all) && all != {} && User(Brought(s)) && User(last.bits) && DifferentTasks(s)
    requires !(all <= Brought(s)) && all <= Brought(s) + last.bits && a in s
    ensures var r := Sync(Arrived(Group({}, [], map[]), s, all), last.task, last.bits, all, true);
      && r.value == Some(Brought(s) + last.bits)
      && r.group.bits == Brought(s) + last.bits - all
      && r.group.waiting == []
      && a.task in r.group.outcome
      && Resume(r.group, a.task, all, true, true).value == Some(Brought(s) + last.bits)
  {
    var g := Group(Brought(s), Queued(s, all), map[]);
    var full := Brought(s) + last.bits;
    EarlyArrivalsWait(s, all, map[]);
    QueuedIsInv(s, all);
    QueuedHas(s, all, a);
    LastArrivalReleasesAll(g, last.task, last.bits, all, a.task);
    AllReleased(s, all, full);
  }

  lemma {:induction false} AllReleased(s: seq<Arrival>, all: Bits, full: Bits)
    requires User(all) && all <= full
    ensures Kept(Queued(s, all), full) == []
    ensures full - ToClear(Queued(s, all), full) - all == full - all
  {
    if s != [] {
      var q, x := Queued(s[..|s| - 1], all), Item(s[|s| - 1].task, Packed(all, true, true));
      AllReleased(s[..|s| - 1], all, full);
      PackingRoundTrip(all, true, true);
      assert Queued(s, all)[..|q|] == q;
      assert full * all == all;
      assert Satisfied(x.value, full);
    }
  }
}
