/** event_groups.c as it works in place: the waiting list is walked and shortened while
    the bits are tested. */
module EventFlags {
  import opened Common
  import opened EventGroup

  /** How far the walk over the waiting list has come: `i` of the waiters it started with
      have been dealt with, and those kept stand before position `at`. */
  datatype Walk = Walk(waiting: seq<Item>, at: nat, toClear: Bits, outcome: map<Task, Bits>)

  ghost predicate Walked(g: Group, full: Bits, i: nat, w: Walk) {
    && i <= |g.waiting| && w.at <= |w.waiting|
    && w.waiting[..w.at] == Kept(g.waiting[..i], full) && w.waiting[w.at..] == g.waiting[i..]
    && w.toClear == ToClear(g.waiting[..i], full)
    && w.outcome == Handed(g.waiting[..i], full, g.outcome)
  }

  /** The walk after one more waiter. */
  function Visited(w: Walk, full: Bits): Walk
    requires w.at < |w.waiting|
  {
    var x := w.waiting[w.at];
    if Satisfied(x.value, full) then
      Walk(w.waiting[..w.at] + w.waiting[w.at + 1..], w.at,
           if ClearsOnExit(x.value) then w.toClear + Wanted(x.value) else w.toClear,
           w.outcome[x.task := Released(full)])
    else w.(at := w.at + 1)
  }

  /** What one more waiter adds to the specification. */
  lemma {:induction false} OneMore(s: seq<Item>, i: nat, full: Bits, outcome: map<Task, Bits>)
    requires i < |s|
    ensures var x, hit := s[i], Satisfied(s[i].value, full);
      && Kept(s[..i + 1], full) == Kept(s[..i], full) + (if hit then [] else [x])
      && ToClear(s[..i + 1], full) == ToClear(s[..i], full) + (if hit && ClearsOnExit(x.value) then Wanted(x.value) else {})
      && Handed(s[..i + 1], full, outcome) ==
           if hit then Handed(s[..i], full, outcome)[x.task := Released(full)] else Handed(s[..i], full, outcome)
  {
    assert s[..i + 1][..i] == s[..i] && s[..i + 1][i] == s[i];
  }

  /** What it does to the list being walked. */
  lemma {:induction false} OneLess(w: Walk, full: Bits)
    requires w.at < |w.waiting|
    ensures var v, x := Visited(w, full), w.waiting[w.at];
      && v.at <= |v.waiting| && v.waiting[v.at..] == w.waiting[w.at..][1..]
      && v.waiting[..v.at] == w.waiting[..w.at] + if Satisfied(x.value, full) then [] else [x]
  {
  }

  lemma {:induction false} WalkOn(g: Group, full: Bits, i: nat, w: Walk)
    requires Walked(g, full, i, w) && w.at < |w.waiting|
    ensures Walked(g, full, i + 1, Visited(w, full))
  {
    assert w.waiting[w.at] == w.waiting[w.at..][0] == g.waiting[i];
    assert g.waiting[i..][1..] == g.waiting[i + 1..];
    OneMore(g.waiting, i, full, g.outcome);
    OneLess(w, full);
  }

  lemma {:induction false} WalkDone(g: Group, full: Bits, i: nat, w: Walk)
    requires Walked(g, full, i, w) && w.at == |w.waiting|
    ensures w == Walk(Kept(g.waiting, full), w.at, ToClear(g.waiting, full), Handed(g.waiting, full, g.outcome))
  {
    assert i == |g.waiting| && g.waiting[..i] == g.waiting && w.waiting[..w.at] == w.waiting;
  }

  /** The test made on each waiter, on the item value as it is stored. */
  method Matches(value: Bits, bits: Bits) returns (matched: bool)
    ensures matched <==> Satisfied(value, bits)
  {
    matched := false;
    var wanted := value - CONTROL;
    if value * WAIT_FOR_ALL == {} {
      if wanted * bits != {} {
        matched := true;
      }
    } else if wanted * bits == wanted {
      matched := true;
    }
    assert wanted * bits == bits * wanted;
  }

  class EventFlagGroup {
    var bits: Bits
    var waiting: seq<Item>
    var outcome: map<Task, Bits>

    ghost function View(): Group
      reads this
    {
      Group(bits, waiting, outcome)
    }

    constructor ()
      ensures View() == Group({}, [], map[]) && Inv(View())
    {
      bits, waiting, outcome := {}, [], map[];
    }

    /** One waiter of the walk: released and unlinked, or passed over. */
    method Visit(at: nat, toClear: Bits) returns (next: nat, clear: Bits)
      requires at < |waiting|
      modifies this`waiting, this`outcome
      ensures Walk(waiting, next, clear, outcome) == Visited(Walk(old(waiting), at, toClear, old(outcome)), bits)
    {
      next, clear := at + 1, toClear;
      var value := waiting[at].value;
      var matched := Matches(value, bits);
      if matched {
        if value * CLEAR_ON_EXIT != {} {
          clear := clear + (value - CONTROL);
        }
        outcome := outcome[waiting[at].task := bits + UNBLOCKED_BY_BITS + VALUE_IN_USE];
        waiting := waiting[..at] + waiting[at + 1..];
        next := at;
      }
    }

    /** xEventGroupSetBits: one walk over the waiting list, removing as it goes. */
    method SetEventBits(toSet: Bits) returns (now: Bits)
      modifies this
      ensures View() == SetBits(old(View()), toSet) && now == bits
    {
      bits := bits + toSet;
      ghost var i: nat := 0;
      var toClear: Bits := {};
      var at: nat := 0;
      while at < |waiting|
        invariant bits == old(bits) + toSet
        invariant Walked(old(View()), bits, i, Walk(waiting, at, toClear, outcome))
        decreases |old(waiting)| - i
      {
        WalkOn(old(View()), bits, i, Walk(waiting, at, toClear, outcome));
        at, toClear := Visit(at, toClear);
        i := i + 1;
      }
      WalkDone(old(View()), bits, i, Walk(waiting, at, toClear, outcome));
      bits := bits - toClear;
      now := bits;
    }

    /** xEventGroupWaitBits, up to blocking. */
    method WaitForBits(t: Task, wanted: Bits, clear: bool, all: bool, patient: bool) returns (value: Option<Bits>)
      modifies this
      ensures Reply(View(), value) == WaitBits(old(View()), t, wanted, clear, all, patient)
    {
      if TestWaitCondition(bits, wanted, all) {
        value := Some(bits);
        if clear {
          bits := bits - wanted;
        }
      } else if !patient {
        value := Some(bits);
      } else {
        var control: Bits := {};
        if clear {
          control := control + CLEAR_ON_EXIT;
        }
        if all {
          control := control + WAIT_FOR_ALL;
        }
        assert wanted + control + VALUE_IN_USE == Packed(wanted, clear, all);
        waiting := waiting + [Item(t, wanted + control + VALUE_IN_USE)];
        value := None;
      }
    }

    /** xEventGroupSync, up to blocking. */
    method Synchronise(t: Task, toSet: Bits, wanted: Bits, patient: bool) returns (value: Option<Bits>)
      modifies this
      ensures Reply(View(), value) == Sync(old(View()), t, toSet, wanted, patient)
    {
      var original := bits;
      var now := SetEventBits(toSet);
      if (original + toSet) * wanted == wanted {
        value := Some(original + toSet);
        bits := bits - wanted;
      } else if patient {
        waiting := waiting + [Item(t, Packed(wanted, true, true))];
        value := None;
      } else {
        value := Some(bits);
      }
    }

    /** What a caller does once it is no longer blocked. */
    method FinishWait(t: Task, wanted: Bits, clear: bool, all: bool) returns (value: Bits)
      requires t in outcome
      modifies this
      ensures Reply(View(), Some(value)) == Resume(old(View()), t, wanted, clear, all)
    {
      value := outcome[t];
      outcome := outcome - {t};
      if value * UNBLOCKED_BY_BITS == {} {
        value := bits;
        if TestWaitCondition(value, wanted, all) {
          if clear {
            bits := bits - wanted;
          }
        }
      }
      value := value - CONTROL;
    }

    /** xEventGroupClearBits: the caller learns which bits were set; none of those named is set
        any more, and nobody waiting has become satisfied, so nobody need be woken. */
    method ClearEventBits(b: Bits) returns (value: Bits)
      modifies this
      ensures Reply(View(), Some(value)) == ClearBits(old(View()), b)
      ensures value == old(bits) && bits * b == {} && bits + value * b == value
      ensures waiting == old(waiting) && outcome == old(outcome) && (old(Inv(View())) ==> Inv(View()))
    {
      ghost var g := View();
      value := bits;
      bits := bits - b;
      if Inv(g) {
        ClearingKeepsInv(g, b);
      }
    }
  }
}
