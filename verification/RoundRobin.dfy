/** A kernel list seen from outside: its items in order from the end marker, and
    where the roving index stands. */
module RoundRobin {

  /** `at` is 0 when the index is on the end marker, i + 1 when it is on items[i]. */
  datatype Ring<T> = Ring(items: seq<T>, at: nat)
  {
    predicate Ok() { at <= |items| }
  }

  /** vListInsertEnd: just before the index. */
  function InsertEnd<T>(r: Ring<T>, x: T): (s: Ring<T>)
    requires r.Ok()
    ensures s.Ok() && |s.items| == |r.items| + 1
  {
    if r.at == 0 then Ring(r.items + [x], 0)
    else Ring(r.items[..r.at - 1] + [x] + r.items[r.at - 1..], r.at + 1)
  }

  /** uxListRemove of items[i]: an index on the removed item steps back. */
  function Remove<T>(r: Ring<T>, i: nat): (s: Ring<T>)
    requires r.Ok() && i < |r.items|
    ensures s.Ok() && |s.items| == |r.items| - 1
  {
    Ring(r.items[..i] + r.items[i + 1..], if r.at > i then r.at - 1 else r.at)
  }

  /** listGET_OWNER_OF_NEXT_ENTRY: step on, skipping the end marker. */
  function Next<T>(r: Ring<T>): (s: Ring<T>)
    requires r.Ok() && r.items != []
    ensures s.Ok() && s.at > 0 && s.items == r.items
  {
    Ring(r.items, if r.at == |r.items| then 1 else r.at + 1)
  }

  function Current<T>(r: Ring<T>): T
    requires r.Ok() && r.at > 0
  {
    r.items[r.at - 1]
  }

  /** What `n` consecutive selections return. */
  function Serve<T>(r: Ring<T>, n: nat): (s: seq<T>)
    requires r.Ok() && r.items != []
    ensures |s| == n
    decreases n
  {
    if n == 0 then [] else [Current(Next(r))] + Serve(Next(r), n - 1)
  }

  /** Up to the end of the list, selections follow the list. */
  lemma {:induction false} ServeForward<T>(r: Ring<T>, n: nat)
    requires r.Ok() && r.items != [] && r.at + n <= |r.items|
    ensures Serve(r, n) == r.items[r.at..r.at + n]
    decreases n
  {
    if n > 0 {
      ServeForward(Next(r), n - 1);
    }
  }

  lemma {:induction false} ServeAdd<T>(r: Ring<T>, m: nat, n: nat)
    requires r.Ok() && r.items != [] && r.at + m <= |r.items|
    ensures Serve(r, m + n) == Serve(r, m) + Serve(Ring(r.items, r.at + m), n)
    decreases m
  {
    if m == 0 {
      assert Serve(r, 0) + Serve(r, n) == Serve(r, n);
    } else {
      ServeAdd(Next(r), m - 1, n);
    }
  }

  /** From the last item the next selection is the first, as from the end marker. */
  lemma {:induction false} ServeWraps<T>(r: Ring<T>, n: nat)
    requires r.Ok() && r.items != [] && r.at == |r.items|
    ensures Serve(r, n) == Serve(Ring(r.items, 0), n)
  {
  }

  lemma {:induction false} ServeAgain<T>(items: seq<T>, n: nat)
    requires items != [] && n <= |items|
    ensures Serve(Ring(items, |items|), n) == items[..n]
  {
    ServeWraps(Ring(items, |items|), n);
    ServeForward(Ring(items, 0), n);
  }

  /** One full round serves every item exactly once, starting behind the index. */
  lemma {:induction false} FullRound<T>(r: Ring<T>)
    requires r.Ok() && r.items != []
    ensures Serve(r, |r.items|) == r.items[r.at..] + r.items[..r.at]
  {
    var n := |r.items|;
    ServeAdd(r, n - r.at, r.at);
    ServeForward(r, n - r.at);
    ServeAgain(r.items, r.at);
  }

  lemma {:induction false} EachOnce<T>(r: Ring<T>)
    requires r.Ok() && r.items != []
    ensures multiset(Serve(r, |r.items|)) == multiset(r.items)
  {
    assert Serve(r, |r.items|) == r.items[r.at..] + r.items[..r.at] by { FullRound(r); }
    SwapHalves(r.items, r.at);
  }

  lemma {:induction false} SwapHalves<T>(s: seq<T>, k: nat)
    requires k <= |s|
    ensures multiset(s[k..] + s[..k]) == multiset(s)
  {
    assert s == s[..k] + s[k..];
  }

  /** A new item is served after every other one, except the item on which the index
      stands, whose turn it was last. */
  lemma {:induction false} NewcomerServedLast<T>(r: Ring<T>, x: T)
    requires r.Ok()
    ensures var s := InsertEnd(r, x);
      Serve(s, |s.items|) ==
        if r.at == 0 then r.items + [x]
        else r.items[r.at..] + r.items[..r.at - 1] + [x] + [r.items[r.at - 1]]
  {
    var s := InsertEnd(r, x);
    FullRound(s);
    if r.at > 0 {
      assert s.items[s.at..] == r.items[r.at..];
      assert s.items[..s.at] == r.items[..r.at - 1] + [x] + [r.items[r.at - 1]];
    } else {
      assert s.items[0..] + s.items[..0] == s.items;
    }
  }

  /** Removing an item does not change the order in which the others are served. */
  lemma {:induction false} RemoveKeepsTurns<T>(r: Ring<T>, i: nat)
    requires r.Ok() && i < |r.items| && |r.items| > 1
    ensures var s := Remove(r, i);
      Serve(s, |s.items|) ==
        if i < r.at then r.items[r.at..] + (r.items[..i] + r.items[i + 1..r.at])
        else (r.items[r.at..i] + r.items[i + 1..]) + r.items[..r.at]
  {
    var s := Remove(r, i);
    FullRound(s);
    if i < r.at {
      assert s.items[s.at..] == r.items[r.at..];
      assert s.items[..s.at] == r.items[..i] + r.items[i + 1..r.at];
    } else {
      assert s.items[s.at..] == r.items[r.at..i] + r.items[i + 1..];
      assert s.items[..s.at] == r.items[..r.at];
    }
  }
}
