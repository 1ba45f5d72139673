/** Vocabulary shared by the component models: optional values, wait lists seen
    as duplicate-free sequences, and the wrapping tick type. */
module Common {

  datatype Option<+T> = None | Some(value: T)

  /** A list item is in a list at most once. */
  ghost predicate NoDup<T>(s: seq<T>) {
    forall i, j :: 0 <= i < j < |s| ==> s[i] != s[j]
  }

  /** The list left when item `x` is unlinked: everything else, in order. */
  function Without<T(==,!new)>(s: seq<T>, x: T): (r: seq<T>)
    ensures forall y :: y in r <==> y in s && y != x
    ensures |r| <= |s|
    ensures x !in s ==> r == s
  {
    if s == [] then []
    else if s[0] == x then Without(s[1..], x)
    else [s[0]] + Without(s[1..], x)
  }

  lemma {:induction false} WithoutNoDup<T(!new)>(s: seq<T>, x: T)
    requires NoDup(s)
    ensures NoDup(Without(s, x))
    ensures x in s ==> |Without(s, x)| == |s| - 1
  {
    if s != [] {
      WithoutNoDup(s[1..], x);
      assert s[0] !in s[1..];
      assert s[0] !in Without(s[1..], x);
    }
  }

  /** A duplicate-free list over a finite population is no longer than the population. */
  lemma {:induction false} NoDupBound<T(!new)>(s: seq<T>, all: set<T>)
    requires NoDup(s)
    requires forall x :: x in s ==> x in all
    ensures |s| <= |all|
  {
    if s != [] {
      assert s[0] !in s[1..];
      NoDupBound(s[1..], all - {s[0]});
    }
  }

  /** How often `x` is in a list. */
  ghost function Occurrences<T(!new)>(s: seq<T>, x: T): (n: nat)
    ensures n > 0 <==> x in s
  {
    if s == [] then 0 else (if s[0] == x then 1 else 0) + Occurrences(s[1..], x)
  }

  lemma {:induction false} OccurrencesJoined<T(!new)>(a: seq<T>, b: seq<T>, x: T)
    ensures Occurrences(a + b, x) == Occurrences(a, x) + Occurrences(b, x)
  {
    if a == [] {
      assert a + b == b;
    } else {
      OccurrencesJoined(a[1..], b, x);
      assert (a + b)[0] == a[0] && (a + b)[1..] == a[1..] + b;
    }
  }

  /** Ticks are 32-bit: one full wrap of the tick count. */
  const WRAP: int := 0x1_0000_0000

  /** The largest tick value, which doubles as the "wait for ever" block time. */
  const MAX_DELAY: int := WRAP - 1

  /** The unbounded time at which the tick count has wrapped `k` times. */
  function Epoch(k: int): int { k * 0x1_0000_0000 }

  type Tick = t: int | 0 <= t < WRAP

  /** Unsigned tick arithmetic: the value kept when a result leaves the range. */
  function Wrapped(x: int): (t: Tick)
    ensures 0 <= x < WRAP ==> t == x
    ensures WRAP <= x < 2 * WRAP ==> t == x - WRAP
    ensures -WRAP <= x < 0 ==> t == x + WRAP
  {
    x % 0x1_0000_0000
  }

  /** Wrapping along the way does not change the final value. */
  lemma {:induction false} WrappedSum(a: int, b: int)
    ensures Wrapped(Wrapped(a) + b) == Wrapped(a + b)
  {
    var q, r := a / 0x1_0000_0000, a % 0x1_0000_0000;
    assert a == Epoch(q) + r;
  }

  /** `a | b` on unsigned values. */
  function BitOr(a: nat, b: nat): (r: nat)
    ensures r >= a && r >= b
    decreases a + b
  {
    if a == 0 || b == 0 then a + b
    else (if a % 2 == 1 || b % 2 == 1 then 1 else 0) + 2 * BitOr(a / 2, b / 2)
  }

  /** `a & ~b` on unsigned values. */
  function BitClear(a: nat, b: nat): (r: nat)
    ensures r <= a
  {
    if a == 0 || b == 0 then a
    else (if a % 2 == 1 && b % 2 == 0 then 1 else 0) + 2 * BitClear(a / 2, b / 2)
  }

  /** Bit `i` of an unsigned value. */
  predicate Bit(v: nat, i: nat)
    decreases i
  {
    if i == 0 then v % 2 == 1 else Bit(v / 2, i - 1)
  }

  lemma {:induction false} NoBits(i: nat)
    ensures !Bit(0, i)
    decreases i
  {
    if i > 0 {
      NoBits(i - 1);
    }
  }

  /** `|` sets a bit exactly if one of its operands has it. */
  lemma {:induction false} BitOrSets(a: nat, b: nat, i: nat)
    ensures Bit(BitOr(a, b), i) <==> Bit(a, i) || Bit(b, i)
    decreases i
  {
    NoBits(i);
    if a != 0 && b != 0 {
      var low := if a % 2 == 1 || b % 2 == 1 then 1 else 0;
      assert BitOr(a, b) == low + 2 * BitOr(a / 2, b / 2);
      assert BitOr(a, b) / 2 == BitOr(a / 2, b / 2) && BitOr(a, b) % 2 == low;
      if i > 0 {
        BitOrSets(a / 2, b / 2, i - 1);
      }
    }
  }

  /** `& ~` clears exactly the bits of its second operand. */
  lemma {:induction false} BitClearClears(a: nat, b: nat, i: nat)
    ensures Bit(BitClear(a, b), i) <==> Bit(a, i) && !Bit(b, i)
    decreases i
  {
    NoBits(i);
    if a != 0 && b != 0 {
      var low := if a % 2 == 1 && b % 2 == 0 then 1 else 0;
      assert BitClear(a, b) == low + 2 * BitClear(a / 2, b / 2);
      assert BitClear(a, b) / 2 == BitClear(a / 2, b / 2) && BitClear(a, b) % 2 == low;
      if i > 0 {
        BitClearClears(a / 2, b / 2, i - 1);
      }
    }
  }

  /** `f` applied `n` times. */
  function Iterate<T>(f: T -> T, x: T, n: nat): T
    decreases n
  {
    if n == 0 then x else Iterate(f, f(x), n - 1)
  }

  lemma {:induction false} IterateAdd<T>(f: T -> T, x: T, m: nat, n: nat)
    ensures Iterate(f, x, m + n) == Iterate(f, Iterate(f, x, m), n)
    decreases m
  {
    if m > 0 {
      IterateAdd(f, f(x), m - 1, n);
    }
  }

  /** A relation kept by one application of each function is kept by `n`. */
  lemma {:induction false} IterateRelated<T(!new)>(f: T -> T, g: T -> T, related: (T, T) -> bool, x: T, y: T, n: nat)
    requires related(x, y) && forall a, b :: related(a, b) ==> related(f(a), g(b))
    ensures related(Iterate(f, x, n), Iterate(g, y, n))
    decreases n
  {
    if n > 0 {
      IterateRelated(f, g, related, f(x), g(y), n - 1);
    }
  }

  /** A property of the number of applications and the result, kept by one more. */
  lemma {:induction false} IterateKeeps<T(!new)>(f: T -> T, p: (nat, T) -> bool, x: T, k: nat, n: nat)
    requires k <= n && p(k, x) && forall i: nat, a :: i < n && p(i, a) ==> p(i + 1, f(a))
    ensures p(n, Iterate(f, x, n - k))
    decreases n - k
  {
    if k < n {
      IterateKeeps(f, p, f(x), k + 1, n);
    }
  }
}
