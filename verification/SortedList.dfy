/** Kernel lists in which items wait in the order of their values, seen as sequences. */
module SortedList {
  import opened Common

  type Owner = nat

  datatype Item = Item(owner: Owner, value: Tick)

  ghost predicate Sorted(s: seq<Item>) {
    forall i, j :: 0 <= i < j < |s| ==> s[i].value <= s[j].value
  }

  ghost predicate DistinctOwners(s: seq<Item>) {
    forall i, j :: 0 <= i < j < |s| ==> s[i].owner != s[j].owner
  }

  ghost predicate Owns(s: seq<Item>, t: Owner) {
    exists x :: x in s && x.owner == t
  }

  /** vListInsert: behind every item whose value is not larger. */
  function Insert(s: seq<Item>, x: Item): (r: seq<Item>)
    ensures |r| == |s| + 1
  {
    if s == [] || x.value < s[0].value then [x] + s else [s[0]] + Insert(s[1..], x)
  }

  lemma {:induction false} InsertSorted(s: seq<Item>, x: Item)
    requires Sorted(s)
    ensures Sorted(Insert(s, x))
    ensures forall y :: y in Insert(s, x) <==> y in s || y == x
  {
    if s == [] || x.value < s[0].value {
    } else {
      InsertSorted(s[1..], x);
      assert s == [s[0]] + s[1..];
      assert forall y :: y in Insert(s[1..], x) ==> s[0].value <= y.value;
    }
  }

  lemma {:induction false} InsertDistinct(s: seq<Item>, x: Item)
    requires Sorted(s) && DistinctOwners(s) && !Owns(s, x.owner)
    ensures DistinctOwners(Insert(s, x))
  {
    if s == [] || x.value < s[0].value {
      Prepend(x, s);
    } else {
      InsertDistinct(s[1..], x);
      InsertSorted(s[1..], x);
      Prepend(s[0], Insert(s[1..], x));
    }
  }

  lemma {:induction false} Prepend(x: Item, s: seq<Item>)
    requires DistinctOwners(s) && forall y <- s :: x.owner != y.owner
    ensures DistinctOwners([x] + s)
  {
    var r := [x] + s;
    assert forall i :: 0 < i < |r| ==> r[i] == s[i - 1] && r[i] in s;
  }

  /** uxListRemove of the item that belongs to `t`. */
  function Drop(s: seq<Item>, t: Owner): (r: seq<Item>)
    ensures forall x :: x in r <==> x in s && x.owner != t
  {
    if s == [] then []
    else if s[0].owner == t then Drop(s[1..], t)
    else [s[0]] + Drop(s[1..], t)
  }

  lemma {:induction false} DropSorted(s: seq<Item>, t: Owner)
    requires Sorted(s)
    ensures Sorted(Drop(s, t))
  {
    if s != [] {
      DropSorted(s[1..], t);
      assert forall x :: x in Drop(s[1..], t) ==> x in s[1..];
    }
  }

  lemma {:induction false} DropDistinct(s: seq<Item>, t: Owner)
    requires DistinctOwners(s)
    ensures DistinctOwners(Drop(s, t))
  {
    if s != [] {
      DropDistinct(s[1..], t);
      if s[0].owner != t {
        Prepend(s[0], Drop(s[1..], t));
      }
    }
  }

  /** Inserting and removing one owner's item does not concern the others. */
  lemma {:induction false} OwnsOthers(s: seq<Item>, x: Item, t: Owner)
    requires Sorted(s) && t != x.owner
    ensures Owns(Insert(s, x), t) <==> Owns(s, t)
    ensures Owns(Drop(s, x.owner), t) <==> Owns(s, t)
  {
    InsertSorted(s, x);
    assert forall y: Item :: y.owner == t ==> (y in Insert(s, x) <==> y in s);
    assert forall y: Item :: y.owner == t ==> (y in Drop(s, x.owner) <==> y in s);
  }
}
