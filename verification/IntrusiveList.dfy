/** list.c: a circular doubly linked list with a sentinel, threaded through items
    that belong to the objects being listed. */
module IntrusiveList {
  import opened Common
  import R = RoundRobin
  import S = SortedList

  class Item {
    var value: Tick
    var next: Item?
    var prev: Item?
    var container: List?

    constructor (value: Tick)
      ensures this.value == value && container == null
    {
      this.value := value;
      next, prev, container := null, null, null;
    }
  }

  /** The sequence with `x` at position `k`. */
  ghost function Spliced<T>(c: seq<T>, k: nat, x: T): (d: seq<T>)
    requires k <= |c|
    ensures |d| == |c| + 1
    ensures forall i :: 0 <= i < |d| ==> d[i] == if i < k then c[i] else if i == k then x else c[i - 1]
  {
    c[..k] + [x] + c[k..]
  }

  ghost function Cut<T>(c: seq<T>, j: nat): (d: seq<T>)
    requires j < |c|
    ensures |d| == |c| - 1
    ensures forall i :: 0 <= i < |d| ==> d[i] == if i < j then c[i] else c[i + 1]
  {
    c[..j] + c[j + 1..]
  }

  /** Where a sorted insertion puts a value: behind everything if it equals the end
      marker's value, otherwise before the first larger value. */
  ghost function Slot(items: seq<Item>, v: Tick): (k: nat)
    reads items`value
    ensures k <= |items|
    ensures v < MAX_DELAY ==> (forall i :: 0 <= i < k ==> items[i].value <= v) && (k < |items| ==> v < items[k].value)
    ensures v == MAX_DELAY ==> k == |items|
  {
    if items == [] then 0
    else if v == MAX_DELAY then |items|
    else if items[0].value > v then 0
    else 1 + Slot(items[1..], v)
  }

  lemma {:induction false} SlotIs(items: seq<Item>, v: Tick, k: nat)
    requires v < MAX_DELAY && k <= |items|
    requires forall i :: 0 <= i < k ==> items[i].value <= v
    requires k < |items| ==> v < items[k].value
    ensures Slot(items, v) == k
  {
    if k > 0 {
      SlotIs(items[1..], v, k - 1);
    }
  }

  ghost predicate Ascending(items: seq<Item>)
    reads items`value
  {
    forall i, j :: 0 <= i < j < |items| ==> items[i].value <= items[j].value
  }

  /** Sorted insertion keeps the order and is stable: the new item stands behind every
      one of equal or smaller value and before every one of larger value. */
  lemma {:induction false} SortedInsertion(items: seq<Item>, x: Item)
    requires Ascending(items)
    ensures var k := Slot(items, x.value);
      && Ascending(Spliced(items, k, x))
      && (forall i :: 0 <= i < |items| ==> (items[i].value <= x.value <==> i < k))
  {
    var k := Slot(items, x.value);
    forall i | 0 <= i < |items| ensures items[i].value <= x.value <==> i < k {
      assert i > k ==> items[k].value <= items[i].value;
    }
    var t := Spliced(items, k, x);
    forall i, j | 0 <= i < j < |t| ensures t[i].value <= t[j].value {
      assert i < k ==> t[i] == items[i];
      assert j > k ==> t[j] == items[j - 1];
    }
  }

  /** Insertion into the ring is insertion into a sorted sequence with the same values, which
      is how the delayed lists and the timer lists are modelled. */
  lemma {:induction false} InsertionAgrees(items: seq<Item>, x: Item, s: seq<S.Item>, y: S.Item)
    requires |s| == |items| && y.value == x.value
    requires forall i :: 0 <= i < |s| ==> s[i].value == items[i].value
    ensures S.Insert(s, y) == Spliced(s, Slot(items, x.value), y)
  {
    if items != [] && items[0].value <= x.value {
      InsertionAgrees(items[1..], x, s[1..], y);
      assert x.value == MAX_DELAY ==> Slot(items[1..], x.value) == |items| - 1;
    }
  }

  /** Neighbours in the chain point at each other. */
  ghost predicate Linked(c: seq<Item>)
    reads c`next, c`prev
  {
    && (forall i :: 0 <= i < |c| - 1 ==> c[i].next == c[i + 1])
    && (forall i :: 0 < i < |c| ==> c[i].prev == c[i - 1])
  }

  /** A closed chain: the end marker first and last, nothing else twice. */
  ghost predicate Closed(c: seq<Item>) {
    && |c| >= 2 && c[|c| - 1] == c[0]
    && forall i, j :: 0 <= i < j < |c| - 1 ==> c[i] != c[j]
  }

  /** The items between two sightings of the end marker. */
  ghost function ChainOf(end: Item, items: seq<Item>): (c: seq<Item>)
    ensures |c| == |items| + 2 && c[0] == end && c[|c| - 1] == end
    ensures forall i :: 0 < i < |c| - 1 ==> c[i] == items[i - 1]
  {
    [end] + items + [end]
  }

  lemma {:induction false} ChainMembers(end: Item, items: seq<Item>)
    ensures forall y <- ChainOf(end, items) :: y == end || y in items
    ensures forall y <- items :: y in ChainOf(end, items)
  {
  }

  lemma {:induction false} SplicedChain(end: Item, items: seq<Item>, j: nat, x: Item)
    requires Closed(ChainOf(end, items)) && x !in ChainOf(end, items) && j <= |items|
    ensures var c := Spliced(ChainOf(end, items), j + 1, x); c == ChainOf(end, Spliced(items, j, x)) && Closed(c)
  {
  }

  lemma {:induction false} CutChain(end: Item, items: seq<Item>, j: nat)
    requires Closed(ChainOf(end, items)) && j < |items|
    ensures var c := Cut(ChainOf(end, items), j + 1); c == ChainOf(end, Cut(items, j)) && Closed(c)
    ensures items[j] != end && forall k :: 0 <= k < |items| && k != j ==> items[k] != items[j]
  {
    var c := ChainOf(end, items);
    assert forall k :: 0 <= k < |items| ==> items[k] == c[k + 1];
  }

  /** Where the index stands after an item has been bypassed: one back if it was on it. */
  lemma {:induction false} IndexAfterCut(c: seq<Item>, at: nat, i: nat)
    requires Closed(c) && at < |c| - 1 && i + 2 < |c|
    ensures c[at] == c[i + 1] <==> at == i + 1
    ensures Cut(c, i + 1)[if at > i then at - 1 else at] == if at == i + 1 then c[i] else c[at]
  {
  }

  lemma {:induction false} InsertEndView(items: seq<Item>, at: nat, x: Item)
    requires at <= |items|
    ensures R.InsertEnd(R.Ring(items, at), x).items == Spliced(items, if at == 0 then |items| else at - 1, x)
  {
  }

  /** As Linked, but for the links between positions `lo` and `hi`. */
  ghost predicate LinkedOutside(c: seq<Item>, lo: nat, hi: nat)
    reads c
  {
    && (forall i :: 0 <= i < |c| - 1 && !(lo <= i < hi) ==> c[i].next == c[i + 1])
    && (forall i :: 0 < i < |c| && !(lo < i <= hi) ==> c[i].prev == c[i - 1])
  }

  /** Four pointer writes splice an item into a chain. */
  lemma {:induction false} SpliceLinks(c: seq<Item>, j: nat, x: Item)
    requires j < |c| - 1 && LinkedOutside(c, j, j + 1)
    requires c[j].next == x && c[j + 1].prev == x && x.next == c[j + 1] && x.prev == c[j]
    ensures Linked(Spliced(c, j + 1, x))
  {
    var d := Spliced(c, j + 1, x);
    forall i | 0 <= i < |d| - 1 ensures d[i].next == d[i + 1] && d[i + 1].prev == d[i] {
    }
  }

  /** Two pointer writes bypass an item. */
  lemma {:induction false} CutLinks(c: seq<Item>, j: nat)
    requires 0 < j < |c| - 1 && LinkedOutside(c, j - 1, j + 1)
    requires c[j - 1].next == c[j + 1] && c[j + 1].prev == c[j - 1]
    ensures Linked(Cut(c, j))
  {
    var d := Cut(c, j);
    forall i | 0 <= i < |d| - 1 ensures d[i].next == d[i + 1] && d[i + 1].prev == d[i] {
      assert i >= j ==> c[i + 1].next == c[i + 2] && c[i + 2].prev == c[i + 1];
    }
  }

  /** The pointer writes of vListInsertEnd: before `succ`. */
  method LinkBefore(x: Item, succ: Item, ghost pred: Item, ghost c: seq<Item>, ghost j: nat)
    requires Closed(c) && Linked(c) && x !in c && j < |c| - 1 && c[j] == pred && c[j + 1] == succ
    modifies x`next, x`prev, pred`next, succ`prev
    ensures Linked(Spliced(c, j + 1, x))
  {
    x.next := succ;
    x.prev := succ.prev;
    succ.prev.next := x;
    succ.prev := x;
    SpliceLinks(c, j, x);
  }

  /** The pointer writes of vListInsert: behind `pred`. */
  method LinkAfter(x: Item, pred: Item, ghost succ: Item, ghost c: seq<Item>, ghost j: nat)
    requires Closed(c) && Linked(c) && x !in c && j < |c| - 1 && c[j] == pred && c[j + 1] == succ
    modifies x`next, x`prev, pred`next, succ`prev
    ensures Linked(Spliced(c, j + 1, x))
  {
    x.next := pred.next;
    x.next.prev := x;
    x.prev := pred;
    pred.next := x;
    SpliceLinks(c, j, x);
  }

  /** The pointer writes of uxListRemove. */
  method Unlink(x: Item, ghost pred: Item, ghost succ: Item, ghost c: seq<Item>, ghost j: nat)
    requires Closed(c) && Linked(c) && 0 < j < |c| - 1 && c[j] == x && c[j - 1] == pred && c[j + 1] == succ
    modifies pred`next, succ`prev
    ensures Linked(Cut(c, j))
    ensures x.prev == pred
  {
    x.next.prev := x.prev;
    x.prev.next := x.next;
    CutLinks(c, j);
  }

  ghost predicate Owned(items: seq<Item>, list: List)
    reads items`container
  {
    forall i :: 0 <= i < |items| ==> items[i].container == list
  }

  class List {
    const end: Item
    var index: Item
    var numberOfItems: nat
    ghost var items: seq<Item>
    ghost var at: nat

    ghost function Chain(): seq<Item>
      reads this
    {
      ChainOf(end, items)
    }

    ghost predicate Valid()
      reads this, end, items
    {
      && Closed(Chain())
      && Linked(Chain())
      && Owned(items, this)
      && end.container == null && end.value == MAX_DELAY
      && numberOfItems == |items|
      && at <= |items| && index == Chain()[at]
    }

    ghost function View(): R.Ring<Item>
      reads this
    {
      R.Ring(items, at)
    }

    constructor ()
      ensures Valid() && items == [] && at == 0 && fresh(end)
    {
      end := new Item(MAX_DELAY);
      index := end;
      numberOfItems, items, at := 0, [], 0;
      new;
      end.next := end;
      end.prev := end;
    }

    /** vListInsertEnd. */
    method InsertEnd(x: Item)
      requires Valid() && x.container == null && x != end
      modifies this, x`next, x`prev, x`container, end`next, end`prev, items`next, items`prev
      ensures Valid() && View() == R.InsertEnd(old(View()), x)
    {
      ghost var c := Chain();
      ghost var j := if at == 0 then |items| else at - 1;
      ChainMembers(end, items);
      SplicedChain(end, items, j, x);
      InsertEndView(items, at, x);
      LinkBefore(x, index, c[j], c, j);
      Adopt(x, j, if at == 0 then 0 else at + 1);
    }

    /** The end of both insertions: the item is linked in and now belongs to the list. */
    method Adopt(x: Item, ghost j: nat, ghost slot: nat)
      requires j <= |items| == numberOfItems && x != end && Owned(items, this)
      requires end.container == null && end.value == MAX_DELAY
      requires var c := ChainOf(end, Spliced(items, j, x));
        Closed(c) && Linked(c) && slot <= |items| + 1 && index == c[slot]
      modifies this`numberOfItems, this`items, this`at, x`container
      ensures Valid() && items == Spliced(old(items), j, x) && at == slot
    {
      x.container := this;
      numberOfItems := numberOfItems + 1;
      at := slot;
      items := Spliced(items, j, x);
    }

    /** vListInsert. */
    method Insert(x: Item)
      requires Valid() && x.container == null && x != end
      modifies this, x`next, x`prev, x`container, end`next, end`prev, items`next, items`prev
      ensures Valid()
      ensures items == Spliced(old(items), old(Slot(items, x.value)), x)
      ensures index == old(index)
      ensures old(Ascending(items)) ==> Ascending(items)
    {
      ghost var was, k := items, Slot(items, x.value);
      var node := FindSlot(x.value);
      InsertAfter(x, node, k);
      assert Slot(was, x.value) == k;
      if Ascending(was) {
        SortedInsertion(was, x);
      }
    }

    method InsertAfter(x: Item, node: Item, ghost j: nat)
      requires Valid() && x.container == null && x != end
      requires j <= |items| && node == Chain()[j]
      modifies this, x`next, x`prev, x`container, end`next, end`prev, items`next, items`prev
      ensures Valid() && items == Spliced(old(items), j, x) && index == old(index)
    {
      ghost var c := Chain();
      ChainMembers(end, items);
      SplicedChain(end, items, j, x);
      LinkAfter(x, node, c[j + 1], c, j);
      Adopt(x, j, if at <= j then at else at + 1);
    }

    /** The insertion loop: the item behind which a value belongs. */
    method FindSlot(v: Tick) returns (node: Item)
      requires Valid()
      ensures node == Chain()[Slot(items, v)]
    {
      if v == MAX_DELAY {
        assert Chain()[|items|].next == end && end.prev == Chain()[|items|];
        node := end.prev;
      } else {
        node := end;
        ghost var k := 0;
        while node.next.value <= v
          invariant 0 <= k <= |items| && node == Chain()[k] && node.next == Chain()[k + 1]
          invariant forall i :: 0 <= i < k ==> items[i].value <= v
          decreases |items| - k
        {
          assert k < |items|;
          node := node.next;
          k := k + 1;
        }
        SlotIs(items, v, k);
      }
    }

    /** uxListRemove, called on the item's container. */
    method Remove(x: Item, ghost i: nat) returns (left: nat)
      requires Valid() && i < |items| && x == items[i]
      modifies this, x`next, x`prev, x`container, end`next, end`prev, items`next, items`prev
      ensures Valid() && View() == R.Remove(old(View()), i) && left == |items|
      ensures x.container == null
    {
      ghost var c := Chain();
      CutChain(end, items, i);
      IndexAfterCut(c, at, i);
      Bypass(x, i, c);
      Disown(x, i, if at > i then at - 1 else at);
      left := numberOfItems;
    }

    /** The pointers go round the item, and an index on it steps back. */
    method Bypass(x: Item, ghost i: nat, ghost c: seq<Item>)
      requires Closed(c) && Linked(c) && i + 2 < |c| && x == c[i + 1]
      requires c == Chain() && at <= |items| && index == c[at]
      modifies this`index, end`next, end`prev, items`next, items`prev
      ensures Linked(Cut(c, i + 1)) && index == if c[at] == x then c[i] else c[at]
    {
      assert (c[i] == end || c[i] in items) && (c[i + 2] == end || c[i + 2] in items);
      Unlink(x, c[i], c[i + 2], c, i + 1);
      if index == x {
        index := x.prev;
      }
    }

    method Disown(x: Item, ghost i: nat, ghost slot: nat)
      requires i < |items| == numberOfItems && x == items[i] && x != end && Owned(items, this)
      requires end.container == null && end.value == MAX_DELAY
      requires forall k :: 0 <= k < |items| && k != i ==> items[k] != x
      requires var c := ChainOf(end, Cut(items, i));
        Closed(c) && Linked(c) && slot < |items| && index == c[slot]
      modifies this`numberOfItems, this`items, this`at, x`container
      ensures Valid() && items == Cut(old(items), i) && at == slot && x.container == null
    {
      x.container := null;
      numberOfItems := numberOfItems - 1;
      at := slot;
      items := Cut(items, i);
    }

    /** listGET_OWNER_OF_NEXT_ENTRY. */
    method Next() returns (x: Item)
      requires Valid() && items != []
      modifies this
      ensures Valid() && View() == R.Next(old(View())) && x == R.Current(View())
    {
      assert Chain()[at].next == Chain()[at + 1] && end.next == Chain()[1];
      index := index.next;
      at := if at == |items| then 0 else at + 1;
      if index == end {
        index := index.next;
        at := 1;
      }
      x := index;
    }
  }
}
