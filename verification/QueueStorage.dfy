/** The storage area of a queue (queue.c): items in a circular array of slots, reached
    through a write pointer that stands on the next free slot at the back and a read
    pointer that stands one slot before the front item. */
module QueueStorage {
  import opened CircularBuffer

  datatype Op<T> = SendToBack(x: T) | SendToFront(x: T) | Overwrite(x: T) | Receive | Peek

  /** A bounded double-ended queue, which is what the storage promises to be. */
  function Deque<T>(d: seq<T>, length: nat, op: Op<T>): seq<T> {
    match op
    case SendToBack(x) => if |d| < length then d + [x] else d
    case SendToFront(x) => if |d| < length then [x] + d else d
    case Overwrite(x) => [x]
    case Receive => if d == [] then d else d[1..]
    case Peek => d
  }

  /** What an operation reports: whether a send passed, or the front item, if any. */
  datatype Reply<T> = Passed | Full | Item(x: T) | Empty

  function Answer<T>(d: seq<T>, length: nat, op: Op<T>): Reply<T> {
    match op
    case SendToBack(_) => if |d| < length then Passed else Full
    case SendToFront(_) => if |d| < length then Passed else Full
    case Overwrite(_) => Passed
    case Receive => if d == [] then Empty else Item(d[0])
    case Peek => if d == [] then Empty else Item(d[0])
  }

  function DequeAll<T>(d: seq<T>, length: nat, ops: seq<Op<T>>): seq<T> {
    if ops == [] then d
    else Deque(DequeAll(d, length, ops[..|ops| - 1]), length, ops[|ops| - 1])
  }

  function Answers<T>(d: seq<T>, length: nat, ops: seq<Op<T>>): seq<Reply<T>> {
    if ops == [] then []
    else
      var init := ops[..|ops| - 1];
      Answers(d, length, init) + [Answer(DequeAll(d, length, init), length, ops[|ops| - 1])]
  }

  /** Overwriting is for queues of length one (configASSERT in xQueueGenericSend). */
  predicate Permitted<T>(length: nat, op: Op<T>) { op.Overwrite? ==> length == 1 }

  /** The slot before a given one. */
  function Before(at: nat, length: nat): int { if at == 0 then length - 1 else at - 1 }

  lemma {:induction false} BeforeAfter(at: nat, length: nat)
    requires at < length
    ensures Advance(Before(at, length), 1, length) == at && Before(Advance(at, 1, length), length) == at
  {
  }

  /** Writing at the free slot behind the items adds an item at the back. */
  lemma {:induction false} AddedAtBack<T>(s: seq<T>, front: nat, n: nat, x: T)
    requires front < |s| && n < |s|
    ensures var at := Advance(front, n, |s|);
      at < |s| && Around(s[at := x], front, n + 1) == Around(s, front, n) + [x]
  {
    var at := Advance(front, n, |s|);
    forall i | 0 <= i < n ensures Advance(front, i, |s|) != at {
    }
  }

  /** Writing at the free slot before the items adds an item at the front. */
  lemma {:induction false} AddedAtFront<T>(s: seq<T>, front: nat, n: nat, x: T)
    requires front < |s| && n < |s|
    ensures var at := Before(front, |s|); Around(s[at := x], at, n + 1) == [x] + Around(s, front, n)
  {
    var at := Before(front, |s|);
    forall i | 0 <= i < n
      ensures Advance(front, i, |s|) != at && Advance(at, i + 1, |s|) == Advance(front, i, |s|)
    {
    }
  }

  lemma {:induction false} TakenFromFront<T>(s: seq<T>, front: nat, n: nat)
    requires front < |s| && 0 < n <= |s|
    ensures Around(s, front, n) == [s[front]] + Around(s, Advance(front, 1, |s|), n - 1)
  {
    forall i | 0 < i < n ensures Advance(front, i, |s|) == Advance(Advance(front, 1, |s|), i - 1, |s|) {
    }
  }

  class Storage<T> {
    const slots: array<T>
    var readFrom: nat
    var writeTo: nat
    var messagesWaiting: nat

    /** The write slot is the read slot plus one plus the count, around the array. */
    ghost predicate Valid()
      reads this, slots
    {
      && readFrom < slots.Length && messagesWaiting <= slots.Length
      && writeTo == Advance(Front(), messagesWaiting, slots.Length) < slots.Length
    }

    function Front(): nat
      reads this
    {
      Advance(readFrom, 1, slots.Length)
    }

    /** The items, front first, decoded from the pointers. */
    ghost function Contents(): seq<T>
      requires Valid()
      reads this, slots
    {
      Around(slots[..], Front(), messagesWaiting)
    }

    /** xQueueGenericReset on a new queue. */
    constructor (length: nat, filler: T)
      requires length > 0
      ensures Valid() && Contents() == [] && slots.Length == length && fresh(slots)
    {
      slots := new T[length](_ => filler);
      messagesWaiting, writeTo, readFrom := 0, 0, length - 1;
    }

    /** prvCopyDataToQueue, as the send functions guard it. */
    method CopyDataToQueue(op: Op<T>)
      requires Valid() && (op.SendToBack? || op.SendToFront? || op.Overwrite?)
      requires Permitted(slots.Length, op) && (messagesWaiting < slots.Length || op.Overwrite?)
      modifies this, slots
      ensures Valid() && Contents() == Deque(old(Contents()), slots.Length, op)
    {
      var waiting := messagesWaiting;
      ghost var was, front := slots[..], Front();
      if op.SendToBack? {
        AddedAtBack(was, front, waiting, op.x);
        slots[writeTo] := op.x;
        assert slots[..] == was[writeTo := op.x];
        writeTo := writeTo + 1;
        if writeTo >= slots.Length {
          writeTo := 0;
        }
      } else {
        BeforeAfter(readFrom, slots.Length);
        if op.SendToFront? {
          AddedAtFront(was, front, waiting, op.x);
        }
        slots[readFrom] := op.x;
        assert slots[..] == was[readFrom := op.x];
        BackOne();
        if op.Overwrite? && waiting > 0 {
          waiting := waiting - 1;
        }
      }
      messagesWaiting := waiting + 1;
    }

    method BackOne()
      requires readFrom < slots.Length
      modifies this`readFrom
      ensures readFrom == Before(old(readFrom), slots.Length) < slots.Length
    {
      if readFrom == 0 {
        readFrom := slots.Length - 1;
      } else {
        readFrom := readFrom - 1;
      }
    }

    /** prvCopyDataFromQueue: only the read pointer moves. */
    method CopyDataFromQueue() returns (x: T)
      requires readFrom < slots.Length
      modifies this`readFrom
      ensures readFrom == Advance(old(readFrom), 1, slots.Length) < slots.Length && x == slots[readFrom]
    {
      readFrom := readFrom + 1;
      if readFrom >= slots.Length {
        readFrom := 0;
      }
      x := slots[readFrom];
    }

    /** The critical section of xQueueReceive that finds an item. */
    method TakeFront() returns (x: T)
      requires Valid() && messagesWaiting > 0
      modifies this
      ensures Valid() && [x] + Contents() == old(Contents())
    {
      TakenFromFront(slots[..], Front(), messagesWaiting);
      x := CopyDataFromQueue();
      messagesWaiting := messagesWaiting - 1;
    }

    /** The critical section of xQueuePeek that finds an item: the read pointer is put back. */
    method PeekFront() returns (x: T)
      requires Valid() && messagesWaiting > 0
      modifies this
      ensures Valid() && |Contents()| > 0 && x == Contents()[0] && Contents() == old(Contents())
    {
      var original := readFrom;
      x := CopyDataFromQueue();
      readFrom := original;
    }

    /** One operation as xQueueGenericSend, xQueueReceive and xQueuePeek perform it without
        blocking. */
    method Perform(op: Op<T>) returns (answer: Reply<T>)
      requires Valid() && Permitted(slots.Length, op)
      modifies this, slots
      ensures Valid()
      ensures Contents() == Deque(old(Contents()), slots.Length, op)
      ensures answer == Answer(old(Contents()), slots.Length, op)
    {
      answer := if op.Receive? || op.Peek? then Empty else Full;
      match op {
        case Receive =>
          if messagesWaiting > 0 {
            var x := TakeFront();
            answer := Item(x);
          }
        case Peek =>
          if messagesWaiting > 0 {
            var x := PeekFront();
            answer := Item(x);
          }
        case _ =>
          if messagesWaiting < slots.Length || op.Overwrite? {
            CopyDataToQueue(op);
            answer := Passed;
          }
      }
    }

    /** Every sequence of operations leaves the storage holding what the bounded deque
        would hold, and hands out what the deque would hand out. */
    method PerformAll(ops: seq<Op<T>>) returns (answers: seq<Reply<T>>)
      requires Valid() && forall op <- ops :: Permitted(slots.Length, op)
      modifies this, slots
      ensures Valid()
      ensures Contents() == DequeAll(old(Contents()), slots.Length, ops)
      ensures answers == Answers(old(Contents()), slots.Length, ops)
    {
      answers := [];
      var i := 0;
      assert ops[..0] == [];
      while i < |ops|
        invariant 0 <= i <= |ops| && Valid()
        invariant Contents() == DequeAll(old(Contents()), slots.Length, ops[..i])
        invariant answers == Answers(old(Contents()), slots.Length, ops[..i])
      {
        assert ops[..i + 1][..i] == ops[..i];
        var answer := Perform(ops[i]);
        answers := answers + [answer];
        i := i + 1;
      }
      assert ops[..i] == ops;
    }
  }

  /** The deque never exceeds its length. */
  lemma {:induction false} DequeIsBounded<T>(d: seq<T>, length: nat, ops: seq<Op<T>>)
    requires |d| <= length && length > 0
    ensures |DequeAll(d, length, ops)| <= length
  {
    if ops != [] {
      DequeIsBounded(d, length, ops[..|ops| - 1]);
    }
  }

  // ------------------------------------------------------------------ order of service

  /** The items that sends have added, and the items that receives have handed out, according
      to the replies. */
  function Sent<T>(ops: seq<Op<T>>, replies: seq<Reply<T>>): seq<T>
    requires |ops| == |replies|
  {
    if ops == [] then []
    else
      var i := |ops| - 1;
      Sent(ops[..i], replies[..i]) + (if ops[i].SendToBack? && replies[i].Passed? then [ops[i].x] else [])
  }

  function Handed<T>(ops: seq<Op<T>>, replies: seq<Reply<T>>): seq<T>
    requires |ops| == |replies|
  {
    if ops == [] then []
    else
      var i := |ops| - 1;
      Handed(ops[..i], replies[..i]) + (if ops[i].Receive? && replies[i].Item? then [replies[i].x] else [])
  }

  /** Nobody sends to the front or overwrites. */
  ghost predicate Plain<T>(ops: seq<Op<T>>) { forall op <- ops :: op.SendToBack? || op.Receive? || op.Peek? }

  lemma {:induction false} AnswersFit<T>(d: seq<T>, length: nat, ops: seq<Op<T>>)
    ensures |Answers(d, length, ops)| == |ops|
    ensures ops != [] ==> Answers(d, length, ops)[..|ops| - 1] == Answers(d, length, ops[..|ops| - 1])
  {
    if ops != [] {
      AnswersFit(d, length, ops[..|ops| - 1]);
    }
  }

  /** First in, first out: over any run of sends to the back, receives and peeks, what has been
      handed out and what is still there are, in order, what was there and what has been
      sent. */
  lemma {:induction false} FirstInFirstOut<T>(d: seq<T>, length: nat, ops: seq<Op<T>>)
    requires Plain(ops)
    ensures |Answers(d, length, ops)| == |ops|
    ensures Handed(ops, Answers(d, length, ops)) + DequeAll(d, length, ops) == d + Sent(ops, Answers(d, length, ops))
  {
    AnswersFit(d, length, ops);
    if ops == [] {
      assert Handed(ops, []) + d == d + Sent(ops, []);
    } else {
      var init := ops[..|ops| - 1];
      FirstInFirstOut(d, length, init);
      OneMoreInOrder(DequeAll(d, length, init), length, ops[|ops| - 1], Handed(init, Answers(d, length, init)),
                     d, Sent(init, Answers(d, length, init)));
    }
  }

  lemma {:induction false} OneMoreInOrder<T>(now: seq<T>, length: nat, op: Op<T>, out: seq<T>, d: seq<T>, sent: seq<T>)
    requires out + now == d + sent && (op.SendToBack? || op.Receive? || op.Peek?)
    ensures var r := Answer(now, length, op);
      (out + (if op.Receive? && r.Item? then [r.x] else [])) + Deque(now, length, op) ==
        d + (sent + (if op.SendToBack? && r.Passed? then [op.x] else []))
  {
    match op
    case SendToBack(x) =>
      assert out + (now + [x]) == (out + now) + [x];
      assert d + (sent + [x]) == (d + sent) + [x];
      assert out + [] == out && sent + [] == sent;
    case Receive =>
      if now != [] { assert (out + [now[0]]) + now[1..] == out + now; }
      assert out + [] == out && sent + [] == sent;
    case Peek => assert out + [] == out && sent + [] == sent;
  }

  /** A send to the back passes, and a receive finds an item, exactly as the numbers sent and
      handed out so far say. */
  lemma {:induction false} RoomIff<T>(d: seq<T>, length: nat, ops: seq<Op<T>>, x: T)
    requires Plain(ops)
    ensures |Answers(d, length, ops)| == |ops|
    ensures var now, held := DequeAll(d, length, ops), |d| + |Sent(ops, Answers(d, length, ops))| - |Handed(ops, Answers(d, length, ops))|;
      && (Answer(now, length, SendToBack(x)).Passed? <==> held < length)
      && (Answer(now, length, SendToFront(x)).Passed? <==> held < length)
      && (Answer(now, length, Receive).Item? <==> held > 0)
      && (Answer(now, length, Peek).Item? <==> held > 0)
  {
    FirstInFirstOut(d, length, ops);
    assert |Handed(ops, Answers(d, length, ops)) + DequeAll(d, length, ops)| == |d + Sent(ops, Answers(d, length, ops))|;
  }

  /** Until something is received. */
  ghost predicate NoneTaken<T>(ops: seq<Op<T>>) { forall op <- ops :: op.SendToBack? || op.Peek? }

  lemma {:induction false} FrontStays<T>(d: seq<T>, length: nat, ops: seq<Op<T>>)
    requires d != [] && NoneTaken(ops)
    ensures DequeAll(d, length, ops) != [] && DequeAll(d, length, ops)[0] == d[0]
  {
    if ops != [] {
      FrontStays(d, length, ops[..|ops| - 1]);
    }
  }

  /** An item sent to the front, or written over the one that was there, is what the next
      receive hands out, whatever is sent to the back in between, and peeking shows it and
      leaves it there; a send to the front that fails changes nothing. */
  lemma {:induction false} FrontIsNext<T>(d: seq<T>, length: nat, x: T, ops: seq<Op<T>>)
    requires NoneTaken(ops)
    ensures Answer(d, length, SendToFront(x)).Passed? ==>
      var later := DequeAll(Deque(d, length, SendToFront(x)), length, ops);
      && Answer(later, length, Receive) == Item(x) == Answer(later, length, Peek)
      && (ops == [] ==> Deque(later, length, Receive) == d)
    ensures !Answer(d, length, SendToFront(x)).Passed? ==> Deque(d, length, SendToFront(x)) == d
    ensures var later := DequeAll(Deque(d, length, Overwrite(x)), length, ops);
      && Answer(later, length, Receive) == Item(x) == Answer(later, length, Peek)
      && (ops == [] ==> Deque(later, length, Receive) == [])
  {
    if |d| < length {
      FrontStays([x] + d, length, ops);
    }
    FrontStays([x], length, ops);
  }
}
