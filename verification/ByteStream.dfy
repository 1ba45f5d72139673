/** stream_buffer.c: one writer and one reader sharing a circular buffer without a lock.
    The only steps that can be seen by the other side are single reads and writes of the
    two indices and of single bytes, in any interleaving. */
module ByteStream {
  import opened CircularBuffer

  /** Where the writer is.  The `seen` fields record how much had been received when the
      tail was read. */
  datatype Writer =
    | Resting
    | TailRead(first: nat, seenFirst: nat)
    | SpaceRead(first: nat, seenFirst: nat, second: nat, seenSecond: nat)
    | Writing(space: int, staged: map<nat, byte>)

  datatype Reader =
    | Still
    | Reading(count: int, taken: map<nat, byte>)

  datatype Stream = Stream(
    buffer: seq<byte>, head: nat, tail: nat,
    writer: Writer, reader: Reader,
    accepted: seq<byte>, received: seq<byte>)

  datatype Step =
    | ReadTail
    | ReadTailAgain
    | CheckTail
    | Put(k: nat, b: byte)
    | Publish(n: nat)
    | ReadHead
    | Get(k: nat)
    | Consume(n: nat)

  /** The first `n` bytes held in a map from offset to byte. */
  function Prefix(m: map<nat, byte>, n: nat): (s: seq<byte>)
    requires forall k :: 0 <= k < n ==> k in m
    ensures |s| == n
    ensures forall k :: 0 <= k < n ==> s[k] == m[k]
  {
    if n == 0 then [] else Prefix(m, n - 1) + [m[n - 1]]
  }

  ghost predicate Covers(m: map<nat, byte>, n: nat) {
    forall k :: 0 <= k < n ==> k in m
  }

  /** The writer may touch any byte within the space it computed, in any order, and then
      publishes as many as it has staged; the reader likewise within the count it read.
      (That indices are in range is no restriction: it holds in every reachable state.) */
  ghost predicate Enabled(s: Stream, a: Step) {
    match a
    case ReadTail => s.writer.Resting?
    case ReadTailAgain => s.writer.TailRead?
    case CheckTail => s.writer.SpaceRead?
    case Put(k, _) => s.writer.Writing? && k < s.writer.space && k < |s.buffer| && s.head < |s.buffer|
    case Publish(n) => s.writer.Writing? && n <= s.writer.space && Covers(s.writer.staged, n)
    case ReadHead => s.reader.Still?
    case Get(k) => s.reader.Reading? && k < s.reader.count && k < |s.buffer| && s.tail < |s.buffer|
    case Consume(n) => s.reader.Reading? && n <= s.reader.count && Covers(s.reader.taken, n)
  }

  ghost predicate Shape(s: Stream) {
    && s.buffer != []
    && s.head == Slot(|s.accepted|, |s.buffer|)
    && s.tail == Slot(|s.received|, |s.buffer|)
    && |s.received| <= |s.accepted| < |s.received| + |s.buffer|
  }

  ghost function Apply(s: Stream, a: Step): Stream
    requires Enabled(s, a)
  {
    var length := |s.buffer|;
    match a
    case ReadTail => s.(writer := TailRead(s.tail, |s.received|))
    case ReadTailAgain => s.(writer := SpaceRead(s.writer.first, s.writer.seenFirst, s.tail, |s.received|))
    case CheckTail =>
      if s.tail != s.writer.first then s.(writer := Resting)
      else s.(writer := Writing(Space(s.writer.second, s.head, length), map[]))
    case Put(k, b) => AfterPut(s, k, b)
    case Publish(n) => AfterPublish(s, n)
    case ReadHead => s.(reader := Reading(Distance(s.head, s.tail, length), map[]))
    case Get(k) => AfterGet(s, k)
    case Consume(n) => AfterConsume(s, n)
  }

  function AfterPut(s: Stream, k: nat, b: byte): Stream
    requires s.head < |s.buffer| && k < |s.buffer| && s.writer.Writing?
  {
    s.(buffer := s.buffer[Advance(s.head, k, |s.buffer|) := b],
       writer := Writing(s.writer.space, s.writer.staged[k := b]))
  }

  function AfterGet(s: Stream, k: nat): Stream
    requires s.tail < |s.buffer| && k < |s.buffer| && s.reader.Reading?
  {
    s.(reader := Reading(s.reader.count, s.reader.taken[k := s.buffer[Advance(s.tail, k, |s.buffer|)]]))
  }

  ghost function AfterPublish(s: Stream, n: nat): Stream
    requires s.writer.Writing? && Covers(s.writer.staged, n)
  {
    s.(head := Advance(s.head, n, |s.buffer|), writer := Resting,
       accepted := s.accepted + Prefix(s.writer.staged, n))
  }

  ghost function AfterConsume(s: Stream, n: nat): Stream
    requires s.reader.Reading? && Covers(s.reader.taken, n)
  {
    s.(tail := Advance(s.tail, n, |s.buffer|), reader := Still,
       received := s.received + Prefix(s.reader.taken, n))
  }

  /** Stepping an index on lands in the slot of the corresponding byte of the stream. */
  lemma {:induction false} IndicesFollow(s: Stream, k: nat)
    requires Shape(s) && k <= |s.buffer|
    ensures Advance(s.head, k, |s.buffer|) == Slot(|s.accepted| + k, |s.buffer|)
    ensures Advance(s.tail, k, |s.buffer|) == Slot(|s.received| + k, |s.buffer|)
  {
    SlotAdvance(|s.accepted|, k, |s.buffer|);
    SlotAdvance(|s.received|, k, |s.buffer|);
  }

  // --------------------------------------------------------------------- invariant

  /** Every unread byte is in its slot, and what has been received was accepted. */
  ghost predicate Faithful(s: Stream)
    requires Shape(s)
  {
    && (forall i :: |s.received| <= i < |s.accepted| ==> s.buffer[Slot(i, |s.buffer|)] == s.accepted[i])
    && s.received == s.accepted[..|s.received|]
  }

  /** The writer's view of the space is never too large, even when stale. */
  ghost predicate WriterSafe(s: Stream)
    requires Shape(s)
  {
    var length, room := |s.buffer|, |s.buffer| - 1 - (|s.accepted| - |s.received|);
    match s.writer
    case Resting => true
    case TailRead(first, r) => r <= |s.received| && |s.accepted| < r + length && first == Slot(r, length)
    case SpaceRead(first, r, second, q) =>
      r <= q <= |s.received| && |s.accepted| < r + length && first == Slot(r, length) && second == Slot(q, length)
    case Writing(space, staged) =>
      && 0 <= space <= room
      && forall k <- staged :: k < space && s.buffer[Slot(|s.accepted| + k, length)] == staged[k]
  }

  /** The reader's view of the count is never too large, even when stale. */
  ghost predicate ReaderSafe(s: Stream)
    requires Shape(s)
  {
    match s.reader
    case Still => true
    case Reading(count, taken) =>
      && 0 <= count <= |s.accepted| - |s.received|
      && forall k <- taken :: k < count && taken[k] == s.accepted[|s.received| + k]
  }

  ghost predicate Inv(s: Stream) {
    Shape(s) && Faithful(s) && WriterSafe(s) && ReaderSafe(s)
  }

  /** The slot a permitted write touches holds no unread byte. */
  lemma {:induction false} WritesMissUnread(s: Stream, k: nat, i: nat)
    requires Inv(s) && s.writer.Writing? && k < s.writer.space
    requires |s.received| <= i < |s.accepted|
    ensures k < |s.buffer| && Slot(i, |s.buffer|) != Advance(s.head, k, |s.buffer|)
  {
    IndicesFollow(s, k);
    SlotsDiffer(i, |s.accepted| + k, |s.buffer|);
  }

  /** When the two tail readings agree the space is exact, not only safe. */
  lemma {:induction false} AgreedSpaceIsExact(s: Stream)
    requires Inv(s) && s.writer.SpaceRead? && s.tail == s.writer.first
    ensures Space(s.writer.second, s.head, |s.buffer|) == |s.buffer| - 1 - (|s.accepted| - |s.received|)
  {
    var length := |s.buffer|;
    if s.writer.seenFirst < |s.received| {
      SlotsDiffer(s.writer.seenFirst, |s.received|, length);
    }
    SpaceIsExact(|s.accepted|, s.writer.seenSecond, length);
  }

  lemma {:induction false} PutKeepsBytes(s: Stream, k: nat, b: byte)
    requires Inv(s) && s.writer.Writing? && k < s.writer.space
    ensures var t := AfterPut(s, k, b); Shape(t) && Faithful(t) && ReaderSafe(t)
  {
    var t, length := AfterPut(s, k, b), |s.buffer|;
    IndicesFollow(s, k);
    forall i | |s.received| <= i < |s.accepted| ensures t.buffer[Slot(i, length)] == t.accepted[i] {
      WritesMissUnread(s, k, i);
    }
  }

  /** A staged byte is where it belongs after another, or the same, has been put. */
  lemma {:induction false} StagedStays(s: Stream, k: nat, b: byte, j: nat)
    requires Inv(s) && s.writer.Writing? && k < s.writer.space
    requires j == k || j in s.writer.staged
    ensures j < s.writer.space && s.writer.space < |s.buffer|
    ensures AfterPut(s, k, b).buffer[Slot(|s.accepted| + j, |s.buffer|)] == if j == k then b else s.writer.staged[j]
  {
    assert j < s.writer.space;
    assert Advance(s.head, k, |s.buffer|) == Slot(|s.accepted| + k, |s.buffer|) by { IndicesFollow(s, k); }
    if j != k {
      OtherSlot(|s.accepted|, k, j, |s.buffer|);
    }
  }

  lemma {:induction false} OtherSlot(w: nat, k: nat, j: nat, length: nat)
    requires k < length && j < length && j != k
    ensures Slot(w + j, length) != Slot(w + k, length)
  {
    if j < k {
      SlotsDiffer(w + j, w + k, length);
    } else {
      SlotsDiffer(w + k, w + j, length);
    }
  }

  lemma {:induction false} PutKeepsStaged(s: Stream, k: nat, b: byte)
    requires Inv(s) && s.writer.Writing? && k < s.writer.space
    ensures k < |s.buffer|
    ensures var t := AfterPut(s, k, b); Shape(t) && WriterSafe(t)
  {
    var t := AfterPut(s, k, b);
    forall j | j in t.writer.staged
      ensures j < s.writer.space && t.buffer[Slot(|s.accepted| + j, |s.buffer|)] == t.writer.staged[j]
    {
      StagedStays(s, k, b, j);
    }
  }

  /** The bytes `latest` have been written, not yet published. */
  ghost predicate Staged(s: Stream, latest: seq<byte>) {
    s.writer.Writing? && forall k :: 0 <= k < |latest| ==> k in s.writer.staged && s.writer.staged[k] == latest[k]
  }

  lemma {:induction false} PrefixStays(received: seq<byte>, accepted: seq<byte>, latest: seq<byte>)
    requires |received| <= |accepted| && received == accepted[..|received|]
    ensures received == (accepted + latest)[..|received|]
  {
  }

  lemma {:induction false} PublishedByte(s: Stream, latest: seq<byte>, i: nat)
    requires Inv(s) && Staged(s, latest)
    requires |s.received| <= i < |s.accepted| + |latest|
    ensures s.buffer[Slot(i, |s.buffer|)] == (s.accepted + latest)[i]
  {
    if i >= |s.accepted| {
      var k := i - |s.accepted|;
      assert latest[k] == s.writer.staged[k] && i == |s.accepted| + k;
    }
  }

  lemma {:induction false} PublishKeepsShape(s: Stream, n: nat)
    requires Inv(s) && s.writer.Writing? && n <= s.writer.space && Covers(s.writer.staged, n)
    ensures var t := AfterPublish(s, n); Shape(t) && t.accepted == s.accepted + Prefix(s.writer.staged, n)
  {
    IndicesFollow(s, n);
  }

  lemma {:induction false} PublishedIsFaithful(s: Stream, latest: seq<byte>, t: Stream)
    requires Inv(s) && Staged(s, latest)
    requires Shape(t) && t.buffer == s.buffer && t.received == s.received && t.accepted == s.accepted + latest
    ensures Faithful(t)
  {
    forall i | |t.received| <= i < |t.accepted| ensures t.buffer[Slot(i, |t.buffer|)] == t.accepted[i] {
      PublishedByte(s, latest, i);
    }
    assert t.received == t.accepted[..|t.received|] by { PrefixStays(s.received, s.accepted, latest); }
  }

  lemma {:induction false} PublishKeepsBytes(s: Stream, n: nat)
    requires Inv(s) && s.writer.Writing? && n <= s.writer.space && Covers(s.writer.staged, n)
    ensures var t := AfterPublish(s, n); Shape(t) && Faithful(t)
  {
    PublishKeepsShape(s, n);
    PublishedIsFaithful(s, Prefix(s.writer.staged, n), AfterPublish(s, n));
  }

  lemma {:induction false} PublishKeepsReader(s: Stream, n: nat)
    requires Inv(s) && s.writer.Writing? && n <= s.writer.space && Covers(s.writer.staged, n)
    ensures var t := AfterPublish(s, n); Shape(t) && ReaderSafe(t)
  {
    IndicesFollow(s, n);
    var t := AfterPublish(s, n);
    assert forall i :: 0 <= i < |s.accepted| ==> t.accepted[i] == s.accepted[i];
  }

  lemma {:induction false} ConsumeKeepsShape(s: Stream, n: nat)
    requires Inv(s) && s.reader.Reading? && n <= s.reader.count && Covers(s.reader.taken, n)
    ensures var t := AfterConsume(s, n); Shape(t) && t.received == s.received + Prefix(s.reader.taken, n)
  {
    IndicesFollow(s, n);
  }

  /** What is consumed continues what has been received. */
  lemma {:induction false} ConsumedIsNext(s: Stream, n: nat)
    requires Inv(s) && s.reader.Reading? && n <= s.reader.count && Covers(s.reader.taken, n)
    ensures |s.received| + n <= |s.accepted|
    ensures s.received + Prefix(s.reader.taken, n) == s.accepted[..|s.received| + n]
  {
    var latest := Prefix(s.reader.taken, n);
    forall k | 0 <= k < n ensures latest[k] == s.accepted[|s.received| + k] {
      assert k in s.reader.taken;
    }
  }

  lemma {:induction false} ConsumeKeepsBytes(s: Stream, n: nat)
    requires Inv(s) && s.reader.Reading? && n <= s.reader.count && Covers(s.reader.taken, n)
    ensures var t := AfterConsume(s, n); Shape(t) && Faithful(t)
  {
    ConsumeKeepsShape(s, n);
    ConsumedIsNext(s, n);
  }

  /** The space a writer has computed only grows when the reader moves on. */
  lemma {:induction false} ConsumeKeepsWriter(s: Stream, n: nat)
    requires Inv(s) && s.reader.Reading? && n <= s.reader.count && Covers(s.reader.taken, n)
    ensures var t := AfterConsume(s, n); Shape(t) && WriterSafe(t)
  {
    ConsumeKeepsShape(s, n);
    var t := AfterConsume(s, n);
    assert t.buffer == s.buffer && t.accepted == s.accepted && t.writer == s.writer;
  }

  lemma {:induction false} SizingKeeps(s: Stream, a: Step)
    requires Inv(s) && Enabled(s, a) && (a.ReadTail? || a.ReadTailAgain? || a.CheckTail?)
    ensures Inv(Apply(s, a))
  {
    if a.CheckTail? && s.tail == s.writer.first {
      AgreedSpaceIsExact(s);
    }
  }

  lemma {:induction false} ReadHeadKeeps(s: Stream)
    requires Inv(s) && s.reader.Still?
    ensures Inv(Apply(s, ReadHead))
  {
    DistanceIsExact(|s.accepted|, |s.received|, |s.buffer|);
  }

  lemma {:induction false} GetKeeps(s: Stream, k: nat)
    requires Inv(s) && s.reader.Reading? && k < s.reader.count
    ensures k < |s.buffer| && Inv(AfterGet(s, k))
  {
    GetsTheNext(s, k);
    TakenSafe(s, k, s.accepted[|s.received| + k]);
  }

  lemma {:induction false} GetsTheNext(s: Stream, k: nat)
    requires Inv(s) && s.reader.Reading? && k < s.reader.count
    ensures k < |s.buffer| && s.buffer[Advance(s.tail, k, |s.buffer|)] == s.accepted[|s.received| + k]
  {
    IndicesFollow(s, k);
    assert s.buffer[Slot(|s.received| + k, |s.buffer|)] == s.accepted[|s.received| + k];
  }

  lemma {:induction false} TakenSafe(s: Stream, k: nat, b: byte)
    requires Inv(s) && s.reader.Reading? && k < s.reader.count && b == s.accepted[|s.received| + k]
    ensures Inv(s.(reader := Reading(s.reader.count, s.reader.taken[k := b])))
  {
    var t := s.(reader := Reading(s.reader.count, s.reader.taken[k := b]));
    assert Faithful(t) && WriterSafe(t);
  }

  lemma {:induction false} StepKeepsInv(s: Stream, a: Step)
    requires Inv(s) && Enabled(s, a)
    ensures Inv(Apply(s, a)) && |Apply(s, a).buffer| == |s.buffer|
  {
    match a
    case Put(k, b) => PutKeepsBytes(s, k, b); PutKeepsStaged(s, k, b);
    case Publish(n) => PublishKeepsBytes(s, n); PublishKeepsReader(s, n);
    case Consume(n) => ConsumeKeepsBytes(s, n); ConsumeKeepsWriter(s, n);
    case ReadHead => ReadHeadKeeps(s);
    case Get(k) => GetKeeps(s, k);
    case _ => SizingKeeps(s, a);
  }

  // -------------------------------------------------------------------------- runs

  function Fresh(buffer: seq<byte>): Stream {
    Stream(buffer, 0, 0, Resting, Still, [], [])
  }

  /** Whether `t` is reached from `s` by the given steps. */
  ghost predicate Leads(s: Stream, run: seq<Step>, t: Stream)
    decreases run
  {
    if run == [] then s == t
    else Enabled(s, run[0]) && Leads(Apply(s, run[0]), run[1..], t)
  }

  lemma {:induction false} RunKeepsInv(s: Stream, run: seq<Step>, t: Stream)
    requires Inv(s) && Leads(s, run, t)
    ensures Inv(t) && |t.buffer| == |s.buffer|
    decreases run
  {
    if run != [] {
      StepKeepsInv(s, run[0]);
      RunKeepsInv(Apply(s, run[0]), run[1..], t);
    }
  }

  /** In every run of an empty buffer, however writer and reader interleave, what has been
      received is a prefix of what has been accepted. */
  lemma {:induction false} ReceivedIsPrefixOfAccepted(buffer: seq<byte>, run: seq<Step>, t: Stream)
    requires buffer != [] && Leads(Fresh(buffer), run, t)
    ensures t.received <= t.accepted
    ensures |t.accepted| - |t.received| < |buffer|
    ensures t.writer.Writing? ==> t.writer.space <= |buffer| - 1 - (|t.accepted| - |t.received|)
    ensures t.reader.Reading? ==> t.reader.count <= |t.accepted| - |t.received|
  {
    RunKeepsInv(Fresh(buffer), run, t);
  }
}
