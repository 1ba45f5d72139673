/** stream_buffer.c: the copies in and out of the circular buffer, and the framing of
    discrete messages by a length prefix. */
module MessageBuffer {
  import opened CircularBuffer

  /** sbBYTES_TO_STORE_MESSAGE_LENGTH for a 32-bit length type. */
  const PREFIX: nat := 4
  const LENGTH_LIMIT: nat := 0x1_0000_0000

  type Message = seq<byte>

  // ----------------------------------------------------------------------- framing

  /** The low `k` bytes of `n`, least significant first. */
  function Bytes(n: nat, k: nat): (p: seq<byte>)
    ensures |p| == k
  {
    if k == 0 then [] else [n % 256] + Bytes(n / 256, k - 1)
  }

  function Value(p: seq<byte>): nat {
    if p == [] then 0 else (p[0] as int) + 256 * Value(p[1..])
  }

  /** The least number that does not fit into `k` bytes. */
  function Limit(k: nat): nat { if k == 0 then 1 else 256 * Limit(k - 1) }

  lemma {:induction false} BytesRoundTrip(n: nat, k: nat)
    requires n < Limit(k)
    ensures Value(Bytes(n, k)) == n
  {
    if k > 0 {
      BytesRoundTrip(n / 256, k - 1);
      assert Bytes(n, k)[1..] == Bytes(n / 256, k - 1);
    }
  }

  function EncodeLength(n: nat): (p: seq<byte>)
    ensures |p| == PREFIX
  {
    Bytes(n, PREFIX)
  }

  function DecodeLength(p: seq<byte>): nat { Value(p) }

  lemma {:induction false} LengthRoundTrip(n: nat)
    requires n < LENGTH_LIMIT
    ensures DecodeLength(EncodeLength(n)) == n
  {
    assert Limit(1) == 256 && Limit(2) == 65536;
    assert Limit(3) == 16777216 && Limit(4) == LENGTH_LIMIT;
    BytesRoundTrip(n, PREFIX);
  }

  ghost predicate Storable(m: Message) { 0 < |m| < LENGTH_LIMIT }

  ghost predicate AllStorable(ms: seq<Message>) { forall m <- ms :: Storable(m) }

  ghost function Frame(m: Message): seq<byte>
    requires Storable(m)
  {
    EncodeLength(|m|) + m
  }

  /** What a message buffer holding these messages contains. */
  ghost function Framed(ms: seq<Message>): seq<byte>
    requires AllStorable(ms)
  {
    if ms == [] then [] else Frame(ms[0]) + Framed(ms[1..])
  }

  lemma {:induction false} FramedAppend(ms: seq<Message>, m: Message)
    requires AllStorable(ms) && Storable(m)
    ensures AllStorable(ms + [m]) && Framed(ms + [m]) == Framed(ms) + Frame(m)
  {
    if ms == [] {
      assert ms + [m] == [m] && [m][1..] == [];
      assert Framed([m]) == Frame(m) + Framed([]);
    } else {
      FramedAppend(ms[1..], m);
      assert (ms + [m])[0] == ms[0] && (ms + [m])[1..] == ms[1..] + [m];
      assert Frame(ms[0]) + (Framed(ms[1..]) + Frame(m)) == (Frame(ms[0]) + Framed(ms[1..])) + Frame(m);
    }
  }

  /** The byte count of a message buffer is zero or more than a length prefix. */
  lemma {:induction false} FramedSize(ms: seq<Message>)
    requires AllStorable(ms)
    ensures ms == [] ==> |Framed(ms)| == 0
    ensures ms != [] ==> |Framed(ms)| >= PREFIX + |ms[0]| > PREFIX
  {
    assert ms != [] ==> ms[0] in ms;
  }

  /** The first message can be read off the bytes alone. */
  lemma {:induction false} FramedHead(ms: seq<Message>)
    requires AllStorable(ms) && ms != []
    ensures var c, n := Framed(ms), |ms[0]|;
      && |c| >= PREFIX + n
      && DecodeLength(c[..PREFIX]) == n
      && c[PREFIX..PREFIX + n] == ms[0]
      && c[PREFIX + n..] == Framed(ms[1..])
  {
    assert ms[0] in ms;
    LengthRoundTrip(|ms[0]|);
    assert Framed(ms)[..PREFIX] == EncodeLength(|ms[0]|);
  }

  /** Reading message after message off the bytes. */
  ghost function Unframed(c: seq<byte>): seq<Message> {
    if |c| <= PREFIX || |c| < PREFIX + DecodeLength(c[..PREFIX]) then []
    else
      var n := DecodeLength(c[..PREFIX]);
      [c[PREFIX..PREFIX + n]] + Unframed(c[PREFIX + n..])
  }

  lemma {:induction false} FramingRoundTrip(ms: seq<Message>)
    requires AllStorable(ms)
    ensures Unframed(Framed(ms)) == ms
  {
    FramedSize(ms);
    if ms != [] {
      FramedHead(ms);
      FramingRoundTrip(ms[1..]);
    }
  }

  // ------------------------------------------------------------------- ring contents

  /** The bytes between tail and head. */
  ghost function Unread(b: seq<byte>, tail: nat, head: nat): seq<byte>
    requires tail < |b| && head < |b|
  {
    Around(b, tail, Distance(head, tail, |b|))
  }

  /** `data` has been written from slot `at`, and nothing else has changed. */
  ghost predicate Written(was: seq<byte>, now: seq<byte>, at: nat, data: seq<byte>) {
    && at < |was| == |now| && |data| <= |was|
    && (forall i :: 0 <= i < |data| ==> now[Advance(at, i, |was|)] == data[i])
    && (forall i :: |data| <= i < |was| ==> now[Advance(at, i, |was|)] == was[Advance(at, i, |was|)])
  }

  /** A write behind the head that fits leaves the unread bytes alone, and publishing it
      appends it to them. */
  lemma {:induction false} WrittenAppends(was: seq<byte>, now: seq<byte>, tail: nat, head: nat, data: seq<byte>)
    requires tail < |was| && head < |was|
    requires Written(was, now, head, data) && Distance(head, tail, |was|) + |data| < |was|
    ensures Unread(now, tail, head) == Unread(was, tail, head)
    ensures Unread(now, tail, Advance(head, |data|, |was|)) == Unread(was, tail, head) + data
  {
    var length, n := |was|, Distance(head, tail, |was|);
    forall i | 0 <= i < n ensures now[Advance(tail, i, length)] == was[Advance(tail, i, length)] {
      assert Advance(tail, i, length) == Advance(head, length - n + i, length);
    }
    forall i | 0 <= i < |data| ensures now[Advance(tail, n + i, length)] == data[i] {
      assert Advance(tail, n + i, length) == Advance(head, i, length);
    }
  }

  /** Two writes, one behind the other, are one write. */
  lemma {:induction false} WrittenTwice(b0: seq<byte>, b1: seq<byte>, b2: seq<byte>, at: nat, d1: seq<byte>, d2: seq<byte>)
    requires |d1| + |d2| < |b0| && Written(b0, b1, at, d1) && Written(b1, b2, Advance(at, |d1|, |b0|), d2)
    ensures Written(b0, b2, at, d1 + d2)
  {
    var length, mid := |b0|, Advance(at, |d1|, |b0|);
    forall i | 0 <= i < length
      ensures b2[Advance(at, i, length)] ==
        if i < |d1| + |d2| then (d1 + d2)[i] else b0[Advance(at, i, length)]
    {
      var k := if i < |d1| then length - |d1| + i else i - |d1|;
      assert Advance(at, i, length) == Advance(mid, k, length);
    }
  }

  /** Reading on from where a first read stopped. */
  lemma {:induction false} UnreadSuffix(b: seq<byte>, tail: nat, head: nat, n: nat)
    requires tail < |b| && head < |b| && n <= Distance(head, tail, |b|)
    ensures Distance(head, Advance(tail, n, |b|), |b|) == Distance(head, tail, |b|) - n
    ensures Around(b, tail, n) == Unread(b, tail, head)[..n]
    ensures Unread(b, Advance(tail, n, |b|), head) == Unread(b, tail, head)[n..]
  {
    var next := Advance(tail, n, |b|);
    forall i | 0 <= i < Distance(head, next, |b|) ensures b[Advance(next, i, |b|)] == b[Advance(tail, n + i, |b|)] {
    }
  }

  /** Prefix and body, written one behind the other and published together, add one
      message to those held. */
  lemma {:induction false} FrameWritten(b0: seq<byte>, b1: seq<byte>, b2: seq<byte>, tail: nat, head: nat, ms: seq<Message>, m: Message)
    requires tail < |b0| && head < |b0| && AllStorable(ms) && Storable(m)
    requires Unread(b0, tail, head) == Framed(ms) && |Framed(ms)| + PREFIX + |m| < |b0|
    requires Written(b0, b1, head, EncodeLength(|m|)) && Written(b1, b2, Advance(head, PREFIX, |b0|), m)
    ensures var next := Advance(Advance(head, PREFIX, |b0|), |m|, |b0|);
      next < |b0| && AllStorable(ms + [m]) && Unread(b2, tail, next) == Framed(ms + [m])
  {
    WrittenTwice(b0, b1, b2, head, EncodeLength(|m|), m);
    WrittenAppends(b0, b2, tail, head, Frame(m));
    FramedAppend(ms, m);
  }

  /** Reading a prefix and then as many bytes as it says takes one message off. */
  lemma {:induction false} FrameRead(b: seq<byte>, tail: nat, head: nat, ms: seq<Message>)
    requires tail < |b| && head < |b| && AllStorable(ms) && ms != [] && Unread(b, tail, head) == Framed(ms)
    ensures var n, next := |ms[0]|, Advance(tail, PREFIX, |b|);
      && PREFIX < PREFIX + n <= |Framed(ms)| && next < |b|
      && DecodeLength(Around(b, tail, PREFIX)) == n
      && Around(b, next, n) == ms[0]
      && Advance(next, n, |b|) < |b|
      && AllStorable(ms[1..]) && Unread(b, Advance(next, n, |b|), head) == Framed(ms[1..])
  {
    var n, next := |ms[0]|, Advance(tail, PREFIX, |b|);
    var c := Framed(ms);
    FramedHead(ms);
    FramedSize(ms);
    UnreadSuffix(b, tail, head, PREFIX);
    assert Unread(b, next, head) == c[PREFIX..];
    UnreadSuffix(b, next, head, n);
    assert Around(b, next, n) == c[PREFIX..PREFIX + n] by { assert c[PREFIX..][..n] == c[PREFIX..PREFIX + n]; }
    assert c[PREFIX..][n..] == c[PREFIX + n..];
  }

  class StreamBuffer {
    const buffer: array<byte>
    const isMessageBuffer: bool
    var head: nat
    var tail: nat
    ghost var messages: seq<Message>

    ghost predicate Indexed()
      reads this
    {
      head < buffer.Length && tail < buffer.Length
    }

    /** What has been sent and not yet received. */
    ghost function Contents(): seq<byte>
      requires Indexed()
      reads this, buffer
    {
      Unread(buffer[..], tail, head)
    }

    ghost predicate Valid()
      reads this, buffer
    {
      Indexed() && (isMessageBuffer ==> AllStorable(messages) && Contents() == Framed(messages))
    }

    constructor (length: nat, isMessageBuffer: bool)
      requires length > 0
      ensures Valid() && this.isMessageBuffer == isMessageBuffer && buffer.Length == length
      ensures Contents() == [] && messages == [] && fresh(buffer)
    {
      buffer := new byte[length](_ => 0);
      this.isMessageBuffer := isMessageBuffer;
      head, tail, messages := 0, 0, [];
    }

    /** prvBytesInBuffer. */
    method BytesInBuffer() returns (count: nat)
      requires Indexed()
      ensures count == |Contents()| < buffer.Length
    {
      count := buffer.Length + head;
      count := count - tail;
      if count >= buffer.Length {
        count := count - buffer.Length;
      }
    }

    /** xStreamBufferSpacesAvailable with nobody else at work. */
    method SpacesAvailable() returns (space: nat)
      requires Indexed()
      ensures space + |Contents()| == buffer.Length - 1
    {
      space := buffer.Length + tail;
      space := space - head;
      space := space - 1;
      if space >= buffer.Length {
        space := space - buffer.Length;
      }
    }

    /** prvWriteBytesToBuffer: at most two block copies. */
    method WriteBytesToBuffer(data: seq<byte>, at: nat) returns (next: nat)
      requires 0 < |data| <= buffer.Length && at < buffer.Length
      modifies buffer
      ensures Written(old(buffer[..]), buffer[..], at, data) && next == Advance(at, |data|, buffer.Length)
    {
      var firstLength := if buffer.Length - at < |data| then buffer.Length - at else |data|;
      forall i | 0 <= i < firstLength {
        buffer[at + i] := data[i];
      }
      if |data| > firstLength {
        forall i | 0 <= i < |data| - firstLength {
          buffer[i] := data[firstLength + i];
        }
      }
      next := at + |data|;
      if next >= buffer.Length {
        next := next - buffer.Length;
      }
    }

    /** prvReadBytesFromBuffer: at most two block copies. */
    method ReadBytesFromBuffer(count: nat, at: nat) returns (data: seq<byte>, next: nat)
      requires 0 < count <= buffer.Length && at < buffer.Length
      ensures data == Around(buffer[..], at, count) && next == Advance(at, count, buffer.Length)
    {
      var firstLength := if buffer.Length - at < count then buffer.Length - at else count;
      data := buffer[at..at + firstLength];
      if count > firstLength {
        data := data + buffer[..count - firstLength];
      }
      next := at + count;
      if next >= buffer.Length {
        next := next - buffer.Length;
      }
    }
  
    /** prvWriteMessageToBuffer, given a space that may be out of date but is safe: a
        stream takes what fits, a message buffer takes all or nothing.  An empty message
        leaves its prefix in free space and publishes nothing. */
    method WriteMessageToBuffer(data: Message, space: nat, required: nat) returns (n: nat)
      requires Valid() && space + |Contents()| < buffer.Length
      requires isMessageBuffer ==> |data| < LENGTH_LIMIT && required == |data| + PREFIX
      modifies this`head, this`messages, buffer
      ensures Valid()
      ensures !isMessageBuffer ==>
        && n == (if |data| <= space then |data| else space)
        && Contents() == old(Contents()) + data[..n] && messages == old(messages)
      ensures isMessageBuffer ==>
        && n == (if space >= |data| + PREFIX then |data| else 0)
        && messages == (if n > 0 then old(messages) + [data] else old(messages))
    {
      if isMessageBuffer {
        n := WriteFramed(data, space, required);
      } else {
        n := if |data| <= space then |data| else space;
        if n != 0 {
          ghost var was := buffer[..];
          var next := WriteBytesToBuffer(data[..n], head);
          WrittenAppends(was, buffer[..], tail, head, data[..n]);
          head := next;
        }
      }
    }

    method WriteFramed(data: Message, space: nat, required: nat) returns (n: nat)
      requires Valid() && isMessageBuffer && space + |Contents()| < buffer.Length
      requires |data| < LENGTH_LIMIT && required == |data| + PREFIX
      modifies this`head, this`messages, buffer
      ensures Valid()
      ensures n == (if space >= required then |data| else 0)
      ensures messages == (if n > 0 then old(messages) + [data] else old(messages))
    {
      ghost var was := buffer[..];
      n := 0;
      if space >= required {
        var next := WriteBytesToBuffer(EncodeLength(|data|), head);
        n := |data|;
        ghost var mid := buffer[..];
        if n != 0 {
          next := WriteBytesToBuffer(data, next);
          FrameWritten(was, mid, buffer[..], tail, head, messages, data);
          head := next;
          messages := messages + [data];
        } else {
          WrittenAppends(was, mid, tail, head, EncodeLength(|data|));
        }
      }
    }

    /** prvReadMessageFromBuffer, given a count that may be out of date, the writer having
        published more since, but covers the first message: a stream yields what was there and
        is wanted, a message buffer its first message if the receive buffer can hold it and
        otherwise nothing. */
    method ReadMessageFromBuffer(limit: nat, available: nat) returns (data: seq<byte>)
      requires Valid() && available <= |Contents()|
      requires isMessageBuffer ==> messages != [] && available >= PREFIX + |messages[0]|
      modifies this`tail, this`messages
      ensures Valid()
      ensures !isMessageBuffer ==>
        && |data| == (if limit <= available then limit else available)
        && data + Contents() == old(Contents()) && messages == old(messages)
      ensures isMessageBuffer ==>
        if |old(messages)[0]| <= limit then data == old(messages)[0] && messages == old(messages)[1..]
        else data == [] && messages == old(messages) && tail == old(tail)
    {
      if isMessageBuffer {
        data := ReadFramed(limit, available);
      } else {
        var n := if limit <= available then limit else available;
        data := [];
        if n != 0 {
          UnreadSuffix(buffer[..], tail, head, n);
          data, tail := ReadBytesFromBuffer(n, tail);
        }
      }
    }

    method ReadFramed(limit: nat, available: nat) returns (data: seq<byte>)
      requires Valid() && isMessageBuffer && messages != [] && PREFIX + |messages[0]| <= available <= |Contents()|
      modifies this`tail, this`messages
      ensures Valid()
      ensures if |old(messages)[0]| <= limit then data == old(messages)[0] && messages == old(messages)[1..]
        else data == [] && messages == old(messages) && tail == old(tail)
    {
      FramedSize(messages);
      FrameRead(buffer[..], tail, head, messages);
      var prefix, next := ReadBytesFromBuffer(PREFIX, tail);
      var length := DecodeLength(prefix);
      if length > limit {
        length := 0;
      }
      var n := if length <= available - PREFIX then length else available - PREFIX;
      data := [];
      if n != 0 {
        data, tail := ReadBytesFromBuffer(n, next);
        messages := messages[1..];
      }
    }

    /** xStreamBufferNextMessageLengthBytes; the count is never between 1 and PREFIX. */
    method NextMessageLength() returns (n: nat)
      requires Valid()
      ensures n == if isMessageBuffer && messages != [] then |messages[0]| else 0
    {
      n := 0;
      if isMessageBuffer {
        FramedSize(messages);
        var available := BytesInBuffer();
        if available > PREFIX {
          FramedHead(messages);
          UnreadSuffix(buffer[..], tail, head, PREFIX);
          var prefix, next := ReadBytesFromBuffer(PREFIX, tail);
          n := DecodeLength(prefix);
        } else {
          assert available == 0;
        }
      }
    }

    /** xStreamBufferSendFromISR, and xStreamBufferSend once it stops waiting. */
    method Send(data: Message) returns (n: nat)
      requires Valid() && (isMessageBuffer ==> |data| + PREFIX < LENGTH_LIMIT)
      modifies this`head, this`messages, buffer
      ensures Valid()
      ensures !isMessageBuffer ==>
        && n == (if |data| + |old(Contents())| < buffer.Length then |data| else buffer.Length - 1 - |old(Contents())|)
        && Contents() == old(Contents()) + data[..n]
      ensures isMessageBuffer ==>
        && n == (if |data| + PREFIX + |old(Contents())| < buffer.Length then |data| else 0)
        && messages == (if n > 0 then old(messages) + [data] else old(messages))
    {
      var required := |data|;
      if isMessageBuffer {
        required := required + PREFIX;
      }
      var space := SpacesAvailable();
      n := WriteMessageToBuffer(data, space, required);
    }

    /** xStreamBufferReceiveFromISR, and xStreamBufferReceive once it stops waiting. */
    method Receive(limit: nat) returns (data: seq<byte>)
      requires Valid()
      modifies this`tail, this`messages
      ensures Valid()
      ensures !isMessageBuffer ==>
        && |data| == (if limit <= |old(Contents())| then limit else |old(Contents())|)
        && data + Contents() == old(Contents())
      ensures isMessageBuffer ==>
        if old(messages) != [] && |old(messages)[0]| <= limit then data == old(messages)[0] && messages == old(messages)[1..]
        else data == [] && messages == old(messages) && tail == old(tail)
    {
      var prefix := if isMessageBuffer then PREFIX else 0;
      var available := BytesInBuffer();
      if isMessageBuffer {
        FramedSize(messages);
      }
      data := [];
      if available > prefix {
        data := ReadMessageFromBuffer(limit, available);
      }
    }
  }
}
