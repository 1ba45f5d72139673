/** Message buffers with writer and reader at work at the same time: the steps of the byte
    stream, with bytes published and consumed a whole message at a time. */
module MessageStream {
  import opened CircularBuffer
  import opened ByteStream
  import opened MessageBuffer

  /** The byte stream, the messages sent and received so far, and how many had been sent when
      the reader last read the head. */
  datatype Mail = Mail(stream: Stream, sent: seq<Message>, got: seq<Message>, seen: nat)

  datatype Action =
    | Bytewise(step: Step)
    | Send(m: Message)
    | Fail
    | Take(limit: nat)

  // ------------------------------------------------------------------------- actions

  /** How many bytes the code consumes: the length in the prefix, none if that is more than
      the receive buffer holds, and no more than the count it has read. */
  ghost function Wanted(reader: Reader, limit: nat): int
    requires reader.Reading? && Covers(reader.taken, PREFIX)
  {
    var length := DecodeLength(Prefix(reader.taken, PREFIX));
    if length > limit then 0 else if length <= reader.count - PREFIX then length else reader.count - PREFIX
  }

  /** Sending publishes the bytes of one frame; failing to send, or sending an empty message,
      publishes none; taking reads a prefix and then as many bytes as it says. */
  ghost predicate Enabled(s: Mail, a: Action) {
    var w, r := s.stream.writer, s.stream.reader;
    match a
    case Bytewise(step) => !step.Publish? && !step.Consume? && ByteStream.Enabled(s.stream, step)
    case Send(m) =>
      && Storable(m) && ByteStream.Enabled(s.stream, Publish(PREFIX + |m|))
      && Prefix(w.staged, PREFIX + |m|) == Frame(m)
    case Fail => ByteStream.Enabled(s.stream, Publish(0))
    case Take(limit) =>
      && r.Reading?
      && (r.count > PREFIX ==>
           && Covers(r.taken, PREFIX)
           && (Wanted(r, limit) > 0 ==> Covers(r.taken, PREFIX + Wanted(r, limit))))
  }

  /** What the reader hands out. */
  ghost function Received(s: Mail, limit: nat): seq<byte>
    requires Enabled(s, Take(limit))
  {
    var r := s.stream.reader;
    if r.count <= PREFIX || Wanted(r, limit) == 0 then []
    else Prefix(r.taken, PREFIX + Wanted(r, limit))[PREFIX..]
  }

  ghost function Apply(s: Mail, a: Action): Mail
    requires Enabled(s, a)
  {
    match a
    case Bytewise(step) =>
      s.(stream := ByteStream.Apply(s.stream, step), seen := if step.ReadHead? then |s.sent| else s.seen)
    case Send(m) => s.(stream := AfterPublish(s.stream, PREFIX + |m|), sent := s.sent + [m])
    case Fail => s.(stream := AfterPublish(s.stream, 0))
    case Take(limit) =>
      if Received(s, limit) == [] then s.(stream := AfterConsume(s.stream, 0))
      else s.(stream := AfterConsume(s.stream, PREFIX + |Received(s, limit)|), got := s.got + [Received(s, limit)])
  }

  // ----------------------------------------------------------------------- invariant

  /** The bytes accepted are the frames of the messages sent, those received the frames of the
      messages received, which are the first ones sent, and a count that has been read ends at
      the end of a message. */
  ghost predicate Framing(s: Mail) {
    && AllStorable(s.sent) && s.got <= s.sent
    && s.stream.accepted == Framed(s.sent)
    && |s.stream.received| == |Framed(s.sent[..|s.got|])|
    && (s.stream.reader.Reading? ==>
         && |s.got| <= s.seen <= |s.sent|
         && |s.stream.received| + s.stream.reader.count == |Framed(s.sent[..s.seen])|)
  }

  ghost predicate Good(s: Mail) { Inv(s.stream) && Framing(s) }

  lemma {:induction false} Regrouped(a: seq<byte>, b: seq<byte>, c: seq<byte>)
    ensures a + (b + c) == (a + b) + c
  {
  }

  lemma {:induction false} FramedSplit(ms: seq<Message>, i: nat)
    requires AllStorable(ms) && i <= |ms|
    ensures AllStorable(ms[..i]) && AllStorable(ms[i..]) && Framed(ms) == Framed(ms[..i]) + Framed(ms[i..])
  {
    if i == 0 {
      assert ms[..0] == [] && ms[0..] == ms && Framed([]) + Framed(ms) == Framed(ms);
    } else {
      var rest := ms[1..];
      FramedSplit(rest, i - 1);
      assert ms[..i][0] == ms[0] && ms[..i][1..] == rest[..i - 1] && rest[i - 1..] == ms[i..];
      assert ms[0] in ms;
      Regrouped(Frame(ms[0]), Framed(rest[..i - 1]), Framed(ms[i..]));
    }
  }

  /** The messages from `i` to `j` stand in the bytes between the ends of their frames. */
  lemma {:induction false} FramedBetween(ms: seq<Message>, i: nat, j: nat)
    requires AllStorable(ms) && i <= j <= |ms|
    ensures AllStorable(ms[..i]) && AllStorable(ms[..j]) && AllStorable(ms[i..j])
    ensures |Framed(ms[..i])| + |Framed(ms[i..j])| == |Framed(ms[..j])| <= |Framed(ms)|
    ensures Framed(ms)[|Framed(ms[..i])|..|Framed(ms[..j])|] == Framed(ms[i..j])
  {
    FramedSplit(ms, j);
    FramedSplit(ms[..j], i);
    assert ms[..j][..i] == ms[..i] && ms[..j][i..] == ms[i..j];
  }

  /** What the reader copies out of the buffer is what the writer put in. */
  lemma {:induction false} CopiedBytes(s: Stream, n: nat)
    requires Inv(s) && s.reader.Reading? && Covers(s.reader.taken, n) && n <= s.reader.count
    ensures |s.received| + n <= |s.accepted|
    ensures Prefix(s.reader.taken, n) == s.accepted[|s.received|..|s.received| + n]
  {
    var p := Prefix(s.reader.taken, n);
    forall k | 0 <= k < n ensures p[k] == s.accepted[|s.received| + k] {
      assert k in s.reader.taken;
    }
  }

  /** The next message stands whole within a count that reaches past the ones received. */
  lemma {:induction false} NextIsWhole(s: Mail)
    requires Good(s) && s.stream.reader.Reading? && s.stream.reader.count > 0
    ensures |s.got| < s.seen
    ensures var m, start := s.sent[|s.got|], |s.stream.received|;
      && Storable(m) && PREFIX + |m| <= s.stream.reader.count && start + PREFIX + |m| <= |s.stream.accepted|
      && s.stream.accepted[start..start + PREFIX + |m|] == Frame(m)
  {
    FramedBetween(s.sent, |s.got|, s.seen);
    FirstFrame(s.sent, |s.got|, s.seen, s.stream.accepted, |s.stream.received|, s.stream.reader.count);
  }

  /** Bytes that hold the messages from `i` to `j` begin with the frame of message `i`. */
  lemma {:induction false} FirstFrame(ms: seq<Message>, i: nat, j: nat, bytes: seq<byte>, start: nat, count: nat)
    requires i <= j <= |ms| && AllStorable(ms[i..j]) && count > 0 && start + count <= |bytes|
    requires bytes[start..start + count] == Framed(ms[i..j])
    ensures i < j && Storable(ms[i]) && PREFIX + |ms[i]| <= count
    ensures bytes[start..start + PREFIX + |ms[i]|] == Frame(ms[i])
  {
    var between := ms[i..j];
    if i < j {
      var m := ms[i];
      assert between[0] == m && m in between;
      assert Framed(between) == Frame(m) + Framed(between[1..]);
      assert Framed(between)[..PREFIX + |m|] == Frame(m);
      assert bytes[start..start + count][..PREFIX + |m|] == bytes[start..start + PREFIX + |m|];
    }
  }

  /** A reader that finds anything gets the next message, whole, if its buffer can hold it, and
      otherwise nothing. */
  lemma {:induction false} TakesTheNext(s: Mail, limit: nat)
    requires Good(s) && Enabled(s, Take(limit))
    ensures s.stream.reader.count == 0 || s.stream.reader.count > PREFIX
    ensures s.stream.reader.count == 0 ==> Received(s, limit) == []
    ensures s.stream.reader.count > 0 ==>
      |s.got| < |s.sent| && Received(s, limit) == if |s.sent[|s.got|]| <= limit then s.sent[|s.got|] else []
  {
    if s.stream.reader.count > 0 {
      NextIsWhole(s);
      PrefixIsNext(s);
      if |s.sent[|s.got|]| <= limit {
        BodyIsNext(s);
      }
    }
  }

  lemma {:induction false} PrefixIsNext(s: Mail)
    requires Good(s) && s.stream.reader.Reading? && s.stream.reader.count > 0 && Covers(s.stream.reader.taken, PREFIX)
    ensures |s.got| < |s.sent| && DecodeLength(Prefix(s.stream.reader.taken, PREFIX)) == |s.sent[|s.got|]|
  {
    NextIsWhole(s);
    var m, start := s.sent[|s.got|], |s.stream.received|;
    CopiedBytes(s.stream, PREFIX);
    LengthRoundTrip(|m|);
    assert s.stream.accepted[start..start + PREFIX] == Frame(m)[..PREFIX] == EncodeLength(|m|);
  }

  lemma {:induction false} BodyIsNext(s: Mail)
    requires Good(s) && s.stream.reader.Reading? && s.stream.reader.count > 0 && |s.got| < |s.sent|
    requires Covers(s.stream.reader.taken, PREFIX + |s.sent[|s.got|]|)
    ensures Prefix(s.stream.reader.taken, PREFIX + |s.sent[|s.got|]|)[PREFIX..] == s.sent[|s.got|]
  {
    NextIsWhole(s);
    var m := s.sent[|s.got|];
    CopiedBytes(s.stream, PREFIX + |m|);
    assert Frame(m)[PREFIX..] == m;
  }

  lemma {:induction false} TakeKeeps(s: Mail, limit: nat)
    requires Good(s) && Enabled(s, Take(limit))
    ensures Good(Apply(s, Take(limit)))
  {
    TakesTheNext(s, limit);
    var m := Received(s, limit);
    if m == [] {
      ConsumedOk(s.stream, 0);
      FramingAfterNothing(s, AfterConsume(s.stream, 0));
    } else {
      NextIsWhole(s);
      TakeCovers(s, limit);
      ConsumedOk(s.stream, PREFIX + |m|);
      FramingAfterTake(s, AfterConsume(s.stream, PREFIX + |m|), m);
    }
  }

  /** What is handed out has been copied. */
  lemma {:induction false} TakeCovers(s: Mail, limit: nat)
    requires Enabled(s, Take(limit)) && Received(s, limit) != []
    ensures Covers(s.stream.reader.taken, PREFIX + |Received(s, limit)|)
  {
  }

  lemma {:induction false} FramingAfterNothing(s: Mail, t: Stream)
    requires Framing(s) && t.accepted == s.stream.accepted && t.reader.Still? && |t.received| == |s.stream.received|
    ensures Framing(s.(stream := t))
  {
  }

  /** A reader that finds nothing, or whose buffer cannot hold the next message, takes nothing
      and leaves everything as it was; a writer for which there is no room likewise. */
  lemma {:induction false} EmptyHanded(s: Mail, limit: nat)
    requires Good(s)
    ensures Enabled(s, Fail) ==>
      var t := Apply(s, Fail);
      t.stream.accepted == s.stream.accepted && t.stream.writer.Resting? && t.sent == s.sent && t.got == s.got
    ensures Enabled(s, Take(limit)) && (s.stream.reader.count == 0 || (|s.got| < |s.sent| && |s.sent[|s.got|]| > limit)) ==>
      var t := Apply(s, Take(limit));
      |t.stream.received| == |s.stream.received| && t.stream.reader.Still? && t.sent == s.sent && t.got == s.got
  {
    if Enabled(s, Take(limit)) {
      TakesTheNext(s, limit);
    }
    if Enabled(s, Fail) {
      PublishedOk(s.stream, 0);
      assert s.stream.accepted + Prefix(s.stream.writer.staged, 0) == s.stream.accepted;
    }
  }

  lemma {:induction false} ConsumedOk(s: Stream, n: nat)
    requires Inv(s) && s.reader.Reading? && n <= s.reader.count && Covers(s.reader.taken, n)
    ensures var t := AfterConsume(s, n);
      Inv(t) && t.accepted == s.accepted && |t.received| == |s.received| + n && t.reader.Still?
  {
    StepKeepsInv(s, Consume(n));
  }

  lemma {:induction false} FramingAfterTake(s: Mail, t: Stream, m: Message)
    requires Framing(s) && |s.got| < |s.sent| && m == s.sent[|s.got|]
    requires t.accepted == s.stream.accepted && t.reader.Still? && |t.received| == |s.stream.received| + PREFIX + |m|
    ensures Framing(s.(stream := t, got := s.got + [m]))
  {
    OneMoreFrame(s.sent, |s.got|);
    assert s.sent[..|s.got| + 1] == s.got + [m];
  }

  lemma {:induction false} OneMoreFrame(ms: seq<Message>, i: nat)
    requires AllStorable(ms) && i < |ms|
    ensures AllStorable(ms[..i]) && AllStorable(ms[..i + 1])
    ensures |Framed(ms[..i + 1])| == |Framed(ms[..i])| + PREFIX + |ms[i]|
  {
    assert ms[i] in ms;
    FramedAppend(ms[..i], ms[i]);
    assert ms[..i + 1] == ms[..i] + [ms[i]];
  }

  lemma {:induction false} SendKeeps(s: Mail, m: Message)
    requires Good(s) && Enabled(s, Send(m))
    ensures Good(Apply(s, Send(m)))
  {
    PublishedOk(s.stream, PREFIX + |m|);
    FramingAfterSend(s, AfterPublish(s.stream, PREFIX + |m|), m);
  }

  lemma {:induction false} PublishedOk(s: Stream, n: nat)
    requires Inv(s) && ByteStream.Enabled(s, Publish(n))
    ensures var t := AfterPublish(s, n);
      Inv(t) && t.accepted == s.accepted + Prefix(s.writer.staged, n) && t.received == s.received && t.reader == s.reader
  {
    StepKeepsInv(s, Publish(n));
  }

  lemma {:induction false} FramingAfterSend(s: Mail, t: Stream, m: Message)
    requires Framing(s) && Storable(m)
    requires t.accepted == s.stream.accepted + Frame(m) && t.received == s.stream.received && t.reader == s.stream.reader
    ensures Framing(s.(stream := t, sent := s.sent + [m]))
  {
    FramedAppend(s.sent, m);
    var sent := s.sent + [m];
    assert sent[..|s.got|] == s.sent[..|s.got|];
    assert s.stream.reader.Reading? ==> sent[..s.seen] == s.sent[..s.seen];
  }

  lemma {:induction false} BytewiseKeeps(s: Mail, step: Step)
    requires Good(s) && Enabled(s, Bytewise(step))
    ensures Good(Apply(s, Bytewise(step)))
  {
    StepKeepsInv(s.stream, step);
    if step.ReadHead? {
      DistanceIsExact(|s.stream.accepted|, |s.stream.received|, |s.stream.buffer|);
      assert s.sent[..|s.sent|] == s.sent;
    }
  }

  lemma {:induction false} ActionKeeps(s: Mail, a: Action)
    requires Good(s) && Enabled(s, a)
    ensures Good(Apply(s, a))
  {
    match a
    case Bytewise(step) => BytewiseKeeps(s, step);
    case Send(m) => SendKeeps(s, m);
    case Fail => StepKeepsInv(s.stream, Publish(0));
    case Take(limit) => TakeKeeps(s, limit);
  }

  // ----------------------------------------------------------------------------- runs

  ghost predicate Leads(s: Mail, run: seq<Action>, t: Mail)
    decreases run
  {
    if run == [] then s == t else Enabled(s, run[0]) && Leads(Apply(s, run[0]), run[1..], t)
  }

  lemma {:induction false} RunKeepsGood(s: Mail, run: seq<Action>, t: Mail)
    requires Good(s) && Leads(s, run, t)
    ensures Good(t)
    decreases run
  {
    if run != [] {
      ActionKeeps(s, run[0]);
      RunKeepsGood(Apply(s, run[0]), run[1..], t);
    }
  }

  /** In every interleaving of writer and reader on an empty message buffer, byte by byte, the
      messages received are the first messages sent, whole and in order, and the byte count
      the reader sees is zero or more than a length prefix. */
  lemma {:induction false} MessagesArriveWhole(buffer: seq<byte>, run: seq<Action>, t: Mail)
    requires buffer != [] && Leads(Mail(Fresh(buffer), [], [], 0), run, t)
    ensures t.got <= t.sent
    ensures t.stream.reader.Reading? ==> t.stream.reader.count == 0 || t.stream.reader.count > PREFIX
  {
    RunKeepsGood(Mail(Fresh(buffer), [], [], 0), run, t);
    if t.stream.reader.Reading? && t.stream.reader.count > 0 {
      NextIsWhole(t);
    }
  }
}
