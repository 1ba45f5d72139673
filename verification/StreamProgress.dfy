/** What writer and reader of a stream or message buffer achieve when nothing disturbs them:
    whatever fits is accepted, whatever is there is received, and a message sent arrives. */
module StreamProgress {
  import opened CircularBuffer
  import opened ByteStream
  import opened MessageBuffer
  import M = MessageStream

  lemma {:induction false} LeadsOn(s: Stream, run: seq<Step>, mid: Stream, more: seq<Step>, t: Stream)
    requires Leads(s, run, mid) && Leads(mid, more, t)
    ensures Leads(s, run + more, t)
    decreases run
  {
    if run == [] {
      assert run + more == more;
    } else {
      LeadsOn(Apply(s, run[0]), run[1..], mid, more, t);
      assert (run + more)[0] == run[0] && (run + more)[1..] == run[1..] + more;
    }
  }

  lemma {:induction false} OneStep(s: Stream, a: Step)
    requires Enabled(s, a)
    ensures Leads(s, [a], Apply(s, a))
  {
    assert [a][1..] == [];
    assert Leads(Apply(s, a), [], Apply(s, a));
  }

  /** The free space. */
  ghost function Room(s: Stream): int { |s.buffer| - 1 - (|s.accepted| - |s.received|) }

  /** With nobody else at work the two readings of the tail agree and the writer knows exactly
      how much room there is. */
  lemma {:induction false} Measures(s: Stream) returns (t: Stream)
    requires Inv(s) && s.writer.Resting?
    ensures Leads(s, [ReadTail] + ([ReadTailAgain] + [CheckTail]), t) && Inv(t)
    ensures t == s.(writer := Writing(Room(s), map[]))
  {
    var s1 := Apply(s, ReadTail);
    var s2 := Apply(s1, ReadTailAgain);
    t := Apply(s2, CheckTail);
    StepKeepsInv(s, ReadTail);
    StepKeepsInv(s1, ReadTailAgain);
    StepKeepsInv(s2, CheckTail);
    SpaceIsExact(|s.accepted|, |s.received|, |s.buffer|);
    OneStep(s, ReadTail);
    OneStep(s1, ReadTailAgain);
    OneStep(s2, CheckTail);
    LeadsOn(s1, [ReadTailAgain], s2, [CheckTail], t);
    LeadsOn(s, [ReadTail], s1, [ReadTailAgain] + [CheckTail], t);
  }

  /** A writer that finds the tail moved between its readings starts over, having changed
      nothing. */
  lemma {:induction false} StartsOver(s: Stream)
    requires Inv(s) && s.writer.SpaceRead? && s.tail != s.writer.first
    ensures Enabled(s, CheckTail) && Apply(s, CheckTail) == s.(writer := Resting) && Enabled(Apply(s, CheckTail), ReadTail)
  {
  }

  /** The writer has put the first `k` bytes of `data` in place and published nothing. */
  ghost predicate HasPut(s: Stream, data: seq<byte>, k: nat, t: Stream) {
    && k <= |data| && Inv(t) && t.writer.Writing? && t.writer.space == Room(s)
    && t == s.(buffer := t.buffer, writer := t.writer) && |t.buffer| == |s.buffer|
    && Covers(t.writer.staged, k) && Prefix(t.writer.staged, k) == data[..k]
  }

  lemma {:induction false} PutsNext(s: Stream, data: seq<byte>, k: nat, mid: Stream)
    requires HasPut(s, data, k, mid) && k < |data| <= Room(s)
    ensures Enabled(mid, Put(k, data[k])) && HasPut(s, data, k + 1, Apply(mid, Put(k, data[k])))
  {
    StagedOn(mid.writer.staged, data, k);
    StepKeepsInv(mid, Put(k, data[k]));
  }

  lemma {:induction false} StagedOn(m: map<nat, byte>, data: seq<byte>, k: nat)
    requires k < |data| && Covers(m, k) && Prefix(m, k) == data[..k]
    ensures Covers(m[k := data[k]], k + 1) && Prefix(m[k := data[k]], k + 1) == data[..k + 1]
  {
    var n := m[k := data[k]];
    forall i | 0 <= i < k + 1 ensures Prefix(n, k + 1)[i] == data[i] {
      if i < k {
        assert Prefix(m, k)[i] == data[..k][i];
      }
    }
  }

  lemma {:induction false} Puts(s: Stream, data: seq<byte>, k: nat, mid: Stream) returns (run: seq<Step>, t: Stream)
    requires HasPut(s, data, k, mid) && |data| <= Room(s)
    ensures Leads(mid, run, t) && HasPut(s, data, |data|, t) && forall a <- run :: a.Put?
    decreases |data| - k
  {
    run, t := [], mid;
    if k < |data| {
      PutsNext(s, data, k, mid);
      var more;
      more, t := Puts(s, data, k + 1, Apply(mid, Put(k, data[k])));
      OneStep(mid, Put(k, data[k]));
      LeadsOn(mid, [Put(k, data[k])], Apply(mid, Put(k, data[k])), more, t);
      run := [Put(k, data[k])] + more;
    }
  }

  /** Whatever fits can be put in place, before it is published. */
  lemma {:induction false} Stages(s: Stream, data: seq<byte>) returns (run: seq<Step>, t: Stream)
    requires Inv(s) && s.writer.Resting? && |data| <= Room(s)
    ensures Leads(s, run, t) && HasPut(s, data, |data|, t) && forall a <- run :: !a.Publish? && !a.Consume? && !a.ReadHead?
  {
    var first := Measures(s);
    assert HasPut(s, data, 0, first);
    var more;
    more, t := Puts(s, data, 0, first);
    run := [ReadTail] + ([ReadTailAgain] + [CheckTail]) + more;
    LeadsOn(s, [ReadTail] + ([ReadTailAgain] + [CheckTail]), first, more, t);
  }

  /** A writer that is not disturbed gets whatever fits accepted, all of it. */
  lemma {:induction false} WriterAlone(s: Stream, data: seq<byte>) returns (run: seq<Step>, t: Stream)
    requires Inv(s) && s.writer.Resting? && |data| <= Room(s)
    ensures Leads(s, run, t) && Inv(t)
    ensures t.accepted == s.accepted + data && t.received == s.received && t.writer.Resting? && t.reader == s.reader
  {
    var mid;
    run, mid := Stages(s, data);
    assert data[..|data|] == data;
    t := Apply(mid, Publish(|data|));
    StepKeepsInv(mid, Publish(|data|));
    OneStep(mid, Publish(|data|));
    LeadsOn(s, run, mid, [Publish(|data|)], t);
    run := run + [Publish(|data|)];
  }

  /** The reader has copied the first `k` bytes and consumed nothing. */
  ghost predicate HasGot(s: Stream, k: nat, t: Stream) {
    && Inv(t) && t.reader.Reading? && t.reader.count == |s.accepted| - |s.received|
    && t == s.(reader := t.reader) && Covers(t.reader.taken, k)
  }

  lemma {:induction false} GetsNext(s: Stream, k: nat, mid: Stream)
    requires HasGot(s, k, mid) && k < |s.accepted| - |s.received|
    ensures Enabled(mid, Get(k)) && HasGot(s, k + 1, Apply(mid, Get(k)))
  {
    StepKeepsInv(mid, Get(k));
  }

  lemma {:induction false} Gets(s: Stream, n: nat, k: nat, mid: Stream) returns (run: seq<Step>, t: Stream)
    requires HasGot(s, k, mid) && k <= n <= |s.accepted| - |s.received|
    ensures Leads(mid, run, t) && HasGot(s, n, t) && forall a <- run :: a.Get?
    decreases n - k
  {
    run, t := [], mid;
    if k < n {
      GetsNext(s, k, mid);
      var more;
      more, t := Gets(s, n, k + 1, Apply(mid, Get(k)));
      OneStep(mid, Get(k));
      LeadsOn(mid, [Get(k)], Apply(mid, Get(k)), more, t);
      run := [Get(k)] + more;
    }
  }

  /** The reader knows exactly how much is there. */
  lemma {:induction false} Looks(s: Stream)
    requires Inv(s) && s.reader.Still?
    ensures HasGot(s, 0, Apply(s, ReadHead))
  {
    StepKeepsInv(s, ReadHead);
    DistanceIsExact(|s.accepted|, |s.received|, |s.buffer|);
  }

  /** A reader that is not disturbed receives the next bytes accepted, as many as it wants of
      those that are there. */
  lemma {:induction false} ReaderAlone(s: Stream, n: nat) returns (run: seq<Step>, t: Stream)
    requires Inv(s) && s.reader.Still? && n <= |s.accepted| - |s.received|
    ensures Leads(s, run, t) && Inv(t)
    ensures t.received == s.accepted[..|s.received| + n] && t.accepted == s.accepted && t.reader.Still? && t.writer == s.writer
  {
    Looks(s);
    var first := Apply(s, ReadHead);
    var mid, more;
    more, mid := Gets(s, n, 0, first);
    OneStep(s, ReadHead);
    LeadsOn(s, [ReadHead], first, more, mid);
    t := Apply(mid, Consume(n));
    StepKeepsInv(mid, Consume(n));
    OneStep(mid, Consume(n));
    LeadsOn(s, [ReadHead] + more, mid, [Consume(n)], t);
    run := [ReadHead] + more + [Consume(n)];
    assert t.received == t.accepted[..|t.received|];
  }

  // --------------------------------------------------------------------------- messages

  lemma {:induction false} MailLeadsOn(s: M.Mail, run: seq<M.Action>, mid: M.Mail, a: M.Action)
    requires M.Leads(s, run, mid) && M.Enabled(mid, a)
    ensures M.Leads(s, run + [a], M.Apply(mid, a))
    decreases run
  {
    if run == [] {
      assert run + [a] == [a] && [a][1..] == [];
      assert M.Leads(M.Apply(mid, a), [], M.Apply(mid, a));
    } else {
      MailLeadsOn(M.Apply(s, run[0]), run[1..], mid, a);
      assert (run + [a])[0] == run[0] && (run + [a])[1..] == run[1..] + [a];
    }
  }

  /** Byte steps on a message buffer move no messages. */
  lemma {:induction false} ByByte(s: M.Mail, run: seq<Step>, t: Stream) returns (actions: seq<M.Action>, u: M.Mail)
    requires Leads(s.stream, run, t) && forall a <- run :: !a.Publish? && !a.Consume?
    ensures M.Leads(s, actions, u) && u.stream == t && u.sent == s.sent && u.got == s.got
    decreases run
  {
    actions, u := [], s;
    if run != [] {
      assert run[0] in run;
      var next := M.Apply(s, M.Bytewise(run[0]));
      var more;
      more, u := ByByte(next, run[1..], t);
      actions := [M.Bytewise(run[0])] + more;
      assert actions[1..] == more;
    }
  }

  /** A writer that is not disturbed sends any message for which there is room. */
  lemma {:induction false} SendsAlone(s: M.Mail, m: Message) returns (run: seq<M.Action>, t: M.Mail)
    requires M.Good(s) && s.stream.writer.Resting? && Storable(m) && PREFIX + |m| <= Room(s.stream)
    ensures M.Leads(s, run, t) && M.Good(t) && t.sent == s.sent + [m] && t.got == s.got && t.stream.reader == s.stream.reader
  {
    var steps, staged := Stages(s.stream, Frame(m));
    var mid;
    run, mid := ByByte(s, steps, staged);
    CanSend(s.stream, m, mid);
    M.RunKeepsGood(s, run, mid);
    M.ActionKeeps(mid, M.Send(m));
    t := M.Apply(mid, M.Send(m));
    MailLeadsOn(s, run, mid, M.Send(m));
    run := run + [M.Send(m)];
  }

  lemma {:induction false} CanSend(s: Stream, m: Message, mid: M.Mail)
    requires Storable(m) && PREFIX + |m| <= Room(s) && HasPut(s, Frame(m), |Frame(m)|, mid.stream)
    ensures M.Enabled(mid, M.Send(m))
    ensures var t := M.Apply(mid, M.Send(m)); t.sent == mid.sent + [m] && t.got == mid.got && t.stream.reader == s.reader
  {
    assert Frame(m)[..|Frame(m)|] == Frame(m);
    assert |Frame(m)| == PREFIX + |m|;
  }

  /** What a reader that has copied the next message whole can do with it. */
  lemma {:induction false} CanTake(s: M.Mail, limit: nat)
    requires M.Good(s) && |s.got| < |s.sent| && |s.sent[|s.got|]| <= limit
    requires s.stream.reader.Reading? && s.stream.reader.count > 0
    requires Covers(s.stream.reader.taken, PREFIX + |s.sent[|s.got|]|)
    ensures M.Enabled(s, M.Take(limit)) && M.Received(s, limit) == s.sent[|s.got|] != []
  {
    M.NextIsWhole(s);
    M.PrefixIsNext(s);
    assert M.Wanted(s.stream.reader, limit) == |s.sent[|s.got|]|;
    M.TakesTheNext(s, limit);
  }

  /** A reader that is not disturbed and whose buffer can hold it takes the next message. */
  lemma {:induction false} TakesAlone(s: M.Mail, limit: nat) returns (run: seq<M.Action>, t: M.Mail)
    requires M.Good(s) && s.stream.reader.Still? && |s.got| < |s.sent| && |s.sent[|s.got|]| <= limit
    ensures M.Leads(s, run, t) && M.Good(t) && t.got == s.got + [s.sent[|s.got|]] && t.sent == s.sent
  {
    var m := s.sent[|s.got|];
    Looks(s.stream);
    var first := M.Apply(s, M.Bytewise(ReadHead));
    M.ActionKeeps(s, M.Bytewise(ReadHead));
    SomethingThere(s);
    M.NextIsWhole(first);
    var steps, got := Gets(s.stream, PREFIX + |m|, 0, first.stream);
    var mid, actions;
    actions, mid := ByByte(first, steps, got);
    M.RunKeepsGood(first, actions, mid);
    CanTake(mid, limit);
    M.ActionKeeps(mid, M.Take(limit));
    t := M.Apply(mid, M.Take(limit));
    MailLeadsOn(first, actions, mid, M.Take(limit));
    run := [M.Bytewise(ReadHead)] + (actions + [M.Take(limit)]);
    assert run[1..] == actions + [M.Take(limit)];
  }

  /** A message sent and not received has its bytes in the buffer. */
  lemma {:induction false} SomethingThere(s: M.Mail)
    requires M.Good(s) && |s.got| < |s.sent|
    ensures |s.stream.accepted| > |s.stream.received|
  {
    M.OneMoreFrame(s.sent, |s.got|);
    M.FramedSplit(s.sent, |s.got| + 1);
  }

  /** A message sent into an empty buffer that can hold it arrives. */
  lemma {:induction false} MessageArrives(s: M.Mail, m: Message, limit: nat) returns (sending: seq<M.Action>, mid: M.Mail, taking: seq<M.Action>, t: M.Mail)
    requires M.Good(s) && s.stream.writer.Resting? && s.stream.reader.Still? && s.got == s.sent
    requires Storable(m) && |m| <= limit && PREFIX + |m| <= Room(s.stream)
    ensures M.Leads(s, sending, mid) && M.Leads(mid, taking, t) && t.got == s.got + [m] == t.sent
  {
    sending, mid := SendsAlone(s, m);
    taking, t := TakesAlone(mid, limit);
  }
}
