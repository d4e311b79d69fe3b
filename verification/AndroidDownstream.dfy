/** The segments the Android session sends and their place in its own sequence space, over every sequential run. */
module AndroidDownstream {
  import opened AndroidSession
  import opened AndroidStates
  import opened Bytes
  import opened TcpWire

  // -------------------------------------------------- what an event sends

  function Segments(log: seq<Logged>): (sent: seq<Segment>)
    ensures |sent| == |log|
  {
    seq(|log|, i requires 0 <= i < |log| => log[i].segment)
  }

  lemma SegmentsAppend(log: seq<Logged>, l: Logged)
    ensures Segments(log + [l]) == Segments(log) + [l.segment]
  {
  }

  function AnswersTo(s: Session, e: Event): (added: seq<Segment>)
    requires e.Packet?
  {
    var next := Wrap(e.seqNum + 1);
    if Opens(s, e) then
      [Segment(SYN_ACK, s.ourIsn, next, [])]
      + (if e.connects then [] else [Segment(RST_ACK, s.ourSeq, next, [])])
    else if TakesFin(s, e) then
      [Segment(ACK, s.ourSeq, next, [])]
      + (if s.state == Established then [Segment(FIN_ACK, s.ourSeq, next, [])] else [])
    else if Writes(s, e) && e.write.Written? then
      [Segment(ACK, s.ourSeq, Wrap(s.clientSeq + |e.payload|), [])]
    else []
  }

  /** The segments an event sends, in order. */
  function Added(s: Session, e: Event): (added: seq<Segment>) {
    match e
    case Packet(_, _, _, _, _) => AnswersTo(s, e)
    case ReaderChunk(data) => if s.upstreamConnected then [Segment(PSH_ACK, s.ourSeq, s.clientSeq, data)] else []
    case ReaderFin => if s.upstreamConnected then [Segment(FIN_ACK, s.ourSeq, s.clientSeq, [])] else []
    case Close => []
  }

  lemma OpeningAppends(s: Session, e: Event)
    requires Opens(s, e)
    ensures Segments(Step(s, e).sent) == Segments(s.sent) + Added(s, e)
  {
    var acked := s.(clientIsn := e.seqNum, clientSeq := Wrap(e.seqNum + 1));
    var first := Send(acked, SYN_ACK, s.ourIsn);
    SegmentsAppend(s.sent, first.sent[|s.sent|]);
    if !e.connects {
      SegmentsAppend(first.sent, Logged(Segment(RST_ACK, s.ourSeq, acked.clientSeq, []), |s.accepted|, s.clientFin));
    }
  }

  lemma FinAppends(s: Session, e: Event)
    requires TakesFin(s, e)
    ensures Segments(Step(s, e).sent) == Segments(s.sent) + Added(s, e)
  {
    var taken := TakeFin(s, e.seqNum);
    SegmentsAppend(s.sent, taken.sent[|s.sent|]);
    if s.state == Established {
      SegmentsAppend(taken.sent, Send(taken, FIN_ACK, s.ourSeq).sent[|taken.sent|]);
    }
  }

  lemma DataAppends(s: Session, e: Event)
    requires Writes(s, e)
    ensures Segments(Step(s, e).sent) == Segments(s.sent) + Added(s, e)
  {
    if e.write.Written? {
      SegmentsAppend(s.sent, Step(s, e).sent[|s.sent|]);
    }
  }

  lemma OtherPacketIsSilent(s: Session, e: Event)
    requires e.Packet? && !Opens(s, e) && !TakesFin(s, e) && !Writes(s, e)
    ensures Step(s, e).sent == s.sent && Step(s, e).ourSeq == s.ourSeq
  {
  }

  lemma ReaderAppends(s: Session, e: Event)
    requires !e.Packet?
    ensures Segments(Step(s, e).sent) == Segments(s.sent) + Added(s, e)
  {
    if s.upstreamConnected && !e.Close? {
      SegmentsAppend(s.sent, Step(s, e).sent[|s.sent|]);
    }
  }

  /** Every event sends exactly those segments. */
  lemma StepAppends(s: Session, e: Event)
    ensures Segments(Step(s, e).sent) == Segments(s.sent) + Added(s, e)
  {
    if !e.Packet? {
      ReaderAppends(s, e);
    } else if Opens(s, e) {
      OpeningAppends(s, e);
    } else if TakesFin(s, e) {
      FinAppends(s, e);
    } else if Writes(s, e) {
      DataAppends(s, e);
    } else {
      OtherPacketIsSilent(s, e);
    }
  }

  // ------------------------------------------------------ the sequence space

  /** Modulo 2^32, `x` starts where the segments `before` it end; a SYN takes the initial number itself. */
  predicate StandsAt(isn: nat, before: seq<Segment>, x: Segment) {
    Wrap(x.seqNum) == Wrap(if x.flags.syn then isn else isn + 1 + Occupied(before))
  }

  predicate InSequence(isn: nat, sent: seq<Segment>) {
    sent == []
    || (InSequence(isn, sent[..|sent| - 1]) && StandsAt(isn, sent[..|sent| - 1], sent[|sent| - 1]))
  }

  lemma {:induction false} InSequenceAt(isn: nat, sent: seq<Segment>, k: nat)
    requires InSequence(isn, sent) && k < |sent|
    ensures StandsAt(isn, sent[..k], sent[k])
  {
    if k < |sent| - 1 {
      InSequenceAt(isn, sent[..|sent| - 1], k);
      assert sent[..|sent| - 1][..k] == sent[..k];
    }
  }

  /** The segments sent so far: led by the one SYN+ACK at the initial number, in sequence, and followed by `ourSeq`. */
  ghost predicate SoundDownstream(isn: nat, sent: seq<Segment>, ourSeq: nat) {
    && InSequence(isn, sent)
    && Wrap(ourSeq) == Wrap(isn + 1 + Occupied(sent))
    && Syns(sent) == (if sent == [] then 0 else 1)
    && (sent != [] ==> sent[0].flags == SYN_ACK && sent[0].seqNum == isn && sent[0].payload == [])
  }

  lemma SameAfter(a: nat, b: nat, k: nat)
    requires Wrap(a) == Wrap(b)
    ensures Wrap(a + k) == Wrap(b + k)
  {
    WrapAdd(a, k);
    WrapAdd(b, k);
  }

  lemma WrapOnce(n: nat)
    ensures Wrap(Wrap(n)) == Wrap(n)
  {
    WrapAdd(n, 0);
  }

  /** One more segment at the session's number, which then moves by what the segment occupies. */
  lemma SendKeepsSound(isn: nat, sent: seq<Segment>, ourSeq: nat, x: Segment, next: nat)
    requires SoundDownstream(isn, sent, ourSeq) && sent != [] && x.seqNum == ourSeq && !x.flags.syn
    requires Wrap(next) == Wrap(ourSeq + Occupies(x))
    ensures SoundDownstream(isn, sent + [x], next)
  {
    assert (sent + [x])[..|sent|] == sent;
    SentOneMore(sent, x);
    SameAfter(ourSeq, isn + 1 + Occupied(sent), Occupies(x));
  }

  lemma OpeningKeepsSound(isn: nat, ourSeq: nat, x: Segment)
    requires SoundDownstream(isn, [], ourSeq) && x.flags == SYN_ACK && x.seqNum == isn && x.payload == []
    ensures SoundDownstream(isn, [x], ourSeq)
  {
    assert [] + [x] == [x] && [x][..0] == [];
    SentOneMore([], x);
  }

  ghost predicate Downstream(s: Session) {
    && Sound(s)
    && SoundDownstream(s.ourIsn, Segments(s.sent), s.ourSeq)
  }

  lemma OpeningKeepsDownstream(s: Session, e: Event)
    requires Downstream(s) && Opens(s, e)
    ensures SoundDownstream(s.ourIsn, Segments(Step(s, e).sent), Step(s, e).ourSeq)
  {
    var added := Added(s, e);
    StepAppends(s, e);
    OpeningKeepsSound(s.ourIsn, s.ourSeq, added[0]);
    if e.connects {
      assert Segments(Step(s, e).sent) == [added[0]];
    } else {
      SendKeepsSound(s.ourIsn, [added[0]], s.ourSeq, added[1], s.ourSeq);
      assert Segments(Step(s, e).sent) == [added[0]] + [added[1]];
    }
  }

  lemma OneKeepsDownstream(s: Session, t: Session, x: Segment)
    requires Downstream(s) && s.sent != [] && t.ourIsn == s.ourIsn
    requires Segments(t.sent) == Segments(s.sent) + [x] && x.seqNum == s.ourSeq && !x.flags.syn
    requires t.ourSeq == s.ourSeq + Occupies(x) || t.ourSeq == Wrap(s.ourSeq + Occupies(x))
    ensures SoundDownstream(s.ourIsn, Segments(t.sent), t.ourSeq)
  {
    WrapOnce(s.ourSeq + Occupies(x));
    SendKeepsSound(s.ourIsn, Segments(s.sent), s.ourSeq, x, t.ourSeq);
  }

  lemma FinKeepsDownstream(s: Session, e: Event)
    requires Downstream(s) && TakesFin(s, e)
    ensures SoundDownstream(s.ourIsn, Segments(Step(s, e).sent), Step(s, e).ourSeq)
  {
    var added, sent := Added(s, e), Segments(s.sent);
    StepAppends(s, e);
    if s.state == Established {
      WrapOnce(s.ourSeq + 1);
      SendKeepsSound(s.ourIsn, sent, s.ourSeq, added[0], s.ourSeq);
      SendKeepsSound(s.ourIsn, sent + [added[0]], s.ourSeq, added[1], Wrap(s.ourSeq + 1));
      assert sent + added == sent + [added[0]] + [added[1]];
    } else {
      OneKeepsDownstream(s, Step(s, e), added[0]);
    }
  }

  lemma DataKeepsDownstream(s: Session, e: Event)
    requires Downstream(s) && Writes(s, e)
    ensures SoundDownstream(s.ourIsn, Segments(Step(s, e).sent), Step(s, e).ourSeq)
  {
    StepAppends(s, e);
    if e.write.Written? {
      OneKeepsDownstream(s, Step(s, e), Added(s, e)[0]);
    } else {
      assert Segments(s.sent) + [] == Segments(s.sent);
    }
  }

  lemma ReaderKeepsDownstream(s: Session, e: Event)
    requires Downstream(s) && !e.Packet?
    ensures SoundDownstream(s.ourIsn, Segments(Step(s, e).sent), Step(s, e).ourSeq)
  {
    StepAppends(s, e);
    if s.upstreamConnected && !e.Close? {
      OneKeepsDownstream(s, Step(s, e), Added(s, e)[0]);
    }
  }

  lemma StepKeepsDownstream(s: Session, e: Event)
    requires Downstream(s)
    ensures Downstream(Step(s, e)) && Step(s, e).ourIsn == s.ourIsn
  {
    StepKeepsSound(s, e);
    ConnectionFollows(s, e);
    if !e.Packet? {
      ReaderKeepsDownstream(s, e);
    } else if Opens(s, e) {
      OpeningKeepsDownstream(s, e);
    } else if TakesFin(s, e) {
      FinKeepsDownstream(s, e);
    } else if Writes(s, e) {
      DataKeepsDownstream(s, e);
    } else {
      OtherPacketIsSilent(s, e);
    }
  }

  lemma InitIsDownstream(isn: nat)
    ensures Downstream(Init(isn))
  {
  }

  lemma {:induction false} RunIsDownstream(isn: nat, events: seq<Event>)
    ensures Downstream(Run(isn, events)) && Run(isn, events).ourIsn == isn
  {
    if events == [] {
      InitIsDownstream(isn);
    } else {
      RunIsDownstream(isn, events[..|events| - 1]);
      StepKeepsDownstream(Run(isn, events[..|events| - 1]), events[|events| - 1]);
    }
  }

  // ------------------------------------------------------ the octet stream

  /** The upstream octets an event relays: a chunk the reader has got. */
  function RelayedBy(s: Session, e: Event): (octets: seq<Byte>) {
    if e.ReaderChunk? && s.upstreamConnected then e.data else []
  }

  function Relayed(isn: nat, events: seq<Event>): (octets: seq<Byte>) {
    if events == [] then []
    else
      var front, last := events[..|events| - 1], events[|events| - 1];
      Relayed(isn, front) + RelayedBy(Run(isn, front), last)
  }

  lemma Regrouped<A>(x: seq<A>, y: seq<A>, z: seq<A>)
    ensures x + (y + z) == x + y + z
  {
  }

  lemma {:induction false} StreamAppends(sent: seq<Segment>, added: seq<Segment>)
    ensures Stream(sent + added) == Stream(sent) + Stream(added)
  {
    if added == [] {
      assert sent + added == sent;
    } else {
      var front, last := added[..|added| - 1], added[|added| - 1];
      StreamAppends(sent, front);
      SentOneMore(sent + front, last);
      Regrouped(sent, front, [last]);
      Regrouped(Stream(sent), Stream(front), last.payload);
      assert front + [last] == added;
    }
  }

  lemma {:induction false} EmptyStream(sent: seq<Segment>)
    requires forall i | 0 <= i < |sent| :: sent[i].payload == []
    ensures Stream(sent) == []
  {
    if sent != [] {
      EmptyStream(sent[..|sent| - 1]);
    }
  }

  /** Of all events only the reader's chunks send octets. */
  lemma AddedStream(s: Session, e: Event)
    ensures Stream(Added(s, e)) == RelayedBy(s, e)
  {
    if !e.ReaderChunk? {
      EmptyStream(Added(s, e));
    } else if s.upstreamConnected {
      SentOneMore([], Added(s, e)[0]);
      assert [] + [Added(s, e)[0]] == Added(s, e);
    }
  }

  /** The client is sent exactly the upstream octets, in order. */
  lemma {:induction false} StreamIsRelayed(isn: nat, events: seq<Event>)
    ensures Stream(Segments(Run(isn, events).sent)) == Relayed(isn, events)
  {
    if events != [] {
      var front, last := events[..|events| - 1], events[|events| - 1];
      var s := Run(isn, front);
      StreamIsRelayed(isn, front);
      StepAppends(s, last);
      AddedStream(s, last);
      StreamAppends(Segments(s.sent), Added(s, last));
    }
  }

  /**
   What the client reads: `sent` begins with the one SYN+ACK, at the initial number; every later segment stands, modulo
   2^32, at the initial number plus one plus the octets and FINs sent before it; and its octets are `relayed`.
   */
  ghost predicate ReadsAs(isn: nat, sent: seq<Segment>, relayed: seq<Byte>) {
    && Stream(sent) == relayed
    && (sent != [] ==> sent[0].flags == SYN_ACK && sent[0].seqNum == isn && sent[0].payload == [])
    && forall k | 1 <= k < |sent| ::
         && !sent[k].flags.syn
         && Wrap(sent[k].seqNum) == Wrap(isn + 1 + |Stream(sent[..k])| + Fins(sent[..k]))
  }

  /** The downstream sequence space over every sequential run. */
  lemma SequenceSpace(isn: nat, events: seq<Event>)
    ensures ReadsAs(isn, Segments(Run(isn, events).sent), Relayed(isn, events))
  {
    RunIsDownstream(isn, events);
    StreamIsRelayed(isn, events);
    SoundReadsAs(isn, Segments(Run(isn, events).sent), Run(isn, events).ourSeq);
  }

  lemma SoundReadsAs(isn: nat, sent: seq<Segment>, ourSeq: nat)
    requires SoundDownstream(isn, sent, ourSeq)
    ensures ReadsAs(isn, sent, Stream(sent))
  {
    forall k | 1 <= k < |sent|
      ensures !sent[k].flags.syn
      ensures Wrap(sent[k].seqNum) == Wrap(isn + 1 + |Stream(sent[..k])| + Fins(sent[..k]))
    {
      InSequenceAt(isn, sent, k);
      OnlyFirstIsSyn(sent, k);
      OccupiedIsStreamAndFins(sent[..k]);
      assert isn + 1 + Occupied(sent[..k]) == isn + 1 + |Stream(sent[..k])| + Fins(sent[..k]);
    }
  }

  lemma {:induction false} OnlyFirstIsSyn(sent: seq<Segment>, k: nat)
    requires 1 <= k < |sent| && sent[0].flags.syn && Syns(sent) <= 1
    ensures !sent[k].flags.syn
  {
    var n := |sent| - 1;
    if k < n {
      OnlyFirstIsSyn(sent[..n], k);
    } else {
      SynsAreCounted(sent[..n]);
    }
  }

  lemma {:induction false} SynsAreCounted(sent: seq<Segment>)
    requires sent != [] && sent[0].flags.syn
    ensures Syns(sent) >= 1
  {
    if |sent| > 1 {
      SynsAreCounted(sent[..|sent| - 1]);
    }
  }
}
