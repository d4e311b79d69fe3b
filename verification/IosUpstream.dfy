/** What the iOS session acknowledges to the client, over every interleaving of packets and completed sends. */
module IosUpstream {
  import opened Bytes
  import opened IosSession
  import opened IosStates
  import opened TcpWire
  import opened Wrappers

  /** The packet's FIN is taken. */
  predicate TakesFin(s: Session, e: Event) {
    && e.Packet? && e.flags.fin
    && ((s.state == Established && !e.flags.rst) || s.state in {FinWait1, FinWait2})
  }

  /** The octets whose send to upstream completes with this event. */
  function DeliveredBy(s: Session, e: Event): (octets: seq<Byte>) {
    if e.SendDone? && e.ok && e.index < |s.pendingSends| then s.pendingSends[e.index] else []
  }

  /**
   What a run has heard: the number of the packet that opened the session, that of the client's FIN once one is taken,
   and the octets delivered upstream, in order of completion, before and after the FIN was taken.
   */
  datatype History = History(syn: nat, fin: Option<nat>, early: seq<Byte>, late: seq<Byte>)

  function HearOne(h: History, s: Session, e: Event): (h': History) {
    if Opens(s, e) then h.(syn := e.seqNum)
    else if TakesFin(s, e) then h.(fin := Some(e.seqNum))
    else if h.fin.None? then h.(early := h.early + DeliveredBy(s, e))
    else h.(late := h.late + DeliveredBy(s, e))
  }

  function Heard(isn: nat, events: seq<Event>): (h: History) {
    if events == [] then History(0, None, [], [])
    else
      var front, last := events[..|events| - 1], events[|events| - 1];
      HearOne(Heard(isn, front), Run(isn, front), last)
  }

  /** The number to acknowledge: behind the octets delivered, counted from the client's SYN or, once taken, its FIN. */
  function DueAck(h: History): (n: nat) {
    match h.fin
    case None => Wrap(h.syn + 1 + |h.early|)
    case Some(q) => Wrap(q + 1 + |h.late|)
  }

  ghost predicate Acknowledges(s: Session, h: History) {
    && (s.sent != [] ==> s.clientSeq == DueAck(h))
    && (s.sent == [] ==> h.early == [])
    && (h.fin.None? ==> h.late == [])
    && (h.fin.Some? ==> s.state in {LastAck, TimeWait, Closed} && s.sent != [])
    && forall i | 0 <= i < |s.pendingSends| :: s.pendingSends[i] != []
  }

  lemma PacketHeard(s: Session, e: Event, h: History)
    requires e.Packet?
    ensures HearOne(h, s, e) == if Opens(s, e) then h.(syn := e.seqNum)
                                else if TakesFin(s, e) then h.(fin := Some(e.seqNum)) else h
  {
    assert h.early + [] == h.early && h.late + [] == h.late;
  }

  lemma OpenPacketAcknowledges(s: Session, e: Event, h: History)
    requires SoundControl(s) && e.Packet? && s.state in {Listen, SynReceived, Established} && Acknowledges(s, h)
    ensures Acknowledges(Step(s, e), HearOne(h, s, e))
  {
    PacketHeard(s, e, h);
  }

  lemma ClosingPacketAcknowledges(s: Session, e: Event, h: History)
    requires SoundControl(s) && e.Packet? && s.state !in {Listen, SynReceived, Established} && Acknowledges(s, h)
    ensures Acknowledges(Step(s, e), HearOne(h, s, e))
  {
    PacketHeard(s, e, h);
  }

  /** A packet sets the number or leaves it. */
  lemma PacketAcknowledges(s: Session, e: Event, h: History)
    requires SoundControl(s) && e.Packet? && Acknowledges(s, h)
    ensures Acknowledges(Step(s, e), HearOne(h, s, e))
  {
    if s.state in {Listen, SynReceived, Established} {
      OpenPacketAcknowledges(s, e, h);
    } else {
      ClosingPacketAcknowledges(s, e, h);
    }
  }

  lemma QuietAcknowledges(s: Session, e: Event, h: History)
    requires SoundControl(s) && !e.Packet? && DeliveredBy(s, e) == [] && Acknowledges(s, h)
    ensures Acknowledges(Step(s, e), HearOne(h, s, e))
  {
    assert HearOne(h, s, e) == h;
  }

  /** Where a number moves when more octets have been delivered. */
  lemma LongerMoves(base: nat, front: nat, more: nat)
    ensures Wrap(Wrap(base + front) + more) == Wrap(base + (front + more))
  {
    WrapAdd(base + front, more);
    assert base + front + more == base + (front + more);
  }

  lemma EarlySendAcknowledges(s: Session, e: Event, h: History)
    requires SoundControl(s) && e.SendDone? && e.ok && e.index < |s.pendingSends| && Acknowledges(s, h)
    requires h.fin.None?
    ensures Acknowledges(Step(s, e), HearOne(h, s, e))
  {
    LongerMoves(h.syn + 1, |h.early|, |s.pendingSends[e.index]|);
  }

  lemma LateSendAcknowledges(s: Session, e: Event, h: History)
    requires SoundControl(s) && e.SendDone? && e.ok && e.index < |s.pendingSends| && Acknowledges(s, h)
    requires h.fin.Some?
    ensures Acknowledges(Step(s, e), HearOne(h, s, e))
  {
    LongerMoves(h.fin.value + 1, |h.late|, |s.pendingSends[e.index]|);
  }

  lemma StepAcknowledges(s: Session, e: Event, h: History)
    requires SoundControl(s) && Acknowledges(s, h)
    ensures Acknowledges(Step(s, e), HearOne(h, s, e))
  {
    if e.Packet? {
      PacketAcknowledges(s, e, h);
    } else if e.SendDone? && e.ok && e.index < |s.pendingSends| {
      if h.fin.None? {
        EarlySendAcknowledges(s, e, h);
      } else {
        LateSendAcknowledges(s, e, h);
      }
    } else {
      QuietAcknowledges(s, e, h);
    }
  }

  /**
   Over every interleaving: until it takes the client's FIN, the session acknowledges the client's initial number plus
   one plus the octets whose send has completed; from then on the FIN's number plus one plus the octets whose send has
   completed since.
   */
  lemma {:induction false} AcknowledgesDelivered(isn: nat, events: seq<Event>)
    ensures Acknowledges(Run(isn, events), Heard(isn, events))
  {
    if events != [] {
      var front, last := events[..|events| - 1], events[|events| - 1];
      AcknowledgesDelivered(isn, front);
      RunIsSound(isn, front);
      StepAcknowledges(Run(isn, front), last, Heard(isn, front));
    }
  }

  /** Every segment a step sends acknowledges that number. */
  lemma SegmentsAcknowledge(s: Session, e: Event)
    ensures forall x | x in Added(s, e) :: x.ackNum == Step(s, e).clientSeq
    ensures Step(s, e).sent == s.sent + Added(s, e)
  {
    StepEmits(s, e);
  }

  // ------------------------------------------- acknowledging beyond the FIN

  /** The client's FIN is taken and no send is left to complete. */
  ghost predicate AtRest(s: Session, ackNum: nat) {
    && SoundControl(s) && s.sent != []
    && s.state in {LastAck, TimeWait, Closed} && s.pendingSends == [] && s.clientSeq == ackNum
  }

  lemma RestStep(s: Session, e: Event, ackNum: nat)
    requires AtRest(s, ackNum)
    ensures AtRest(Step(s, e), ackNum)
  {
    ControlIsKept(s, e);
    SegmentsAcknowledge(s, e);
  }

  lemma {:induction false} RestLasts(isn: nat, events: seq<Event>, more: seq<Event>, all: seq<Event>, ackNum: nat)
    requires all == events + more && AtRest(Run(isn, events), ackNum)
    ensures AtRest(Run(isn, all), ackNum)
    decreases |more|
  {
    if more == [] {
      assert all == events;
    } else {
      assert all == events + [more[0]] + more[1..];
      RestOnce(isn, events, more[0], ackNum);
      RestLasts(isn, events + [more[0]], more[1..], all, ackNum);
    }
  }

  lemma RestOnce(isn: nat, events: seq<Event>, e: Event, ackNum: nat)
    requires AtRest(Run(isn, events), ackNum)
    ensures AtRest(Run(isn, events + [e]), ackNum)
  {
    RestStep(Run(isn, events), e, ackNum);
    RunOneMore(isn, events, e);
  }

  lemma FinLeavesPending(s: Session, e: Event)
    requires TakesFin(s, e)
    ensures var t := Step(s, e);
      && t.state in {LastAck, TimeWait} && t.clientSeq == Wrap(e.seqNum + 1)
      && t.pendingSends == s.pendingSends && t.sent != []
  {
  }

  lemma SendOvershoots(s: Session, ackNum: nat)
    requires s.pendingSends != [] && 0 < |s.pendingSends[0]| < SEQ_SPACE && s.clientSeq == Wrap(ackNum)
    ensures Step(s, SendDone(0, true)).clientSeq != Wrap(ackNum)
  {
    var n := |s.pendingSends[0]|;
    WrapAdd(ackNum, n);
    WrapIsModulo(ackNum);
    WrapIsModulo(ackNum + n);
    OffsetMoves(ackNum, n);
  }

  lemma OffsetMoves(a: nat, d: nat)
    requires 0 < d < SEQ_SPACE
    ensures (a + d) % SEQ_SPACE != a % SEQ_SPACE
  {
  }

  /**
   Exactly when the client's FIN, once acknowledged, is never overshot: if and only if no send is pending when it
   arrives (payloads are far shorter than the sequence space).
   */
  lemma FinIsNeverOvershot(isn: nat, events: seq<Event>, fin: Event)
    requires TakesFin(Run(isn, events), fin)
    requires forall i | 0 <= i < |Run(isn, events).pendingSends| :: |Run(isn, events).pendingSends[i]| < SEQ_SPACE
    ensures (forall more: seq<Event> :: Run(isn, events + [fin] + more).clientSeq == Wrap(fin.seqNum + 1))
       <==> Run(isn, events).pendingSends == []
  {
    var s := Run(isn, events);
    FinLeavesPending(s, fin);
    RunOneMore(isn, events, fin);
    RunIsSound(isn, events + [fin]);
    if s.pendingSends == [] {
      forall more: seq<Event>
        ensures Run(isn, events + [fin] + more).clientSeq == Wrap(fin.seqNum + 1)
      {
        RestLasts(isn, events + [fin], more, events + [fin] + more, Wrap(fin.seqNum + 1));
      }
    } else {
      AcknowledgesDelivered(isn, events);
      SendOvershoots(Run(isn, events + [fin]), fin.seqNum + 1);
      RunOneMore(isn, events + [fin], SendDone(0, true));
      assert Run(isn, events + [fin] + [SendDone(0, true)]).clientSeq != Wrap(fin.seqNum + 1);
    }
  }

  /** The client's first octet is on its way upstream. */
  ghost predicate OneSendPending(s: Session, b: Byte) {
    s.state == Established && s.clientSeq == 1 && s.pendingSends == [[b]]
  }

  lemma FirstOctet(isn: nat, b: Byte)
    ensures OneSendPending(Run(isn, [Syn(), Connected(true), Packet(PSH_ACK, 1, [b])]), b)
  {
    RunOneMore(isn, [], Syn());
    RunOneMore(isn, [Syn()], Connected(true));
    RunOneMore(isn, [Syn(), Connected(true)], Packet(PSH_ACK, 1, [b]));
    assert [] + [Syn()] == [Syn()];
    assert [Syn()] + [Connected(true)] == [Syn(), Connected(true)];
    assert [Syn(), Connected(true)] + [Packet(PSH_ACK, 1, [b])] == [Syn(), Connected(true), Packet(PSH_ACK, 1, [b])];
  }

  lemma LateSend(s: Session, b: Byte)
    requires OneSendPending(s, b)
    ensures var t := Step(Step(s, Packet(FIN_ACK, 2, [])), SendDone(0, true));
      t.sent != [] && t.sent[|t.sent| - 1].ackNum == 4
  {
  }

  /** A send completes behind the FIN: the client has sent nothing beyond number 2 and is acknowledged 4. */
  lemma LateSendOvershoots(isn: nat, b: Byte)
    ensures var first := [Syn(), Connected(true), Packet(PSH_ACK, 1, [b])];
      var s := Run(isn, first + [Packet(FIN_ACK, 2, [])] + [SendDone(0, true)]);
      s.sent != [] && s.sent[|s.sent| - 1].ackNum == 4
  {
    var first := [Syn(), Connected(true), Packet(PSH_ACK, 1, [b])];
    FirstOctet(isn, b);
    RunOneMore(isn, first, Packet(FIN_ACK, 2, []));
    RunOneMore(isn, first + [Packet(FIN_ACK, 2, [])], SendDone(0, true));
    LateSend(Run(isn, first), b);
  }
}
