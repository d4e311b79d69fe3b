/**
 The Android session, one packet at a time: `handlePacket` holds the session's mutex from the first to the last
 line, the SOCKS connect included. The upstream reader runs outside the mutex; between packets it may relay a chunk
 and, having once seen ESTABLISHED, send our FIN and set FIN_WAIT_1 whatever the state has become.
 */
module AndroidSession {
  import opened Bytes
  import opened TcpWire

  /** The 4-tuple of a connection. */
  datatype SessionKey = SessionKey(srcAddr: seq<Byte>, srcPort: int, dstAddr: seq<Byte>, dstPort: int)

  /** What the upstream write of one payload does: all of it, or an exception after some octets. */
  datatype WriteOutcome = Written | Broken(octets: nat)

  /** A segment sent, with the octets accepted so far and whether the client's FIN had been taken. */
  datatype Logged = Logged(segment: Segment, accepted: nat, afterFin: bool)

  datatype Session = Session(
    state: TcpState, clientIsn: nat, clientSeq: nat, ourIsn: nat, ourSeq: nat,
    upstreamConnected: bool, hasOutput: bool,
    accepted: seq<Byte>, written: seq<Byte>, clientFin: bool, sent: seq<Logged>)

  datatype Event =
    | Packet(flags: Flags, seqNum: nat, payload: seq<Byte>, connects: bool, write: WriteOutcome)
    | ReaderChunk(data: seq<Byte>)
    | ReaderFin
    | Close

  function Init(isn: nat): (s: Session) {
    Session(Listen, 0, 0, isn, isn + 1, false, false, [], [], false, [])
  }

  function Send(s: Session, flags: Flags, seqNum: nat, payload: seq<Byte> := []): (s': Session) {
    s.(sent := s.sent + [Logged(Segment(flags, seqNum, s.clientSeq, payload), |s.accepted|, s.clientFin)])
  }

  function Closing(s: Session): (s': Session) {
    s.(hasOutput := false, state := Closed)
  }

  function ConnectUpstream(s: Session, ok: bool): (s': Session) {
    if ok then
      s.(hasOutput := true, upstreamConnected := true,
         state := if s.state == SynReceived then Established else s.state)
    else Send(s, RST_ACK, s.ourSeq).(state := Closed)
  }

  function HandleSyn(s: Session, seqNum: nat, connects: bool): (s': Session) {
    var acked := s.(clientIsn := seqNum, clientSeq := Wrap(seqNum + 1));
    ConnectUpstream(Send(acked, SYN_ACK, s.ourIsn).(state := SynReceived), connects)
  }

  function HandleEstablishedData(s: Session, payload: seq<Byte>, write: WriteOutcome): (s': Session) {
    if !s.hasOutput then s
    else
      match write
      case Broken(octets) =>
        Closing(s.(written := s.written + payload[..if octets <= |payload| then octets else |payload|]))
      case Written =>
        var done := s.(written := s.written + payload, accepted := s.accepted + payload,
                       clientSeq := Wrap(s.clientSeq + |payload|));
        Send(done, ACK, s.ourSeq)
  }

  function TakeFin(s: Session, seqNum: nat): (s': Session) {
    Send(s.(clientSeq := Wrap(seqNum + 1), clientFin := true), ACK, s.ourSeq)
  }

  function HandleFin(s: Session, seqNum: nat): (s': Session) {
    Send(TakeFin(s, seqNum), FIN_ACK, s.ourSeq).(ourSeq := Wrap(s.ourSeq + 1), state := LastAck)
  }

  /** A packet for a session that has not begun to close. */
  function HandleOpen(s: Session, e: Event): (s': Session)
    requires e.Packet? && s.state in {Listen, SynReceived, Established}
  {
    var f := e.flags;
    match s.state
    case Listen => if f.syn && !f.ack then HandleSyn(s, e.seqNum, e.connects) else s
    case SynReceived =>
      if f.ack && !f.syn then (if s.upstreamConnected then s.(state := Established) else s)
      else if f.rst then Closing(s)
      else s
    case Established =>
      if f.rst then Closing(s)
      else if f.fin then HandleFin(s, e.seqNum)
      else if e.payload != [] then HandleEstablishedData(s, e.payload, e.write)
      else s
  }

  /** A packet for a session that is closing or closed. */
  function HandleClosing(s: Session, e: Event): (s': Session)
    requires e.Packet? && s.state !in {Listen, SynReceived, Established}
  {
    var f := e.flags;
    match s.state
    case CloseWait => if f.rst then Closing(s) else s
    case LastAck => if f.ack then s.(state := Closed) else if f.rst then Closing(s) else s
    case FinWait1 =>
      if f.fin then TakeFin(s, e.seqNum).(state := TimeWait)
      else if f.ack then s.(state := FinWait2)
      else s
    case FinWait2 => if f.fin then TakeFin(s, e.seqNum).(state := TimeWait) else s
    case TimeWait => s
    case Closed => s
  }

  function Step(s: Session, e: Event): (s': Session) {
    match e
    case Packet(_, _, _, _, _) =>
      if s.state in {Listen, SynReceived, Established} then HandleOpen(s, e) else HandleClosing(s, e)
    case ReaderChunk(data) =>
      if !s.upstreamConnected then s
      else Send(s, PSH_ACK, s.ourSeq, data).(ourSeq := Wrap(s.ourSeq + |data|))
    case ReaderFin =>
      if !s.upstreamConnected then s
      else Send(s, FIN_ACK, s.ourSeq).(ourSeq := Wrap(s.ourSeq + 1), state := FinWait1)
    case Close => Closing(s)
  }

  function Run(isn: nat, events: seq<Event>): (s: Session) {
    if events == [] then Init(isn) else Step(Run(isn, events[..|events| - 1]), events[|events| - 1])
  }

  // ---------------------------------------------------------- the session

  class TcpSession {
    const key: SessionKey
    const ourIsn: nat
    var state: TcpState
    var clientIsn: nat
    var clientSeq: nat
    var ourSeq: nat
    var upstreamConnected: bool
    var hasOutput: bool
    var lastActivity: int
    var written: seq<Byte>
    var sent: seq<Logged>

    // History for the specification: the payload octets accepted, and whether the client's FIN has been taken.
    var accepted: seq<Byte>
    var clientFin: bool

    function View(): (s: Session)
      reads this
    {
      Session(state, clientIsn, clientSeq, ourIsn, ourSeq, upstreamConnected, hasOutput, accepted, written, clientFin,
              sent)
    }

    constructor (key: SessionKey, isn: nat, now: int)
      ensures View() == Init(isn) && this.key == key && lastActivity == now
    {
      this.key, ourIsn := key, isn;
      state, clientIsn, clientSeq, ourSeq := Listen, 0, 0, isn + 1;
      upstreamConnected, hasOutput, written, sent, lastActivity := false, false, [], [], now;
      accepted, clientFin := [], false;
    }

    predicate IsClosed()
      reads this
    {
      state == Closed
    }

    method SendTcpToTun(flags: Flags, seqNum: nat)
      modifies this`sent
      ensures View() == Send(old(View()), flags, seqNum)
    {
      sent := sent + [Logged(Segment(flags, seqNum, clientSeq, []), |accepted|, clientFin)];
    }

    method DoClose()
      modifies this`hasOutput, this`state
      ensures View() == Closing(old(View()))
    {
      hasOutput := false;
      state := Closed;
    }

    method DoConnectUpstream(ok: bool)
      modifies this
      ensures View() == ConnectUpstream(old(View()), ok) && lastActivity == old(lastActivity)
    {
      if ok {
        hasOutput := true;
        upstreamConnected := true;
        if state == SynReceived {
          state := Established;
        }
      } else {
        SendTcpToTun(RST_ACK, ourSeq);
        state := Closed;
      }
    }

    method OnSyn(seqNum: nat, connects: bool)
      modifies this
      ensures View() == HandleSyn(old(View()), seqNum, connects) && lastActivity == old(lastActivity)
    {
      clientIsn := seqNum;
      clientSeq := Wrap(clientIsn + 1);
      SendTcpToTun(SYN_ACK, ourIsn);
      state := SynReceived;
      DoConnectUpstream(connects);
    }

    method OnEstablishedData(payload: seq<Byte>, write: WriteOutcome)
      modifies this
      ensures View() == HandleEstablishedData(old(View()), payload, write) && lastActivity == old(lastActivity)
    {
      if !hasOutput {
        return;
      }
      match write {
        case Broken(octets) =>
          written := written + payload[..if octets <= |payload| then octets else |payload|];
          DoClose();
        case Written =>
          written := written + payload;
          accepted := accepted + payload;
          clientSeq := Wrap(clientSeq + |payload|);
          SendTcpToTun(ACK, ourSeq);
      }
    }

    method OnFinTaken(seqNum: nat)
      modifies this`clientSeq, this`clientFin, this`sent
      ensures View() == TakeFin(old(View()), seqNum)
    {
      clientSeq := Wrap(seqNum + 1);
      clientFin := true;
      SendTcpToTun(ACK, ourSeq);
    }

    method OnFin(seqNum: nat)
      modifies this
      ensures View() == HandleFin(old(View()), seqNum) && lastActivity == old(lastActivity)
    {
      OnFinTaken(seqNum);
      state := CloseWait;
      SendTcpToTun(FIN_ACK, ourSeq);
      ourSeq := Wrap(ourSeq + 1);
      state := LastAck;
    }

    method OnOpenPacket(e: Event)
      requires e.Packet? && state in {Listen, SynReceived, Established}
      modifies this
      ensures View() == HandleOpen(old(View()), e) && lastActivity == old(lastActivity)
    {
      var f := e.flags;
      match state {
        case Listen =>
          if f.syn && !f.ack {
            OnSyn(e.seqNum, e.connects);
          }
        case SynReceived =>
          if f.ack && !f.syn {
            if upstreamConnected {
              state := Established;
            }
          } else if f.rst {
            DoClose();
          }
        case Established =>
          if f.rst {
            DoClose();
          } else if f.fin {
            OnFin(e.seqNum);
          } else if |e.payload| > 0 {
            OnEstablishedData(e.payload, e.write);
          }
      }
    }

    method OnClosingPacket(e: Event)
      requires e.Packet? && state !in {Listen, SynReceived, Established}
      modifies this
      ensures View() == HandleClosing(old(View()), e) && lastActivity == old(lastActivity)
    {
      var f := e.flags;
      match state {
        case CloseWait =>
          if f.rst {
            DoClose();
          }
        case LastAck =>
          if f.ack {
            state := Closed;
          } else if f.rst {
            DoClose();
          }
        case FinWait1 =>
          if f.fin && f.ack {
            OnFinTaken(e.seqNum);
            state := TimeWait;
          } else if f.ack {
            state := FinWait2;
          } else if f.fin {
            OnFinTaken(e.seqNum);
            state := TimeWait;
          }
        case FinWait2 =>
          if f.fin {
            OnFinTaken(e.seqNum);
            state := TimeWait;
          }
        case TimeWait =>
        case Closed =>
      }
    }

    /** One packet, processed under the mutex at time `now`. */
    method HandlePacket(e: Event, now: int)
      requires e.Packet?
      modifies this
      ensures View() == Step(old(View()), e) && lastActivity == now
    {
      lastActivity := now;
      if state in {Listen, SynReceived, Established} {
        OnOpenPacket(e);
      } else {
        OnClosingPacket(e);
      }
    }
  }

  // ------------------------------------------- conservation toward upstream

  /** The payload octets a step accepts: a data packet in ESTABLISHED whose write succeeds. */
  function AcceptedBy(s: Session, e: Event): (p: seq<Byte>) {
    if e.Packet? && s.state == Established && !e.flags.rst && !e.flags.fin && s.hasOutput && e.write.Written?
    then e.payload else []
  }

  /** The accepted payloads of a run, in arrival order. */
  function Accepted(isn: nat, events: seq<Event>): (p: seq<Byte>) {
    if events == [] then []
    else
      var front, last := events[..|events| - 1], events[|events| - 1];
      Accepted(isn, front) + AcceptedBy(Run(isn, front), last)
  }

  /** A segment sent before the client's FIN acknowledges exactly the octets accepted before it was sent. */
  predicate AcksAccepted(clientIsn: nat, l: Logged) {
    !l.afterFin ==> l.segment.ackNum == Wrap(clientIsn + 1 + l.accepted)
  }

  predicate LogSound(clientIsn: nat, sent: seq<Logged>) {
    forall i | 0 <= i < |sent| :: AcksAccepted(clientIsn, sent[i])
  }

  /** What all states between packets satisfy. */
  ghost predicate Sound(s: Session) {
    && (s.sent == [] ==>
          && s.state in {Listen, Closed} && !s.upstreamConnected && !s.hasOutput && !s.clientFin
          && s.accepted == [] && s.written == [])
    && (s.state == Listen ==> s.sent == [])
    && s.state != SynReceived && s.state != CloseWait
    && (s.sent != [] && !s.clientFin ==> s.clientSeq == Wrap(s.clientIsn + 1 + |s.accepted|))
    && LogSound(s.clientIsn, s.sent)
    && s.accepted <= s.written
    && (s.hasOutput ==> s.accepted == s.written)
    && (s.state == Established ==> s.hasOutput && !s.clientFin)
  }

  lemma SendKeepsLog(s: Session, flags: Flags, seqNum: nat, payload: seq<Byte> := [])
    requires LogSound(s.clientIsn, s.sent)
    requires !s.clientFin ==> s.clientSeq == Wrap(s.clientIsn + 1 + |s.accepted|)
    ensures LogSound(s.clientIsn, Send(s, flags, seqNum, payload).sent)
  {
  }

  lemma SynKeepsSound(s: Session, seqNum: nat, connects: bool)
    requires Sound(s) && s.state == Listen
    ensures Sound(HandleSyn(s, seqNum, connects))
  {
    var acked := s.(clientIsn := seqNum, clientSeq := Wrap(seqNum + 1));
    SendKeepsLog(acked, SYN_ACK, s.ourIsn);
    var waiting := Send(acked, SYN_ACK, s.ourIsn).(state := SynReceived);
    SendKeepsLog(waiting, RST_ACK, s.ourSeq);
  }

  lemma DataKeepsSound(s: Session, payload: seq<Byte>, write: WriteOutcome)
    requires Sound(s) && s.state == Established
    ensures Sound(HandleEstablishedData(s, payload, write))
  {
    if write.Written? {
      var done := s.(written := s.written + payload, accepted := s.accepted + payload,
                     clientSeq := Wrap(s.clientSeq + |payload|));
      WrapAdd(s.clientIsn + 1 + |s.accepted|, |payload|);
      assert s.clientIsn + 1 + |s.accepted| + |payload| == s.clientIsn + 1 + |done.accepted|;
      SendKeepsLog(done, ACK, s.ourSeq);
    }
  }

  lemma FinKeepsSound(s: Session, seqNum: nat)
    requires Sound(s) && s.state == Established
    ensures Sound(HandleFin(s, seqNum))
  {
    SendKeepsLog(s.(clientSeq := Wrap(seqNum + 1), clientFin := true), ACK, s.ourSeq);
    SendKeepsLog(TakeFin(s, seqNum), FIN_ACK, s.ourSeq);
  }

  lemma LateFinKeepsSound(s: Session, seqNum: nat)
    requires Sound(s) && s.state in {FinWait1, FinWait2}
    ensures Sound(TakeFin(s, seqNum).(state := TimeWait))
  {
    SendKeepsLog(s.(clientSeq := Wrap(seqNum + 1), clientFin := true), ACK, s.ourSeq);
  }

  lemma ReaderKeepsSound(s: Session, e: Event)
    requires Sound(s) && s.upstreamConnected && !e.Packet?
    ensures Sound(Step(s, e))
  {
    match e
    case ReaderChunk(data) => SendKeepsLog(s, PSH_ACK, s.ourSeq, data);
    case ReaderFin => SendKeepsLog(s, FIN_ACK, s.ourSeq);
    case Close =>
  }

  lemma StepKeepsSound(s: Session, e: Event)
    requires Sound(s)
    ensures Sound(Step(s, e))
  {
    if e.Packet? {
      if s.state == Listen {
        SynKeepsSound(s, e.seqNum, e.connects);
      } else if s.state == Established {
        DataKeepsSound(s, e.payload, e.write);
        FinKeepsSound(s, e.seqNum);
      } else if s.state in {FinWait1, FinWait2} {
        LateFinKeepsSound(s, e.seqNum);
      }
    } else if s.upstreamConnected {
      ReaderKeepsSound(s, e);
    }
  }

  lemma {:induction false} RunIsSound(isn: nat, events: seq<Event>)
    ensures Sound(Run(isn, events))
  {
    if events == [] {
      InitIsSound(isn);
    } else {
      RunIsSound(isn, events[..|events| - 1]);
      StepKeepsSound(Run(isn, events[..|events| - 1]), events[|events| - 1]);
    }
  }

  lemma InitIsSound(isn: nat)
    ensures Sound(Init(isn))
  {
  }

  lemma DataAccepts(s: Session, payload: seq<Byte>, write: WriteOutcome)
    ensures HandleEstablishedData(s, payload, write).accepted
         == s.accepted + (if s.hasOutput && write.Written? then payload else [])
  {
  }

  lemma StepAccepts(s: Session, e: Event)
    ensures Step(s, e).accepted == s.accepted + AcceptedBy(s, e)
  {
    if e.Packet? && s.state == Established {
      DataAccepts(s, e.payload, e.write);
    }
  }

  lemma {:induction false} RunAccepts(isn: nat, events: seq<Event>)
    ensures Run(isn, events).accepted == Accepted(isn, events)
  {
    if events != [] {
      RunAccepts(isn, events[..|events| - 1]);
      StepAccepts(Run(isn, events[..|events| - 1]), events[|events| - 1]);
    }
  }

  /** What a state keeps of the client's octets, given the payloads accepted. */
  ghost predicate Conserves(s: Session, accepted: seq<Byte>) {
    && s.accepted == accepted
    && accepted <= s.written
    && (s.state == Established ==> s.written == accepted)
    && LogSound(s.clientIsn, s.sent)
    && (s.sent != [] && !s.clientFin ==> s.clientSeq == Wrap(s.clientIsn + 1 + |accepted|))
  }

  /**
   Upstream conservation over every sequential run: what has been written upstream starts with the accepted payloads
   in arrival order and is exactly them unless a write broke off; and until the client's FIN every acknowledgement is
   the client's initial number plus one plus the octets accepted before it was sent.
   */
  lemma UpstreamConservation(isn: nat, events: seq<Event>)
    ensures Conserves(Run(isn, events), Accepted(isn, events))
  {
    RunIsSound(isn, events);
    RunAccepts(isn, events);
    SoundConserves(Run(isn, events));
  }

  lemma SoundConserves(s: Session)
    requires Sound(s)
    ensures Conserves(s, s.accepted)
  {
  }

  /** SYN_RECEIVED is never visible between packets: the connect runs under the mutex. */
  lemma NeverSynReceived(isn: nat, events: seq<Event>)
    ensures Run(isn, events).state != SynReceived
  {
    RunIsSound(isn, events);
  }

  // ------------------------------------------------------ an orderly client

  function Concat(chunks: seq<seq<Byte>>): (s: seq<Byte>) {
    if chunks == [] then [] else Concat(chunks[..|chunks| - 1]) + chunks[|chunks| - 1]
  }

  function SynPacket(clientIsn: nat): (e: Event) {
    Packet(Flags(true, false, false, false, false), clientIsn, [], true, Written)
  }

  function DataPacket(seqNum: nat, payload: seq<Byte>): (e: Event) {
    Packet(PSH_ACK, seqNum, payload, true, Written)
  }

  function FinPacket(seqNum: nat, payload: seq<Byte>): (e: Event) {
    Packet(FIN_ACK, seqNum, payload, true, Written)
  }

  /** A client that opens the connection and sends its chunks in order. */
  function OrderlyClient(clientIsn: nat, chunks: seq<seq<Byte>>): (events: seq<Event>) {
    if chunks == [] then [SynPacket(clientIsn)]
    else
      var front := chunks[..|chunks| - 1];
      OrderlyClient(clientIsn, front)
      + [DataPacket(Wrap(clientIsn + 1 + |Concat(front)|), chunks[|chunks| - 1])]
  }

  lemma RunOneMore(isn: nat, events: seq<Event>, e: Event)
    ensures Run(isn, events + [e]) == Step(Run(isn, events), e)
  {
    assert (events + [e])[..|events|] == events;
  }

  ghost predicate Relaying(s: Session, clientIsn: nat, stream: seq<Byte>) {
    && s.state == Established && s.hasOutput && !s.clientFin && s.clientIsn == clientIsn
    && s.accepted == stream && s.written == stream
    && s.clientSeq == Wrap(clientIsn + 1 + |stream|)
  }

  lemma RelayOne(s: Session, clientIsn: nat, stream: seq<Byte>, seqNum: nat, chunk: seq<Byte>)
    requires Relaying(s, clientIsn, stream) && chunk != []
    ensures Relaying(Step(s, DataPacket(seqNum, chunk)), clientIsn, stream + chunk)
  {
    WrapAdd(clientIsn + 1 + |stream|, |chunk|);
    assert clientIsn + 1 + |stream| + |chunk| == clientIsn + 1 + |stream + chunk|;
  }

  lemma {:induction false} OrderlyRelay(isn: nat, clientIsn: nat, chunks: seq<seq<Byte>>)
    requires forall i | 0 <= i < |chunks| :: chunks[i] != []
    ensures Relaying(Run(isn, OrderlyClient(clientIsn, chunks)), clientIsn, Concat(chunks))
  {
    if chunks == [] {
      RunOneMore(isn, [], SynPacket(clientIsn));
      assert [] + [SynPacket(clientIsn)] == [SynPacket(clientIsn)];
    } else {
      var front, last := chunks[..|chunks| - 1], chunks[|chunks| - 1];
      OrderlyRelay(isn, clientIsn, front);
      var n := Wrap(clientIsn + 1 + |Concat(front)|);
      RunOneMore(isn, OrderlyClient(clientIsn, front), DataPacket(n, last));
      RelayOne(Run(isn, OrderlyClient(clientIsn, front)), clientIsn, Concat(front), n, last);
    }
  }

  /** The session answers a FIN at `seqNum` with an acknowledgement of `seqNum + 1` and a FIN of its own. */
  ghost predicate AcknowledgesFin(s: Session, fin: Event, ackNum: nat)
    requires fin.Packet?
  {
    var t := Step(s, fin);
    && t.written == s.written && t.state == LastAck
    && t.sent == s.sent + [Logged(Segment(ACK, s.ourSeq, ackNum, []), |s.accepted|, true),
                           Logged(Segment(FIN_ACK, s.ourSeq, ackNum, []), |s.accepted|, true)]
  }

  lemma FinIsAcknowledged(s: Session, fin: Event)
    requires fin.Packet? && fin.flags.fin && !fin.flags.rst && s.state == Established
    ensures AcknowledgesFin(s, fin, Wrap(fin.seqNum + 1))
  {
    var ackNum := Wrap(fin.seqNum + 1);
    var ack := Logged(Segment(ACK, s.ourSeq, ackNum, []), |s.accepted|, true);
    var ours := Logged(Segment(FIN_ACK, s.ourSeq, ackNum, []), |s.accepted|, true);
    assert s.sent + [ack] + [ours] == s.sent + [ack, ours];
  }

  /**
   In every established state, the octets accepted have all been written and a FIN numbered right behind them is
   acknowledged at the client's initial number plus two plus their count.
   */
  ghost predicate ReadyToClose(s: Session, accepted: seq<Byte>) {
    s.state == Established ==>
      && s.written == accepted
      && forall fin: Event | fin.Packet? && fin.flags.fin && !fin.flags.rst ::
           fin.seqNum == Wrap(s.clientIsn + 1 + |accepted|) ==>
             AcknowledgesFin(s, fin, Wrap(s.clientIsn + 2 + |accepted|))
  }

  /** Over every sequential run, whatever packets and reader events it consists of. */
  lemma EstablishedIsReadyToClose(isn: nat, events: seq<Event>)
    ensures ReadyToClose(Run(isn, events), Accepted(isn, events))
  {
    UpstreamConservation(isn, events);
    ConservingIsReady(Run(isn, events), Accepted(isn, events));
  }

  lemma ConservingIsReady(s: Session, accepted: seq<Byte>)
    requires Conserves(s, accepted)
    ensures ReadyToClose(s, accepted)
  {
    if s.state == Established {
      forall fin: Event | fin.Packet? && fin.flags.fin && !fin.flags.rst
                          && fin.seqNum == Wrap(s.clientIsn + 1 + |accepted|)
        ensures AcknowledgesFin(s, fin, Wrap(s.clientIsn + 2 + |accepted|))
      {
        FinIsAcknowledged(s, fin);
        WrapAdd(s.clientIsn + 1 + |accepted|, 1);
        assert s.clientIsn + 1 + |accepted| + 1 == s.clientIsn + 2 + |accepted|;
      }
    }
  }

  /** The packet, found in state `s`, carries the octets of `stream` behind the first `k`, at their number. */
  predicate CarriesNext(s: Session, stream: seq<Byte>, k: nat, e: Event)
    requires e.Packet?
  {
    && k + |e.payload| <= |stream| && e.payload == stream[k..k + |e.payload|]
    && e.seqNum == Wrap(s.clientIsn + 1 + k)
  }

  /** Whatever else happens in the run, each payload accepted is the next part of the client's stream. */
  predicate InOrder(isn: nat, stream: seq<Byte>, events: seq<Event>) {
    events == []
    || (var front, last := events[..|events| - 1], events[|events| - 1];
        && InOrder(isn, stream, front)
        && (AcceptedBy(Run(isn, front), last) != [] ==>
              CarriesNext(Run(isn, front), stream, |Accepted(isn, front)|, last)))
  }

  lemma {:induction false} InOrderAcceptsPrefix(isn: nat, stream: seq<Byte>, events: seq<Event>)
    requires InOrder(isn, stream, events)
    ensures Accepted(isn, events) <= stream
  {
    if events != [] {
      var front, last := events[..|events| - 1], events[|events| - 1];
      InOrderAcceptsPrefix(isn, stream, front);
      PrefixGrows(stream, Accepted(isn, front), AcceptedBy(Run(isn, front), last));
    }
  }

  lemma PrefixGrows(stream: seq<Byte>, front: seq<Byte>, more: seq<Byte>)
    requires front <= stream
    requires more != [] ==> |front| + |more| <= |stream| && more == stream[|front|..|front| + |more|]
    ensures front + more <= stream
  {
    if more == [] {
      assert front + more == front;
    } else {
      assert front + more == stream[..|front| + |more|];
    }
  }

  /**
   An in-order client, whatever acknowledgements it sends and whatever upstream sends in between: what is written
   upstream is a prefix of its stream while the session is established, and once the whole stream has been accepted, all
   of it has been written and the client's FIN is acknowledged at its initial number plus two plus the stream's length.
   */
  lemma InOrderClose(isn: nat, stream: seq<Byte>, events: seq<Event>)
    requires InOrder(isn, stream, events)
    ensures Run(isn, events).state == Established ==> Run(isn, events).written <= stream
    ensures |Accepted(isn, events)| == |stream| ==> ReadyToClose(Run(isn, events), stream)
  {
    InOrderAcceptsPrefix(isn, stream, events);
    EstablishedIsReadyToClose(isn, events);
    WholePrefix(Accepted(isn, events), stream);
  }

  lemma {:induction false} InOrderExtends(isn: nat, stream: seq<Byte>, more: seq<Byte>, events: seq<Event>)
    requires InOrder(isn, stream, events)
    ensures InOrder(isn, stream + more, events)
  {
    if events != [] {
      var front, last := events[..|events| - 1], events[|events| - 1];
      InOrderExtends(isn, stream, more, front);
      var k := |Accepted(isn, front)|;
      if AcceptedBy(Run(isn, front), last) != [] {
        assert (stream + more)[k..k + |last.payload|] == stream[k..k + |last.payload|];
      }
    }
  }

  lemma OrderlyAccepts(isn: nat, clientIsn: nat, chunks: seq<seq<Byte>>)
    requires forall i | 0 <= i < |chunks| :: chunks[i] != []
    ensures Accepted(isn, OrderlyClient(clientIsn, chunks)) == Concat(chunks)
  {
    OrderlyRelay(isn, clientIsn, chunks);
    RunAccepts(isn, OrderlyClient(clientIsn, chunks));
  }

  lemma RelayedComesNext(s: Session, clientIsn: nat, front: seq<Byte>, last: seq<Byte>)
    requires Relaying(s, clientIsn, front)
    ensures CarriesNext(s, front + last, |front|, DataPacket(Wrap(clientIsn + 1 + |front|), last))
  {
  }

  lemma InOrderStep(isn: nat, stream: seq<Byte>, front: seq<Event>, e: Event, k: nat)
    requires InOrder(isn, stream, front) && e.Packet? && k == |Accepted(isn, front)|
    requires CarriesNext(Run(isn, front), stream, k, e) || Run(isn, front).state == Listen
    ensures InOrder(isn, stream, front + [e])
  {
    assert (front + [e])[..|front|] == front;
  }

  lemma OneMoreChunk(isn: nat, clientIsn: nat, sent: seq<Byte>, last: seq<Byte>, events: seq<Event>, e: Event)
    requires InOrder(isn, sent, events) && Accepted(isn, events) == sent
    requires Relaying(Run(isn, events), clientIsn, sent) && e == DataPacket(Wrap(clientIsn + 1 + |sent|), last)
    ensures InOrder(isn, sent + last, events + [e])
  {
    RelayedComesNext(Run(isn, events), clientIsn, sent, last);
    InOrderExtends(isn, sent, last, events);
    InOrderStep(isn, sent + last, events, e, |sent|);
  }

  lemma OpeningIsInOrder(isn: nat, clientIsn: nat)
    ensures InOrder(isn, [], [SynPacket(clientIsn)])
  {
    InOrderStep(isn, [], [], SynPacket(clientIsn), 0);
    assert [] + [SynPacket(clientIsn)] == [SynPacket(clientIsn)];
  }

  lemma OrderlyState(isn: nat, clientIsn: nat, chunks: seq<seq<Byte>>, events: seq<Event>)
    requires forall i | 0 <= i < |chunks| :: chunks[i] != []
    requires events == OrderlyClient(clientIsn, chunks)
    ensures Relaying(Run(isn, events), clientIsn, Concat(chunks)) && Accepted(isn, events) == Concat(chunks)
  {
    OrderlyRelay(isn, clientIsn, chunks);
    OrderlyAccepts(isn, clientIsn, chunks);
  }

  /** The client that sends nothing but its chunks is one of the in-order clients. */
  lemma {:induction false} OrderlyIsInOrder(isn: nat, clientIsn: nat, chunks: seq<seq<Byte>>, events: seq<Event>)
    requires forall i | 0 <= i < |chunks| :: chunks[i] != []
    requires events == OrderlyClient(clientIsn, chunks)
    ensures InOrder(isn, Concat(chunks), events)
  {
    if chunks == [] {
      OpeningIsInOrder(isn, clientIsn);
    } else {
      var front, last := chunks[..|chunks| - 1], chunks[|chunks| - 1];
      var before, sent := OrderlyClient(clientIsn, front), Concat(front);
      var e := DataPacket(Wrap(clientIsn + 1 + |sent|), last);
      assert events == before + [e] && Concat(chunks) == sent + last;
      OrderlyIsInOrder(isn, clientIsn, front, before);
      OrderlyState(isn, clientIsn, front, before);
      OneMoreChunk(isn, clientIsn, sent, last, before, e);
    }
  }

  lemma WholePrefix(a: seq<Byte>, stream: seq<Byte>)
    requires a <= stream
    ensures |a| == |stream| ==> a == stream
  {
  }

  /** An orderly client whose FIN carries no payload gets its whole stream written and its FIN acknowledged. */
  lemma OrderlyClose(isn: nat, clientIsn: nat, chunks: seq<seq<Byte>>)
    requires forall i | 0 <= i < |chunks| :: chunks[i] != []
    ensures var n := Wrap(clientIsn + 1 + |Concat(chunks)|);
      && Relaying(Run(isn, OrderlyClient(clientIsn, chunks)), clientIsn, Concat(chunks))
      && AcknowledgesFin(Run(isn, OrderlyClient(clientIsn, chunks)), FinPacket(n, []),
                         Wrap(clientIsn + 2 + |Concat(chunks)|))
  {
    OrderlyRelay(isn, clientIsn, chunks);
    OrderlyFin(Run(isn, OrderlyClient(clientIsn, chunks)), clientIsn, Concat(chunks));
  }

  lemma OrderlyFin(s: Session, clientIsn: nat, stream: seq<Byte>)
    requires Relaying(s, clientIsn, stream)
    ensures AcknowledgesFin(s, FinPacket(Wrap(clientIsn + 1 + |stream|), []), Wrap(clientIsn + 2 + |stream|))
  {
    var n := clientIsn + 1 + |stream|;
    FinIsAcknowledged(s, FinPacket(Wrap(n), []));
    WrapAdd(n, 1);
    assert n + 1 == clientIsn + 2 + |stream|;
  }

  /** A retransmitted data segment is written upstream again: the sequence number is not looked at. */
  lemma RetransmissionIsWrittenTwice(isn: nat, clientIsn: nat, chunk: seq<Byte>)
    requires chunk != []
    ensures var once := OrderlyClient(clientIsn, [chunk]);
      Relaying(Step(Run(isn, once), once[|once| - 1]), clientIsn, chunk + chunk)
  {
    var once := OrderlyClient(clientIsn, [chunk]);
    OrderlyRelay(isn, clientIsn, [chunk]);
    assert [chunk][..0] == [];
    assert Concat([chunk]) == [] + chunk == chunk;
    RelayOne(Run(isn, once), clientIsn, chunk, once[|once| - 1].seqNum, chunk);
  }

  // ------------------------------------- which packets are acknowledged in full

  lemma SameResidue(a: nat, d: nat)
    requires d < SEQ_SPACE
    ensures a % SEQ_SPACE == (a + d) % SEQ_SPACE <==> d == 0
  {
  }

  lemma ShiftedResidues(a: nat, b: nat, d: nat)
    requires a < SEQ_SPACE && b < SEQ_SPACE
    ensures (a + d) % SEQ_SPACE == (b + d) % SEQ_SPACE <==> a == b
  {
    if a < b {
      SameResidue(a + d, b - a);
      assert a + d + (b - a) == b + d;
    } else if b < a {
      SameResidue(b + d, a - b);
      assert b + d + (a - b) == a + d;
    }
  }

  /** The number behind everything a packet occupies: its SYN, its payload and its FIN. */
  function NumberBehind(e: Event): (n: nat)
    requires e.Packet?
  {
    e.seqNum + (if e.flags.syn then 1 else 0) + |e.payload| + (if e.flags.fin then 1 else 0)
  }

  /** The first segment sent in answer to the packet acknowledges all of it. */
  predicate AcknowledgesAll(s: Session, e: Event)
    requires e.Packet?
  {
    var t := Step(s, e);
    && |t.sent| > |s.sent| && t.sent[|s.sent|].segment.flags.ack
    && t.sent[|s.sent|].segment.ackNum == Wrap(NumberBehind(e))
  }

  /** What a state takes in full: a bare SYN, a bare FIN, or data at exactly the next number. */
  predicate TakesAll(s: Session, e: Event)
    requires e.Packet?
  {
    var f := e.flags;
    match s.state
    case Listen => f.syn && !f.ack && !f.fin && e.payload == []
    case Established =>
      !f.rst && (if f.fin then !f.syn && e.payload == []
                 else e.payload != [] && e.write.Written? && Wrap(e.seqNum + (if f.syn then 1 else 0)) == s.clientSeq)
    case FinWait1 => f.fin && !f.syn && e.payload == []
    case FinWait2 => f.fin && !f.syn && e.payload == []
    case _ => false
  }

  /** All a reachable state needs for data to be answered. */
  predicate Answerable(s: Session) {
    s.state == Established ==> s.hasOutput && s.clientSeq < SEQ_SPACE
  }

  lemma SoundIsAnswerable(s: Session)
    requires Sound(s)
    ensures Answerable(s)
  {
  }

  lemma ShortOffset(a: nat, d: nat)
    requires d < SEQ_SPACE
    ensures Wrap(a) == Wrap(a + d) <==> d == 0
  {
    WrapIsModulo(a);
    WrapIsModulo(a + d);
    SameResidue(a, d);
  }

  lemma SameShift(a: nat, b: nat, d: nat)
    requires a < SEQ_SPACE
    ensures Wrap(a + d) == Wrap(b + d) <==> a == Wrap(b)
  {
    WrapAdd(b, d);
    WrapIsModulo(a + d);
    WrapIsModulo(Wrap(b) + d);
    ShiftedResidues(a, Wrap(b), d);
  }

  lemma OpeningIsAcknowledged(s: Session, e: Event)
    requires e.Packet? && s.state == Listen && |e.payload| + 2 < SEQ_SPACE
    ensures AcknowledgesAll(s, e) <==> TakesAll(s, e)
  {
    ShortOffset(e.seqNum + 1, |e.payload| + (if e.flags.fin then 1 else 0));
  }

  lemma FinIsAcknowledgedBare(s: Session, e: Event)
    requires e.Packet? && s.state in {Established, FinWait1, FinWait2} && |e.payload| + 2 < SEQ_SPACE
    requires e.flags.fin && (s.state == Established ==> !e.flags.rst)
    ensures AcknowledgesAll(s, e) <==> TakesAll(s, e)
  {
    ShortOffset(e.seqNum + 1, |e.payload| + (if e.flags.syn then 1 else 0));
  }

  lemma DataIsAcknowledgedInOrder(s: Session, e: Event)
    requires e.Packet? && s.state == Established && Answerable(s) && !e.flags.fin && !e.flags.rst
    ensures AcknowledgesAll(s, e) <==> TakesAll(s, e)
  {
    SameShift(s.clientSeq, e.seqNum + (if e.flags.syn then 1 else 0), |e.payload|);
  }

  lemma OthersAreNotAcknowledged(s: Session, e: Event)
    requires e.Packet? && s.state != Listen
    requires s.state == Established ==> e.flags.rst
    requires s.state in {FinWait1, FinWait2} ==> !e.flags.fin
    ensures Step(s, e).sent == s.sent && !TakesAll(s, e)
  {
  }

  /**
   In every reachable state and for every packet, whatever its flags: the packet is acknowledged in full if and only if
   the state takes it in full.
   */
  lemma AcknowledgedExactly(s: Session, e: Event)
    requires Answerable(s) && e.Packet? && |e.payload| + 2 < SEQ_SPACE
    ensures AcknowledgesAll(s, e) <==> TakesAll(s, e)
  {
    if s.state == Listen {
      OpeningIsAcknowledged(s, e);
    } else if s.state == Established && !e.flags.rst {
      if e.flags.fin {
        FinIsAcknowledgedBare(s, e);
      } else {
        DataIsAcknowledgedInOrder(s, e);
      }
    } else if s.state in {FinWait1, FinWait2} && e.flags.fin {
      FinIsAcknowledgedBare(s, e);
    } else {
      OthersAreNotAcknowledged(s, e);
    }
  }

  /**
   A FIN segment is acknowledged in full if and only if it carries no payload and finds the session established or
   waiting for it (payloads are far shorter than the sequence space).
   */
  lemma FinPayloadIsNotAcknowledged(s: Session, seqNum: nat, payload: seq<Byte>)
    requires |payload| + 2 < SEQ_SPACE
    ensures AcknowledgesAll(s, FinPacket(seqNum, payload))
       <==> payload == [] && s.state in {Established, FinWait1, FinWait2}
    ensures s.state == Established ==>
              (AcknowledgesFin(s, FinPacket(seqNum, payload), Wrap(seqNum + |payload| + 1)) <==> payload == [])
  {
    var fin := FinPacket(seqNum, payload);
    if s.state in {Established, FinWait1, FinWait2} {
      FinIsAcknowledgedBare(s, fin);
    } else if s.state != Listen {
      OthersAreNotAcknowledged(s, fin);
    }
    if s.state == Established {
      FinIsAcknowledged(s, fin);
      ShortOffset(seqNum + 1, |payload|);
      AcknowledgedOnce(s, fin, Wrap(seqNum + 1), Wrap(seqNum + |payload| + 1));
    }
  }

  lemma AcknowledgedOnce(s: Session, fin: Event, a: nat, b: nat)
    requires fin.Packet? && AcknowledgesFin(s, fin, a)
    ensures AcknowledgesFin(s, fin, b) <==> a == b
  {
    if AcknowledgesFin(s, fin, b) {
      assert Step(s, fin).sent[|s.sent|].segment.ackNum == a;
    }
  }

  /**
   A data segment is answered by exactly the acknowledgement its sender expects if and only if it finds the session
   established and comes at the next number.
   */
  lemma AckMatchesExactlyInOrder(s: Session, seqNum: nat, chunk: seq<Byte>)
    requires Answerable(s) && chunk != [] && seqNum < SEQ_SPACE
    ensures AcknowledgesAll(s, DataPacket(seqNum, chunk)) <==> s.state == Established && seqNum == s.clientSeq
    ensures s.state == Established ==>
              (Step(s, DataPacket(seqNum, chunk)).clientSeq == Wrap(seqNum + |chunk|) <==> seqNum == s.clientSeq)
    ensures s.state == Established && seqNum == s.clientSeq ==>
              Step(s, DataPacket(seqNum, chunk)).sent
              == s.sent + [Logged(Segment(ACK, s.ourSeq, Wrap(seqNum + |chunk|), []), |s.accepted| + |chunk|,
                                  s.clientFin)]
  {
    if s.state == Established {
      DataIsAcknowledgedInOrder(s, DataPacket(seqNum, chunk));
      SameShift(s.clientSeq, seqNum, |chunk|);
    } else if s.state != Listen {
      OthersAreNotAcknowledged(s, DataPacket(seqNum, chunk));
    }
  }

  // Inputs on which a FIN or in-order data goes unacknowledged

  /** The client's FIN, sent again in LAST_ACK, is taken for the acknowledgement of ours: no answer, session closed. */
  lemma RetransmittedFinIsNotAnswered(isn: nat, clientIsn: nat)
    ensures var fin := FinPacket(Wrap(clientIsn + 1), []);
      var s := Run(isn, [SynPacket(clientIsn), fin]);
      && s.state == LastAck && Step(s, fin).state == Closed && Step(s, fin).sent == s.sent
  {
    var fin := FinPacket(Wrap(clientIsn + 1), []);
    OpenedThen(isn, clientIsn, fin);
  }

  lemma OpenedThen(isn: nat, clientIsn: nat, e: Event)
    ensures Relaying(Run(isn, [SynPacket(clientIsn)]), clientIsn, [])
    ensures Run(isn, [SynPacket(clientIsn), e]) == Step(Run(isn, [SynPacket(clientIsn)]), e)
  {
    OrderlyRelay(isn, clientIsn, []);
    assert OrderlyClient(clientIsn, []) == [SynPacket(clientIsn)];
    RunOneMore(isn, [SynPacket(clientIsn)], e);
    assert [SynPacket(clientIsn)] + [e] == [SynPacket(clientIsn), e];
  }

  /** After our FIN, in FIN_WAIT_1, the payload of the client's FIN is dropped and only its number acknowledged. */
  lemma FinPayloadDroppedInFinWait(isn: nat, clientIsn: nat, b: Byte)
    ensures var fin := FinPacket(Wrap(clientIsn + 1), [b]);
      var s := Run(isn, [SynPacket(clientIsn), ReaderFin]);
      && s.state == FinWait1 && Step(s, fin).state == TimeWait && Step(s, fin).written == []
      && !AcknowledgesAll(s, fin)
  {
    OpenedThen(isn, clientIsn, ReaderFin);
    FinPayloadIsNotAcknowledged(Run(isn, [SynPacket(clientIsn), ReaderFin]), Wrap(clientIsn + 1), [b]);
  }

  function AckPacket(seqNum: nat): (e: Event) {
    Packet(ACK, seqNum, [], true, Written)
  }

  /** Once the client has acknowledged our FIN, its data, in order or not, is neither written nor acknowledged. */
  lemma DataIgnoredInFinWait(isn: nat, clientIsn: nat, b: Byte)
    ensures var next := Wrap(clientIsn + 1);
      var s := Run(isn, [SynPacket(clientIsn), ReaderFin, AckPacket(next)]);
      s.state == FinWait2 && s.clientSeq == next && Step(s, DataPacket(next, [b])) == s
  {
    var next := Wrap(clientIsn + 1);
    OpenedThen(isn, clientIsn, ReaderFin);
    RunOneMore(isn, [SynPacket(clientIsn), ReaderFin], AckPacket(next));
    assert [SynPacket(clientIsn), ReaderFin] + [AckPacket(next)]
        == [SynPacket(clientIsn), ReaderFin, AckPacket(next)];
  }
}
