/** The state diagram of the Android session and what becomes of its connection and of the client's octets. */
module AndroidStates {
  import opened AndroidSession
  import opened Bytes
  import opened TcpWire

  // ------------------------------------------------------- the state diagram

  /** The packet is the SYN that opens the session. */
  predicate Opens(s: Session, e: Event) {
    e.Packet? && s.state == Listen && e.flags.syn && !e.flags.ack
  }

  /** The packet brings data that is written upstream, in full or in part. */
  predicate Writes(s: Session, e: Event) {
    && e.Packet? && s.state == Established && s.hasOutput
    && !e.flags.rst && !e.flags.fin && e.payload != []
  }

  /** The packet's FIN is taken. */
  predicate TakesFin(s: Session, e: Event) {
    && e.Packet? && e.flags.fin
    && (s.state in {FinWait1, FinWait2} || (s.state == Established && !e.flags.rst))
  }

  /** All edges of the diagram: when an event takes the session from its state to another one. */
  predicate Edge(s: Session, e: Event, to: TcpState) {
    match e
    case Packet(f, _, _, connects, write) =>
      || (Opens(s, e) && to == (if connects then Established else Closed))
      || PacketEdge(s.state, to, f, s.upstreamConnected)
      || (Writes(s, e) && write.Broken? && to == Closed)
    case ReaderChunk(_) => false
    case ReaderFin => s.upstreamConnected && to == FinWait1
    case Close => to == Closed
  }

  lemma OpenPacketDiagram(s: Session, e: Event, to: TcpState)
    requires e.Packet? && to != s.state && s.state in {Listen, SynReceived, Established}
    ensures HandleOpen(s, e).state == to <==> Edge(s, e, to)
  {
  }

  lemma ClosingPacketDiagram(s: Session, e: Event, to: TcpState)
    requires e.Packet? && to != s.state && s.state !in {Listen, SynReceived, Established}
    ensures HandleClosing(s, e).state == to <==> Edge(s, e, to)
  {
  }

  /** The diagram is complete and exact: the session changes to another state if and only if there is an edge. */
  lemma StateDiagram(s: Session, e: Event, to: TcpState)
    requires to != s.state
    ensures Step(s, e).state == to <==> Edge(s, e, to)
  {
    if e.Packet? {
      if s.state in {Listen, SynReceived, Established} {
        OpenPacketDiagram(s, e, to);
      } else {
        ClosingPacketDiagram(s, e, to);
      }
    }
  }

  /**
   Exactly which packets close an open session, in every reachable state: RST or a broken write in ESTABLISHED, ACK or
   RST in LAST_ACK. A close by reset drops the connection, sends nothing and changes nothing else.
   */
  lemma PacketClosesExactly(isn: nat, events: seq<Event>, e: Event)
    requires e.Packet? && Run(isn, events).state !in {Listen, Closed}
    ensures var s := Run(isn, events);
      && (Step(s, e).state == Closed <==>
            || (s.state == Established && (e.flags.rst || (!e.flags.fin && e.payload != [] && e.write.Broken?)))
            || (s.state == LastAck && (e.flags.ack || e.flags.rst)))
      && (Resets(s.state, e.flags) ==> Step(s, e) == s.(state := Closed, hasOutput := false))
  {
    RunIsSound(isn, events);
    SoundPacketCloses(Run(isn, events), e);
  }

  lemma SoundPacketCloses(s: Session, e: Event)
    requires Sound(s) && e.Packet? && s.state !in {Listen, Closed}
    ensures Step(s, e).state == Closed <==>
            || (s.state == Established && (e.flags.rst || (!e.flags.fin && e.payload != [] && e.write.Broken?)))
            || (s.state == LastAck && (e.flags.ack || e.flags.rst))
    ensures Resets(s.state, e.flags) ==> Step(s, e) == s.(state := Closed, hasOutput := false)
  {
    StateDiagram(s, e, Closed);
  }

  // ------------------------------------------------- connection and writing

  /** What a packet hands to the upstream output: all of its payload, or what a broken write passes on. */
  function WrittenBy(s: Session, e: Event): (octets: seq<Byte>) {
    if !Writes(s, e) then []
    else
      match e.write
      case Written => e.payload
      case Broken(n) => if n <= |e.payload| then e.payload[..n] else e.payload
  }

  ghost predicate FieldsFollow(s: Session, e: Event, t: Session) {
    && t.ourIsn == s.ourIsn
    && (t.upstreamConnected <==> s.upstreamConnected || (Opens(s, e) && e.connects))
    && (t.hasOutput <==>
          || (Opens(s, e) && e.connects)
          || (s.hasOutput && !e.Close? && !(e.Packet? && Resets(s.state, e.flags))
              && !(Writes(s, e) && e.write.Broken?)))
    && (t.clientFin <==> s.clientFin || TakesFin(s, e))
    && t.clientIsn == (if Opens(s, e) then e.seqNum else s.clientIsn)
    && t.written == s.written + WrittenBy(s, e)
  }

  lemma OpenPacketFields(s: Session, e: Event)
    requires e.Packet? && s.state in {Listen, SynReceived, Established}
    ensures FieldsFollow(s, e, HandleOpen(s, e))
  {
  }

  lemma ClosingPacketFields(s: Session, e: Event)
    requires e.Packet? && s.state !in {Listen, SynReceived, Established}
    ensures FieldsFollow(s, e, HandleClosing(s, e))
  {
  }

  /** How each event changes the connection, the record of the client's SYN and FIN, and what has been written. */
  lemma ConnectionFollows(s: Session, e: Event)
    ensures FieldsFollow(s, e, Step(s, e))
  {
    if e.Packet? {
      if s.state in {Listen, SynReceived, Established} {
        OpenPacketFields(s, e);
      } else {
        ClosingPacketFields(s, e);
      }
    }
  }
}
