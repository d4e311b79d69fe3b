/** The state diagram of the iOS session and what becomes of its connection, its reader and its sends. */
module IosStates {
  import opened Bytes
  import opened IosSession
  import opened TcpWire

  /** The packet is the SYN that opens the session. */
  predicate Opens(s: Session, e: Event) {
    e.Packet? && s.state == Listen && e.flags.syn && !e.flags.ack
  }

  /** The pending SOCKS connect succeeds. */
  predicate Connects(s: Session, e: Event) {
    s.connecting && e == Connected(true)
  }

  /** A pending send completes or fails. */
  predicate Settles(s: Session, e: Event) {
    e.SendDone? && e.index < |s.pendingSends|
  }

  /** All edges of the diagram: when an event takes the session from its state to another one. */
  predicate Edge(s: Session, e: Event, to: TcpState) {
    match e
    case Packet(f, _, _) => (Opens(s, e) && to == SynReceived) || PacketEdge(s.state, to, f, s.upstreamConnected)
    case Connected(ok) => s.connecting && (if ok then s.state == SynReceived && to == Established else to == Closed)
    case SendDone(_, ok) => Settles(s, e) && !ok && to == Closed
    case UpstreamData(_) => false
    case UpstreamEOF => s.reading && s.state == Established && to == FinWait1
    case Close => to == Closed
  }

  lemma OpenPacketDiagram(s: Session, e: Event, to: TcpState)
    requires e.Packet? && to != s.state && s.state in {Listen, SynReceived, Established}
    ensures HandleOpen(s, e.flags, e.seqNum, e.payload).state == to <==> Edge(s, e, to)
  {
  }

  lemma ClosingPacketDiagram(s: Session, e: Event, to: TcpState)
    requires e.Packet? && to != s.state && s.state !in {Listen, SynReceived, Established}
    ensures HandleClosing(s, e.flags, e.seqNum).state == to <==> Edge(s, e, to)
  {
  }

  lemma PacketDiagram(s: Session, e: Event, to: TcpState)
    requires e.Packet? && to != s.state
    ensures Step(s, e).state == to <==> Edge(s, e, to)
  {
    if s.state in {Listen, SynReceived, Established} {
      OpenPacketDiagram(s, e, to);
    } else {
      ClosingPacketDiagram(s, e, to);
    }
  }

  /** The diagram is complete and exact: the session changes to another state if and only if there is an edge. */
  lemma StateDiagram(s: Session, e: Event, to: TcpState)
    requires to != s.state
    ensures Step(s, e).state == to <==> Edge(s, e, to)
  {
    if e.Packet? {
      PacketDiagram(s, e, to);
    }
  }

  /**
   Exactly which packets close a session, in every reachable state: RST in ESTABLISHED, ACK or RST in LAST_ACK, and in
   SYN_RECEIVED a RST that is not an ACK without SYN. A close by reset drops the connection; neither kind of close
   sends a segment or changes anything else.
   */
  lemma PacketClosesExactly(isn: nat, events: seq<Event>, e: Event)
    requires e.Packet? && Run(isn, events).state != Closed
    ensures var s := Run(isn, events);
      && (Step(s, e).state == Closed <==>
            || (s.state == Established && e.flags.rst)
            || (s.state == LastAck && (e.flags.ack || e.flags.rst))
            || (s.state == SynReceived && e.flags.rst && !(e.flags.ack && !e.flags.syn)))
      && (Step(s, e).state == Closed ==>
            Step(s, e) == if Resets(s.state, e.flags) then s.(state := Closed, hasConnection := false)
                          else s.(state := Closed))
  {
    RunIsSound(isn, events);
    ReachablePacketCloses(Run(isn, events), e);
  }

  lemma ReachablePacketCloses(s: Session, e: Event)
    requires e.Packet? && s.state !in {Closed, CloseWait}
    ensures Step(s, e).state == Closed <==>
            || (s.state == Established && e.flags.rst)
            || (s.state == LastAck && (e.flags.ack || e.flags.rst))
            || (s.state == SynReceived && e.flags.rst && !(e.flags.ack && !e.flags.syn))
    ensures Step(s, e).state == Closed ==>
              Step(s, e) == if Resets(s.state, e.flags) then s.(state := Closed, hasConnection := false)
                            else s.(state := Closed)
  {
    PacketDiagram(s, e, Closed);
  }

  // -------------------------------------------- connection, reader and sends

  /** The event drops the upstream connection: a reset, a failed send or `close`. */
  predicate Drops(s: Session, e: Event) {
    || (e.Packet? && Resets(s.state, e.flags))
    || (Settles(s, e) && !e.ok)
    || e.Close?
  }

  ghost predicate ConnectionKept(s: Session, e: Event, t: Session) {
    && (t.connecting <==> s.connecting || Opens(s, e))
    && t.upstreamConnected == s.upstreamConnected && t.reading == s.reading
    && (t.hasConnection <==> s.hasConnection && !Drops(s, e))
  }

  lemma OpenPacketConnection(s: Session, e: Event)
    requires e.Packet? && s.state in {Listen, SynReceived, Established}
    ensures ConnectionKept(s, e, HandleOpen(s, e.flags, e.seqNum, e.payload))
  {
  }

  lemma ClosingPacketConnection(s: Session, e: Event)
    requires e.Packet? && s.state !in {Listen, SynReceived, Established}
    ensures ConnectionKept(s, e, HandleClosing(s, e.flags, e.seqNum))
  {
  }

  lemma PacketConnection(s: Session, e: Event)
    requires e.Packet?
    ensures ConnectionKept(s, e, Step(s, e))
  {
    if s.state in {Listen, SynReceived, Established} {
      OpenPacketConnection(s, e);
    } else {
      ClosingPacketConnection(s, e);
    }
  }

  /**
   The connect is pending from the opening SYN until it returns; the session counts as connected from then on; the
   reader runs until it has seen the end of the upstream; the connection lasts until it is dropped.
   */
  lemma ConnectionFollows(s: Session, e: Event)
    ensures var t := Step(s, e);
      && (t.connecting <==> Opens(s, e) || (s.connecting && !e.Connected?))
      && (t.upstreamConnected <==> s.upstreamConnected || Connects(s, e))
      && (t.reading <==> Connects(s, e) || (s.reading && !e.UpstreamEOF?))
      && (t.hasConnection <==> Connects(s, e) || (s.hasConnection && !Drops(s, e)))
  {
    if e.Packet? {
      PacketConnection(s, e);
    }
  }

  /** A data packet whose payload is handed to the upstream connection. */
  predicate Submits(s: Session, e: Event) {
    && e.Packet? && s.state == Established && s.hasConnection
    && !e.flags.rst && !e.flags.fin && e.payload != []
  }

  function Without<A>(s: seq<A>, i: nat): (t: seq<A>)
    requires i < |s|
    ensures multiset(s) == multiset(t) + multiset{s[i]}
  {
    assert s == s[..i] + [s[i]] + s[i + 1..];
    s[..i] + s[i + 1..]
  }

  lemma PacketSends(s: Session, e: Event)
    requires e.Packet?
    ensures Step(s, e).pendingSends == if Submits(s, e) then s.pendingSends + [e.payload] else s.pendingSends
  {
  }

  lemma SendsFollow(s: Session, e: Event)
    ensures Step(s, e).pendingSends
         == if Submits(s, e) then s.pendingSends + [e.payload]
            else if Settles(s, e) then Without(s.pendingSends, e.index)
            else s.pendingSends
  {
    if e.Packet? {
      PacketSends(s, e);
    }
  }

  /** The payloads a run hands to the upstream connection. */
  ghost function Submitted(isn: nat, events: seq<Event>): (m: multiset<seq<Byte>>) {
    if events == [] then multiset{}
    else
      var front, last := events[..|events| - 1], events[|events| - 1];
      Submitted(isn, front) + (if Submits(Run(isn, front), last) then multiset{last.payload} else multiset{})
  }

  /** The payloads whose send a run sees completed or failed. */
  ghost function Settled(isn: nat, events: seq<Event>): (m: multiset<seq<Byte>>) {
    if events == [] then multiset{}
    else
      var front, last := events[..|events| - 1], events[|events| - 1];
      var s := Run(isn, front);
      Settled(isn, front) + (if Settles(s, last) then multiset{s.pendingSends[last.index]} else multiset{})
  }

  /**
   Conservation of the client's data over every interleaving: the payloads of the data packets taken are exactly those
   whose send has been settled and those still pending, each as often as it was taken.
   */
  lemma {:induction false} SendsAreConserved(isn: nat, events: seq<Event>)
    ensures multiset(Run(isn, events).pendingSends) + Settled(isn, events) == Submitted(isn, events)
  {
    if events != [] {
      var front, last := events[..|events| - 1], events[|events| - 1];
      SendsAreConserved(isn, front);
      SendsFollow(Run(isn, front), last);
    }
  }
}
