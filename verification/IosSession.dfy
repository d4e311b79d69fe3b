/**
 The iOS session actor as atomic steps. A handler runs without interruption up to its next suspension; the
 suspensions are the SOCKS connect, each upstream send and each upstream receive.
 */
module IosSession {
  import opened Bytes
  import opened TcpWire

  /** The actor's fields, the work it has suspended, and the segments it has written to the tunnel. */
  datatype Session = Session(
    state: TcpState, ourIsn: nat, clientSeq: nat, ourSeq: nat,
    upstreamConnected: bool, hasConnection: bool,
    connecting: bool, pendingSends: seq<seq<Byte>>, reading: bool,
    sent: seq<Segment>)

  datatype Event =
    | Packet(flags: Flags, seqNum: nat, payload: seq<Byte>)
    | Connected(ok: bool)
    | SendDone(index: nat, ok: bool)
    | UpstreamData(data: seq<Byte>)
    | UpstreamEOF
    | Close

  function Init(isn: nat): (s: Session) {
    Session(Listen, isn, 0, Wrap(isn + 1), false, false, false, [], false, [])
  }

  function Send(s: Session, flags: Flags, seqNum: nat, payload: seq<Byte>): (s': Session) {
    s.(sent := s.sent + [Segment(flags, seqNum, s.clientSeq, payload)])
  }

  function Closing(s: Session): (s': Session) {
    s.(hasConnection := false, state := Closed)
  }

  function HandleSyn(s: Session, seqNum: nat): (s': Session) {
    var acked := s.(clientSeq := Wrap(seqNum + 1));
    Send(acked, SYN_ACK, s.ourIsn, []).(state := SynReceived, connecting := true)
  }

  function HandleFin(s: Session, seqNum: nat): (s': Session) {
    var acked := Send(s.(clientSeq := Wrap(seqNum + 1)), ACK, s.ourSeq, []);
    Send(acked, FIN_ACK, s.ourSeq, []).(ourSeq := Wrap(s.ourSeq + 1), state := LastAck)
  }

  function HandleEstablishedData(s: Session, payload: seq<Byte>): (s': Session) {
    if s.hasConnection then s.(pendingSends := s.pendingSends + [payload]) else s
  }

  function AckClientFin(s: Session, seqNum: nat): (s': Session) {
    Send(s.(clientSeq := Wrap(seqNum + 1)), ACK, s.ourSeq, []).(state := TimeWait)
  }

  /** A packet for a session that has not begun to close. */
  function HandleOpen(s: Session, f: Flags, seqNum: nat, payload: seq<Byte>): (s': Session)
    requires s.state in {Listen, SynReceived, Established}
  {
    match s.state
    case Listen => if f.syn && !f.ack then HandleSyn(s, seqNum) else s
    case SynReceived =>
      if f.ack && !f.syn then (if s.upstreamConnected then s.(state := Established) else s)
      else if f.rst then Closing(s)
      else s
    case Established =>
      if f.rst then Closing(s)
      else if f.fin then HandleFin(s, seqNum)
      else if payload != [] then HandleEstablishedData(s, payload)
      else s
  }

  /** A packet for a session that is closing or closed. */
  function HandleClosing(s: Session, f: Flags, seqNum: nat): (s': Session)
    requires s.state !in {Listen, SynReceived, Established}
  {
    match s.state
    case CloseWait => if f.rst then Closing(s) else s
    case LastAck => if f.ack then s.(state := Closed) else if f.rst then Closing(s) else s
    case FinWait1 =>
      if f.fin then AckClientFin(s, seqNum)
      else if f.ack then s.(state := FinWait2)
      else s
    case FinWait2 => if f.fin then AckClientFin(s, seqNum) else s
    case TimeWait => s
    case Closed => s
  }

  function HandlePacket(s: Session, f: Flags, seqNum: nat, payload: seq<Byte>): (s': Session) {
    if s.state in {Listen, SynReceived, Established} then HandleOpen(s, f, seqNum, payload)
    else HandleClosing(s, f, seqNum)
  }

  function Step(s: Session, e: Event): (s': Session) {
    match e
    case Packet(f, n, payload) => HandlePacket(s, f, n, payload)
    case Connected(ok) =>
      if !s.connecting then s
      else if ok then
        s.(connecting := false, hasConnection := true, upstreamConnected := true, reading := true,
           state := if s.state == SynReceived then Established else s.state)
      else
        Send(s.(connecting := false), RST_ACK, s.ourSeq, []).(state := Closed)
    case SendDone(i, ok) =>
      if i >= |s.pendingSends| then s
      else
        var done := s.(pendingSends := s.pendingSends[..i] + s.pendingSends[i + 1..]);
        if !ok then Closing(done)
        else
          var acked := done.(clientSeq := Wrap(s.clientSeq + |s.pendingSends[i]|));
          Send(acked, ACK, s.ourSeq, [])
    case UpstreamData(data) =>
      if !s.reading then s
      else Send(s, PSH_ACK, s.ourSeq, data).(ourSeq := Wrap(s.ourSeq + |data|))
    case UpstreamEOF =>
      if !s.reading then s
      else if s.state == Established then
        Send(s, FIN_ACK, s.ourSeq, []).(reading := false, ourSeq := Wrap(s.ourSeq + 1), state := FinWait1)
      else s.(reading := false)
    case Close => Closing(s)
  }

  function Run(isn: nat, events: seq<Event>): (s: Session) {
    if events == [] then Init(isn) else Step(Run(isn, events[..|events| - 1]), events[|events| - 1])
  }

  // ------------------------------------------------------------ the actor

  class TcpSession {
    var state: TcpState
    const ourIsn: nat
    var clientSeq: nat
    var ourSeq: nat
    var upstreamConnected: bool
    var hasConnection: bool
    var connecting: bool
    var pendingSends: seq<seq<Byte>>
    var reading: bool
    var sent: seq<Segment>

    function View(): (s: Session)
      reads this
    {
      Session(state, ourIsn, clientSeq, ourSeq, upstreamConnected, hasConnection, connecting, pendingSends, reading,
              sent)
    }

    constructor (isn: nat)
      ensures View() == Init(isn)
    {
      state, ourIsn, clientSeq, ourSeq := Listen, isn, 0, Wrap(isn + 1);
      upstreamConnected, hasConnection, connecting, pendingSends, reading, sent := false, false, false, [], false, [];
    }

    method SendTcpToTun(flags: Flags, seqNum: nat, payload: seq<Byte>)
      modifies this`sent
      ensures sent == old(sent) + [Segment(flags, seqNum, clientSeq, payload)]
    {
      sent := sent + [Segment(flags, seqNum, clientSeq, payload)];
    }

    method DoClose()
      modifies this
      ensures View() == Step(old(View()), Close)
    {
      hasConnection := false;
      state := Closed;
    }

    method OnSyn(seqNum: nat)
      modifies this
      ensures View() == HandleSyn(old(View()), seqNum)
    {
      clientSeq := Wrap(seqNum + 1);
      SendTcpToTun(SYN_ACK, ourIsn, []);
      state := SynReceived;
      connecting := true;
    }

    method OnFin(seqNum: nat)
      modifies this
      ensures View() == HandleFin(old(View()), seqNum)
    {
      clientSeq := Wrap(seqNum + 1);
      SendTcpToTun(ACK, ourSeq, []);
      state := CloseWait;
      SendTcpToTun(FIN_ACK, ourSeq, []);
      ourSeq := Wrap(ourSeq + 1);
      state := LastAck;
    }

    method OnOpenPacket(f: Flags, seqNum: nat, payload: seq<Byte>)
      requires state in {Listen, SynReceived, Established}
      modifies this
      ensures View() == HandleOpen(old(View()), f, seqNum, payload)
    {
      match state {
        case Listen =>
          if f.syn && !f.ack {
            OnSyn(seqNum);
          }
        case SynReceived =>
          if f.ack && !f.syn {
            if upstreamConnected {
              state := Established;
            }
          } else if f.rst {
            DoClose();
          }
        case Established =>
          if f.rst {
            DoClose();
          } else if f.fin {
            OnFin(seqNum);
          } else if |payload| > 0 {
            if hasConnection {
              pendingSends := pendingSends + [payload];
            }
          }
      }
    }

    method AckFin(seqNum: nat)
      modifies this
      ensures View() == AckClientFin(old(View()), seqNum)
    {
      clientSeq := Wrap(seqNum + 1);
      SendTcpToTun(ACK, ourSeq, []);
      state := TimeWait;
    }

    method OnClosingPacket(f: Flags, seqNum: nat)
      requires state !in {Listen, SynReceived, Established}
      modifies this
      ensures View() == HandleClosing(old(View()), f, seqNum)
    {
      match state {
        case CloseWait =>
          if f.rst {
            DoClose();
          }
        case LastAck =>
          if f.ack {
            state := Closed;
          } else if f.rst {
            DoClose();
          }
        case FinWait1 =>
          if f.fin && f.ack {
            AckFin(seqNum);
          } else if f.ack {
            state := FinWait2;
          } else if f.fin {
            AckFin(seqNum);
          }
        case FinWait2 =>
          if f.fin {
            AckFin(seqNum);
          }
        case TimeWait =>
        case Closed =>
      }
    }

    method OnPacket(f: Flags, seqNum: nat, payload: seq<Byte>)
      modifies this
      ensures View() == Step(old(View()), Packet(f, seqNum, payload))
    {
      if state in {Listen, SynReceived, Established} {
        OnOpenPacket(f, seqNum, payload);
      } else {
        OnClosingPacket(f, seqNum);
      }
    }

    /** The rest of `connectUpstream` once the SOCKS client has returned or thrown. */
    method OnConnectReturned(ok: bool)
      requires connecting
      modifies this
      ensures View() == Step(old(View()), Connected(ok))
    {
      connecting := false;
      if ok {
        hasConnection := true;
        upstreamConnected := true;
        if state == SynReceived {
          state := Established;
        }
        reading := true;
      } else {
        SendTcpToTun(RST_ACK, ourSeq, []);
        state := Closed;
      }
    }

    /** The rest of `handleEstablishedData` once a suspended send has completed or failed. */
    method OnSendReturned(i: nat, ok: bool)
      requires i < |pendingSends|
      modifies this
      ensures View() == Step(old(View()), SendDone(i, ok))
    {
      var payload := pendingSends[i];
      pendingSends := pendingSends[..i] + pendingSends[i + 1..];
      if !ok {
        DoClose();
      } else {
        clientSeq := Wrap(clientSeq + |payload|);
        SendTcpToTun(ACK, ourSeq, []);
      }
    }

    method HandleUpstreamData(data: seq<Byte>)
      requires reading
      modifies this
      ensures View() == Step(old(View()), UpstreamData(data))
    {
      SendTcpToTun(PSH_ACK, ourSeq, data);
      ourSeq := Wrap(ourSeq + |data|);
    }

    method HandleUpstreamEOF()
      requires reading
      modifies this
      ensures View() == Step(old(View()), UpstreamEOF)
    {
      reading := false;
      if state == Established {
        SendTcpToTun(FIN_ACK, ourSeq, []);
        ourSeq := Wrap(ourSeq + 1);
        state := FinWait1;
      }
    }
  }

  // ----------------------------------------- every interleaving of the steps

  function Rank(t: TcpState): (r: nat) {
    match t
    case Listen => 0
    case SynReceived => 1
    case Established => 2
    case CloseWait => 3
    case FinWait1 => 3
    case LastAck => 4
    case FinWait2 => 4
    case TimeWait => 5
    case Closed => 6
  }

  /** The sequence number owed to the next octet, given the segments already sent. */
  function NextSeq(isn: nat, sent: seq<Segment>): (n: nat) {
    Wrap(isn + 1 + Occupied(sent))
  }

  /** `x` starts where the segments `before` it end; a SYN takes the initial number itself. */
  predicate Placed(isn: nat, before: seq<Segment>, x: Segment) {
    x.seqNum == if x.flags.syn then isn else NextSeq(isn, before)
  }

  predicate Contiguous(isn: nat, sent: seq<Segment>) {
    sent == []
    || (Contiguous(isn, sent[..|sent| - 1]) && Placed(isn, sent[..|sent| - 1], sent[|sent| - 1]))
  }

  /** In a contiguous sequence every segment starts where those before it end. */
  lemma {:induction false} ContiguousAt(isn: nat, sent: seq<Segment>, k: nat)
    requires Contiguous(isn, sent) && k < |sent|
    ensures Placed(isn, sent[..k], sent[k])
  {
    if k < |sent| - 1 {
      ContiguousAt(isn, sent[..|sent| - 1], k);
      assert sent[..|sent| - 1][..k] == sent[..k];
    }
  }

  /** The segments sent so far: contiguous, led by the one SYN+ACK, and followed by `ourSeq`. */
  ghost predicate SoundStream(isn: nat, sent: seq<Segment>, ourSeq: nat) {
    && Contiguous(isn, sent)
    && ourSeq == NextSeq(isn, sent)
    && Syns(sent) == (if sent == [] then 0 else 1)
    && (sent != [] ==> sent[0].flags == SYN_ACK)
  }

  // What a step emits, and what that does to the stream

  /** An emitted segment that occupies nothing. */
  ghost predicate Bare(s: Session, x: Segment) {
    x.seqNum == s.ourSeq && !x.flags.syn && !x.flags.fin && x.payload == []
  }

  ghost predicate OurFin(s: Session, x: Segment) {
    x.seqNum == s.ourSeq && x.flags == FIN_ACK && x.payload == []
  }

  datatype Emission = Silent | Opening | Control | Chunk | Fin | AckAndFin

  /** A step from `s` to `t` appends `added` to the segments sent, in one of six ways. */
  ghost predicate Emits(s: Session, t: Session, how: Emission, added: seq<Segment>) {
    && t.ourIsn == s.ourIsn && t.sent == s.sent + added
    && match how
       case Silent => added == [] && t.ourSeq == s.ourSeq
       case Opening =>
         && s.state == Listen && t.state == SynReceived && t.ourSeq == s.ourSeq
         && |added| == 1 && added[0].flags == SYN_ACK && added[0].seqNum == s.ourIsn && added[0].payload == []
       case Control => |added| == 1 && Bare(s, added[0]) && t.ourSeq == s.ourSeq
       case Chunk =>
         && |added| == 1 && added[0].seqNum == s.ourSeq && added[0].flags == PSH_ACK
         && t.ourSeq == Wrap(s.ourSeq + |added[0].payload|)
       case Fin =>
         |added| == 1 && OurFin(s, added[0]) && t.ourSeq == Wrap(s.ourSeq + 1)
       case AckAndFin =>
         |added| == 2 && Bare(s, added[0]) && OurFin(s, added[1]) && t.ourSeq == Wrap(s.ourSeq + 1)
  }

  function Way(s: Session, e: Event): (how: Emission) {
    match e
    case Packet(f, _, payload) =>
      if s.state == Listen && f.syn && !f.ack then Opening
      else if s.state == Established && !f.rst && f.fin then AckAndFin
      else if s.state in {FinWait1, FinWait2} && f.fin then Control
      else Silent
    case Connected(ok) => if s.connecting && !ok then Control else Silent
    case SendDone(i, ok) => if i < |s.pendingSends| && ok then Control else Silent
    case UpstreamData(_) => if s.reading then Chunk else Silent
    case UpstreamEOF => if s.reading && s.state == Established then Fin else Silent
    case Close => Silent
  }

  function Added(s: Session, e: Event): (added: seq<Segment>) {
    match Way(s, e)
    case Silent => []
    case Opening => [Segment(SYN_ACK, s.ourIsn, Wrap(e.seqNum + 1), [])]
    case Control =>
      (match e
       case Packet(_, n, _) => [Segment(ACK, s.ourSeq, Wrap(n + 1), [])]
       case Connected(_) => [Segment(RST_ACK, s.ourSeq, s.clientSeq, [])]
       case SendDone(i, _) => [Segment(ACK, s.ourSeq, Wrap(s.clientSeq + |s.pendingSends[i]|), [])]
       case _ => [])
    case Chunk => [Segment(PSH_ACK, s.ourSeq, s.clientSeq, e.data)]
    case Fin => [Segment(FIN_ACK, s.ourSeq, s.clientSeq, [])]
    case AckAndFin =>
      [Segment(ACK, s.ourSeq, Wrap(e.seqNum + 1), []), Segment(FIN_ACK, s.ourSeq, Wrap(e.seqNum + 1), [])]
  }

  lemma PacketEmits(s: Session, e: Event)
    requires e.Packet?
    ensures Emits(s, Step(s, e), Way(s, e), Added(s, e))
  {
    if Way(s, e) == AckAndFin {
      var added := Added(s, e);
      assert s.sent + [added[0]] + [added[1]] == s.sent + added;
    }
  }

  lemma StepEmits(s: Session, e: Event)
    ensures Emits(s, Step(s, e), Way(s, e), Added(s, e))
  {
    if e.Packet? {
      PacketEmits(s, e);
    }
  }

  lemma ContiguousGrows(isn: nat, sent: seq<Segment>, s: Segment)
    requires Contiguous(isn, sent) && Placed(isn, sent, s)
    ensures Contiguous(isn, sent + [s])
  {
    assert (sent + [s])[..|sent|] == sent;
  }

  /** Sending a segment at the current sequence number and advancing by what it occupies keeps the stream sound. */
  lemma SendKeepsSound(isn: nat, sent: seq<Segment>, ourSeq: nat, s: Segment)
    requires SoundStream(isn, sent, ourSeq) && sent != [] && s.seqNum == ourSeq && !s.flags.syn
    ensures SoundStream(isn, sent + [s], Wrap(ourSeq + Occupies(s)))
  {
    ContiguousGrows(isn, sent, s);
    SentOneMore(sent, s);
    WrapAdd(isn + 1 + Occupied(sent), Occupies(s));
  }

  lemma WrapTwice(n: nat)
    ensures Wrap(Wrap(n) + 0) == Wrap(n)
  {
    WrapAdd(n, 0);
  }

  lemma OpeningKeepsSound(isn: nat, ourSeq: nat, syn: Segment)
    requires SoundStream(isn, [], ourSeq)
    requires syn.flags == SYN_ACK && syn.seqNum == isn && syn.payload == []
    ensures SoundStream(isn, [syn], ourSeq)
  {
    ContiguousGrows(isn, [], syn);
    SentOneMore([], syn);
    assert [] + [syn] == [syn];
  }

  /** Whatever a step emits keeps the stream of segments sound. */
  lemma EmissionKeepsSound(s: Session, t: Session, how: Emission, added: seq<Segment>)
    requires SoundStream(s.ourIsn, s.sent, s.ourSeq) && Emits(s, t, how, added)
    requires if how == Opening then s.sent == [] else how != Silent ==> s.sent != []
    ensures SoundStream(t.ourIsn, t.sent, t.ourSeq)
  {
    WrapTwice(s.ourIsn + 1 + Occupied(s.sent));
    match how {
      case Silent => assert t.sent == s.sent;
      case Opening =>
        OpeningKeepsSound(s.ourIsn, s.ourSeq, added[0]);
        assert t.sent == [added[0]];
      case AckAndFin =>
        SendKeepsSound(s.ourIsn, s.sent, s.ourSeq, added[0]);
        SendKeepsSound(s.ourIsn, s.sent + [added[0]], s.ourSeq, added[1]);
        assert t.sent == s.sent + [added[0]] + [added[1]];
      case _ =>
        SendKeepsSound(s.ourIsn, s.sent, s.ourSeq, added[0]);
        assert added == [added[0]];
    }
  }

  /** What an emission adds to the octet stream and to the FINs. */
  lemma EmissionCounts(s: Session, t: Session, how: Emission, added: seq<Segment>)
    requires Emits(s, t, how, added)
    ensures Stream(t.sent) == Stream(s.sent) + (if how == Chunk then added[0].payload else [])
    ensures Fins(t.sent) == Fins(s.sent) + (if how in {Fin, AckAndFin} then 1 else 0)
  {
    match how {
      case Silent => assert t.sent == s.sent;
      case AckAndFin =>
        SentOneMore(s.sent, added[0]);
        SentOneMore(s.sent + [added[0]], added[1]);
        assert t.sent == s.sent + [added[0]] + [added[1]];
      case _ =>
        SentOneMore(s.sent, added[0]);
        assert added == [added[0]];
    }
  }

  // The control state

  /** What the state says about the work in progress. */
  ghost predicate SoundControl(s: Session) {
    && (s.sent == [] ==>
          s.state in {Listen, Closed} && !s.connecting && !s.upstreamConnected && !s.reading && s.pendingSends == [])
    && (s.state == Listen ==> s.sent == [])
    && (s.state == Established ==> s.upstreamConnected)
    && (s.connecting ==> s.state in {SynReceived, Closed} && !s.upstreamConnected)
    && s.state != CloseWait
  }

  ghost predicate ControlStep(s: Session, e: Event) {
    var t := Step(s, e);
    && SoundControl(t)
    && (t.state == s.state || Rank(s.state) < Rank(t.state))
    && (Way(s, e) == Opening ==> s.sent == [])
    && (Way(s, e) !in {Opening, Silent} ==> s.sent != [])
  }

  lemma OpenPacketKeepsControl(s: Session, e: Event)
    requires SoundControl(s) && e.Packet? && s.state in {Listen, SynReceived, Established}
    ensures ControlStep(s, e)
  {
  }

  lemma ClosingPacketKeepsControl(s: Session, e: Event)
    requires SoundControl(s) && e.Packet? && s.state !in {Listen, SynReceived, Established}
    ensures ControlStep(s, e)
  {
  }

  lemma ControlIsKept(s: Session, e: Event)
    requires SoundControl(s)
    ensures ControlStep(s, e)
  {
    if e.Packet? {
      if s.state in {Listen, SynReceived, Established} {
        OpenPacketKeepsControl(s, e);
      } else {
        ClosingPacketKeepsControl(s, e);
      }
    }
  }

  /** Our FIN is out in exactly the states behind it, as long as the session is not closed. */
  ghost predicate FinMatchesState(s: Session) {
    && Fins(s.sent) <= 1
    && (s.state != Closed ==> (Fins(s.sent) == 1 <==> s.state in {LastAck, FinWait1, FinWait2, TimeWait}))
  }

  lemma FinFollowsState(s: Session, e: Event)
    requires SoundControl(s)
    ensures var t, how := Step(s, e), Way(s, e);
      if how in {Fin, AckAndFin} then
        s.state == Established && t.state in {LastAck, FinWait1}
      else
        t.state == Closed
        || (t.state in {LastAck, FinWait1, FinWait2, TimeWait} <==> s.state in {LastAck, FinWait1, FinWait2, TimeWait})
    ensures s.state == Closed ==> Step(s, e).state == Closed
  {
  }

  /** What all reachable states satisfy. */
  ghost predicate Sound(s: Session) {
    SoundStream(s.ourIsn, s.sent, s.ourSeq) && SoundControl(s) && FinMatchesState(s)
  }

  lemma StepKeepsSound(s: Session, e: Event)
    requires Sound(s)
    ensures Sound(Step(s, e)) && Step(s, e).ourIsn == s.ourIsn
  {
    var t, how, added := Step(s, e), Way(s, e), Added(s, e);
    StepEmits(s, e);
    ControlIsKept(s, e);
    FinFollowsState(s, e);
    EmissionKeepsSound(s, t, how, added);
    EmissionCounts(s, t, how, added);
  }

  /** Sequence numbers, single SYN and FIN, and the control state over every interleaving of steps. */
  lemma {:induction false} RunIsSound(isn: nat, events: seq<Event>)
    ensures Sound(Run(isn, events)) && Run(isn, events).ourIsn == isn
  {
    if events == [] {
      InitIsSound(isn);
    } else {
      RunIsSound(isn, events[..|events| - 1]);
      StepKeepsSound(Run(isn, events[..|events| - 1]), events[|events| - 1]);
    }
  }

  lemma InitIsSound(isn: nat)
    ensures Sound(Init(isn))
  {
  }

  /** The upstream octets relayed in a run: those of the data events that found the reader running. */
  function Relayed(isn: nat, events: seq<Event>): (s: seq<Byte>) {
    if events == [] then []
    else
      var front, last := events[..|events| - 1], events[|events| - 1];
      Relayed(isn, front) + (if last.UpstreamData? && Run(isn, front).reading then last.data else [])
  }

  /** The client is sent exactly the upstream octets, in order, over every interleaving. */
  lemma {:induction false} StreamIsRelayed(isn: nat, events: seq<Event>)
    ensures Stream(Run(isn, events).sent) == Relayed(isn, events)
  {
    if events != [] {
      var front, last := events[..|events| - 1], events[|events| - 1];
      var s := Run(isn, front);
      StreamIsRelayed(isn, front);
      StepEmits(s, last);
      EmissionCounts(s, Step(s, last), Way(s, last), Added(s, last));
      ChunkWay(s, last);
    }
  }

  lemma ChunkWay(s: Session, e: Event)
    ensures Way(s, e) == Chunk <==> e.UpstreamData? && s.reading
    ensures Way(s, e) == Chunk ==> Added(s, e)[0].payload == e.data
  {
  }

  /**
   The downstream sequence space over every interleaving: the next octet is numbered by our initial number plus one,
   plus the octets already relayed, plus one if our FIN is out; SYN+ACK and FIN are each sent at most once.
   */
  lemma SequenceSpace(isn: nat, events: seq<Event>)
    ensures Numbered(Run(isn, events), isn, Relayed(isn, events))
  {
    RunIsSound(isn, events);
    StreamIsRelayed(isn, events);
    NextNumber(Run(isn, events), isn, Relayed(isn, events));
  }

  ghost predicate Numbered(s: Session, isn: nat, stream: seq<Byte>) {
    && s.ourSeq == Wrap(isn + 1 + |stream| + Fins(s.sent))
    && Fins(s.sent) <= 1 && Syns(s.sent) <= 1
  }

  lemma NextNumber(s: Session, isn: nat, stream: seq<Byte>)
    requires Sound(s) && s.ourIsn == isn && Stream(s.sent) == stream
    ensures Numbered(s, isn, stream)
  {
    OccupiedIsStreamAndFins(s.sent);
    assert isn + 1 + Occupied(s.sent) == isn + 1 + |stream| + Fins(s.sent);
  }

  /** Each relayed chunk is sent at that number, so chunks leave no gap and never overlap. */
  lemma ChunkSequenceNumber(isn: nat, events: seq<Event>, data: seq<Byte>)
    requires Run(isn, events).reading
    ensures ChunkFollows(Run(isn, events), isn, Relayed(isn, events), data)
  {
    SequenceSpace(isn, events);
    NumberedChunk(Run(isn, events), isn, Relayed(isn, events), data);
  }

  ghost predicate ChunkFollows(s: Session, isn: nat, relayed: seq<Byte>, data: seq<Byte>) {
    Step(s, UpstreamData(data)).sent
    == s.sent + [Segment(PSH_ACK, Wrap(isn + 1 + |relayed| + Fins(s.sent)), s.clientSeq, data)]
  }

  lemma NumberedChunk(s: Session, isn: nat, relayed: seq<Byte>, data: seq<Byte>)
    requires Numbered(s, isn, relayed) && s.reading
    ensures ChunkFollows(s, isn, relayed, data)
  {
  }

  /** A step either keeps the state or strictly raises its rank; in particular nothing leaves Closed. */
  lemma StateOnlyAdvances(isn: nat, events: seq<Event>, e: Event)
    ensures var s := Run(isn, events);
      && (Step(s, e).state == s.state || Rank(s.state) < Rank(Step(s, e).state))
      && (s.state == Closed ==> Step(s, e).state == Closed)
  {
    RunIsSound(isn, events);
    ControlIsKept(Run(isn, events), e);
    FinFollowsState(Run(isn, events), e);
  }

  // ------------------------------------------------- data behind our own FIN

  /** Now or earlier in the run the session has begun to close: a FIN of either side found it established. */
  predicate ClosingBegan(isn: nat, events: seq<Event>) {
    || Run(isn, events).state in {LastAck, FinWait1}
    || (events != [] && ClosingBegan(isn, events[..|events| - 1]))
  }

  /** A step sends our FIN exactly when it takes the session into a state behind it. */
  lemma FinOpensClosing(s: Session, e: Event)
    requires Sound(s)
    ensures var t := Step(s, e);
      Fins(t.sent) == 1 <==> Fins(s.sent) == 1 || t.state in {LastAck, FinWait1}
  {
    StepKeepsSound(s, e);
    StepEmits(s, e);
    FinFollowsState(s, e);
    EmissionCounts(s, Step(s, e), Way(s, e), Added(s, e));
  }

  /** Our FIN is out if and only if the session has begun to close at some point, whatever has become of it since. */
  lemma {:induction false} FinIsOutOnceClosing(isn: nat, events: seq<Event>)
    ensures Fins(Run(isn, events).sent) == if ClosingBegan(isn, events) then 1 else 0
  {
    RunIsSound(isn, events);
    if events != [] {
      var front := events[..|events| - 1];
      FinIsOutOnceClosing(isn, front);
      RunIsSound(isn, front);
      FinOpensClosing(Run(isn, front), events[|events| - 1]);
    }
  }

  lemma {:induction false} FinAmong(sent: seq<Segment>)
    ensures Fins(sent) > 0 <==> exists x | x in sent :: x.flags.fin
  {
    if sent != [] {
      var n := |sent| - 1;
      FinAmong(sent[..n]);
      SentOneMore(sent[..n], sent[n]);
      assert sent == sent[..n] + [sent[n]];
    }
  }

  /**
   In state `s` the chunk `data` is sent behind all segments sent so far, with the next number behind the `relayed`
   octets; and it is sent behind our FIN, which takes up a number of its own, exactly if `closing`.
   */
  ghost predicate ChunkPlaced(s: Session, isn: nat, relayed: seq<Byte>, data: seq<Byte>, closing: bool) {
    var n := Wrap(isn + 1 + |relayed| + (if closing then 1 else 0));
    && Step(s, UpstreamData(data)).sent == s.sent + [Segment(PSH_ACK, n, s.clientSeq, data)]
    && ((exists x | x in s.sent :: x.flags.fin) <==> closing)
  }

  /**
   Exactly when a chunk goes out behind our own FIN: whenever the session has begun to close before the chunk
   arrives, be it closing still or closed.
   */
  lemma ChunkFollowsFin(isn: nat, events: seq<Event>, data: seq<Byte>)
    requires Run(isn, events).reading
    ensures ChunkPlaced(Run(isn, events), isn, Relayed(isn, events), data, ClosingBegan(isn, events))
  {
    ChunkSequenceNumber(isn, events, data);
    FinIsOutOnceClosing(isn, events);
    FollowsIsPlaced(Run(isn, events), isn, Relayed(isn, events), data, ClosingBegan(isn, events));
  }

  lemma FollowsIsPlaced(s: Session, isn: nat, relayed: seq<Byte>, data: seq<Byte>, closing: bool)
    requires ChunkFollows(s, isn, relayed, data) && Fins(s.sent) == if closing then 1 else 0
    ensures ChunkPlaced(s, isn, relayed, data, closing)
  {
    FinAmong(s.sent);
  }

  /** No segment carries data behind one with our FIN. */
  predicate NoDataAfterFin(sent: seq<Segment>) {
    sent == []
    || (var n := |sent| - 1;
        NoDataAfterFin(sent[..n]) && (sent[n].payload != [] ==> Fins(sent[..n]) == 0))
  }

  /** Every upstream chunk of the run that is not empty and is relayed arrives before the session begins to close. */
  ghost predicate ChunksPrecedeClosing(isn: nat, events: seq<Event>) {
    events == []
    || (var front, last := events[..|events| - 1], events[|events| - 1];
        && ChunksPrecedeClosing(isn, front)
        && (last.UpstreamData? && last.data != [] && Run(isn, front).reading ==> !ClosingBegan(isn, front)))
  }

  lemma NoDataStep(sent: seq<Segment>, x: Segment)
    ensures NoDataAfterFin(sent + [x]) <==> NoDataAfterFin(sent) && (x.payload != [] ==> Fins(sent) == 0)
  {
    assert (sent + [x])[..|sent|] == sent;
  }

  lemma EmissionAfterFin(s: Session, t: Session, how: Emission, added: seq<Segment>)
    requires Emits(s, t, how, added)
    ensures NoDataAfterFin(t.sent)
       <==> NoDataAfterFin(s.sent) && (how == Chunk && added[0].payload != [] ==> Fins(s.sent) == 0)
  {
    match how {
      case Silent => assert t.sent == s.sent;
      case AckAndFin =>
        NoDataStep(s.sent, added[0]);
        NoDataStep(s.sent + [added[0]], added[1]);
        assert t.sent == s.sent + [added[0]] + [added[1]];
      case _ =>
        NoDataStep(s.sent, added[0]);
        assert added == [added[0]];
    }
  }

  /** A run sends no data behind our FIN if and only if its chunks all arrive before the session begins to close. */
  lemma {:induction false} DataAfterFinExactly(isn: nat, events: seq<Event>)
    ensures NoDataAfterFin(Run(isn, events).sent) <==> ChunksPrecedeClosing(isn, events)
  {
    if events != [] {
      var front, last := events[..|events| - 1], events[|events| - 1];
      var s := Run(isn, front);
      DataAfterFinExactly(isn, front);
      FinIsOutOnceClosing(isn, front);
      StepEmits(s, last);
      ChunkWay(s, last);
      EmissionAfterFin(s, Step(s, last), Way(s, last), Added(s, last));
    }
  }

  function Syn(): (e: Event) {
    Packet(Flags(true, false, false, false, false), 0, [])
  }

  lemma RunOneMore(isn: nat, events: seq<Event>, e: Event)
    ensures Run(isn, events + [e]) == Step(Run(isn, events), e)
  {
    assert (events + [e])[..|events|] == events;
  }

  /** The FINs of both sides are out and the reader is still running. */
  ghost predicate FinsExchanged(s: Session, isn: nat) {
    && s.state == LastAck && s.reading && s.ourSeq == Wrap(isn + 2)
    && |s.sent| == 3 && s.sent[2].flags.fin
  }

  lemma FinExchange(isn: nat)
    ensures FinsExchanged(Run(isn, [Syn(), Connected(true), Packet(FIN_ACK, 1, [])]), isn)
  {
    RunOneMore(isn, [], Syn());
    RunOneMore(isn, [Syn()], Connected(true));
    RunOneMore(isn, [Syn(), Connected(true)], Packet(FIN_ACK, 1, []));
    assert [] + [Syn()] == [Syn()];
    assert [Syn()] + [Connected(true)] == [Syn(), Connected(true)];
    assert [Syn(), Connected(true)] + [Packet(FIN_ACK, 1, [])] == [Syn(), Connected(true), Packet(FIN_ACK, 1, [])];
    WrapAdd(isn + 1, 1);
  }

  /** The last segment carries data, with our FIN among those before it. */
  ghost predicate EndsBehindFin(s: Session, isn: nat, b: Byte) {
    |s.sent| == 4 && s.sent[2].flags.fin && s.sent[3].payload == [b] && s.sent[3].seqNum == Wrap(isn + 2)
  }

  /**
   What the code does not promise: upstream data that arrives after the client's FIN is still relayed, behind our
   own FIN, because `handleUpstreamData` does not look at the state.
   */
  lemma DataAfterOurFin(isn: nat, b: Byte)
    ensures var s := Run(isn, [Syn(), Connected(true), Packet(FIN_ACK, 1, []), UpstreamData([b])]);
      s.state == LastAck && EndsBehindFin(s, isn, b)
  {
    var events := [Syn(), Connected(true), Packet(FIN_ACK, 1, [])];
    FinExchange(isn);
    RunOneMore(isn, events, UpstreamData([b]));
    assert events + [UpstreamData([b])] == [Syn(), Connected(true), Packet(FIN_ACK, 1, []), UpstreamData([b])];
  }

  /** The same happens after the client has acknowledged our FIN and the session is closed. */
  lemma DataAfterClose(isn: nat, b: Byte)
    ensures var s := Run(isn, [Syn(), Connected(true), Packet(FIN_ACK, 1, []), Packet(ACK, 2, []), UpstreamData([b])]);
      s.state == Closed && EndsBehindFin(s, isn, b)
  {
    var events := [Syn(), Connected(true), Packet(FIN_ACK, 1, [])];
    FinExchange(isn);
    RunOneMore(isn, events, Packet(ACK, 2, []));
    RunOneMore(isn, events + [Packet(ACK, 2, [])], UpstreamData([b]));
    assert events + [Packet(ACK, 2, [])] + [UpstreamData([b])]
        == [Syn(), Connected(true), Packet(FIN_ACK, 1, []), Packet(ACK, 2, []), UpstreamData([b])];
  }
}
