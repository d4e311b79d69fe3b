/** TCP states, flags, segments and 32-bit sequence arithmetic shared by both session implementations. */
module TcpWire {
  import opened Bytes

  const SEQ_SPACE: nat := 0x1_0000_0000

  datatype TcpState =
    | Listen | SynReceived | Established | CloseWait | LastAck | FinWait1 | FinWait2 | TimeWait | Closed

  datatype Flags = Flags(syn: bool, ack: bool, fin: bool, rst: bool, psh: bool)

  const SYN_ACK := Flags(true, true, false, false, false)
  const ACK := Flags(false, true, false, false, false)
  const FIN_ACK := Flags(false, true, true, false, false)
  const RST_ACK := Flags(false, true, false, true, false)
  const PSH_ACK := Flags(false, true, false, false, true)

  /** A segment sent to the client. */
  datatype Segment = Segment(flags: Flags, seqNum: nat, ackNum: nat, payload: seq<Byte>)

  /** `n` modulo 2^32, by subtraction. */
  function Wrap(n: nat): (w: nat)
    ensures w < SEQ_SPACE
  {
    if n < SEQ_SPACE then n else Wrap(n - SEQ_SPACE)
  }

  lemma {:induction false} WrapIsModulo(n: nat)
    ensures Wrap(n) == n % SEQ_SPACE
  {
    if n >= SEQ_SPACE {
      WrapIsModulo(n - SEQ_SPACE);
    }
  }

  lemma {:induction false} WrapAdd(a: nat, b: nat)
    ensures Wrap(Wrap(a) + b) == Wrap(a + b)
  {
    if a >= SEQ_SPACE {
      WrapAdd(a - SEQ_SPACE, b);
    }
  }

  /** The sequence numbers a segment occupies behind the initial SYN: its payload, and one for a FIN. */
  function Occupies(s: Segment): (n: nat) {
    |s.payload| + (if s.flags.fin then 1 else 0)
  }

  function Occupied(sent: seq<Segment>): (n: nat) {
    if sent == [] then 0 else Occupied(sent[..|sent| - 1]) + Occupies(sent[|sent| - 1])
  }

  /** The octet stream carried by a sequence of segments. */
  function Stream(sent: seq<Segment>): (s: seq<Byte>) {
    if sent == [] then [] else Stream(sent[..|sent| - 1]) + sent[|sent| - 1].payload
  }

  function Fins(sent: seq<Segment>): (n: nat) {
    if sent == [] then 0 else Fins(sent[..|sent| - 1]) + (if sent[|sent| - 1].flags.fin then 1 else 0)
  }

  function Syns(sent: seq<Segment>): (n: nat) {
    if sent == [] then 0 else Syns(sent[..|sent| - 1]) + (if sent[|sent| - 1].flags.syn then 1 else 0)
  }

  lemma SentOneMore(sent: seq<Segment>, s: Segment)
    ensures Occupied(sent + [s]) == Occupied(sent) + Occupies(s)
    ensures Stream(sent + [s]) == Stream(sent) + s.payload
    ensures Fins(sent + [s]) == Fins(sent) + (if s.flags.fin then 1 else 0)
    ensures Syns(sent + [s]) == Syns(sent) + (if s.flags.syn then 1 else 0)
  {
    assert (sent + [s])[..|sent|] == sent;
  }

  /** Segments occupy exactly their octets and their FINs. */
  lemma {:induction false} OccupiedIsStreamAndFins(sent: seq<Segment>)
    ensures Occupied(sent) == |Stream(sent)| + Fins(sent)
  {
    if sent != [] {
      OccupiedIsStreamAndFins(sent[..|sent| - 1]);
    }
  }

  /**
   The edges of the state diagram that a packet with flags `f` takes once the opening SYN has been answered; the edge
   out of SYN_RECEIVED needs the upstream connection.
   */
  predicate PacketEdge(from: TcpState, to: TcpState, f: Flags, connected: bool) {
    || (from == SynReceived && to == Established && f.ack && !f.syn && connected)
    || (from == SynReceived && to == Closed && f.rst && (f.syn || !f.ack))
    || (from == Established && to == Closed && f.rst)
    || (from == Established && to == LastAck && f.fin && !f.rst)
    || (from == CloseWait && to == Closed && f.rst)
    || (from == LastAck && to == Closed && (f.ack || f.rst))
    || (from == FinWait1 && to == FinWait2 && f.ack && !f.fin)
    || (from in {FinWait1, FinWait2} && to == TimeWait && f.fin)
  }

  /** A packet that resets a session in this state: every RST, except where an acknowledgement is looked at first. */
  predicate Resets(from: TcpState, f: Flags) {
    && f.rst
    && (from in {Established, CloseWait} || (from == SynReceived && (f.syn || !f.ack)) || (from == LastAck && !f.ack))
  }
}
