/** Octet by octet: where the fields of headers and built packets stand, and which packets are dispatched where. */
module PacketLayout {
  import opened Bytes
  import opened Checksums
  import opened Headers
  import opened Transport
  import opened Wrappers

  /** The big-endian 16-bit number at position `at`. */
  function Field16(b: seq<Byte>, at: nat): (n: nat)
    requires at + 1 < |b|
  {
    0x100 * (b[at] as int) + b[at + 1]
  }

  /** The big-endian 32-bit number at position `at`. */
  function Field32(b: seq<Byte>, at: nat): (n: nat)
    requires at + 3 < |b|
  {
    0x1_0000 * Field16(b, at) + Field16(b, at + 2)
  }

  lemma StoredField16(b: seq<Byte>, at: nat, x: int)
    requires at + 1 < |b| && b[at] == Hi(x) && b[at + 1] == Lo(x)
    ensures Field16(b, at) == x % 0x1_0000
  {
    WordRoundTrip(x);
  }

  lemma StoredField32(b: seq<Byte>, at: nat, x: int)
    requires at + 3 < |b| && b[at..at + 4] == Quad(x)
    ensures Field32(b, at) == x % 0x1_0000_0000
  {
    var q := b[at..at + 4];
    assert b[at] == q[0] && b[at + 1] == q[1] && b[at + 2] == q[2] && b[at + 3] == q[3];
    QuadRoundTrip(x);
  }

  // ----------------------------------------------------- serialised headers

  /** A serialised IPv4 header, at the front of a buffer, has its fields where section 3.1 of RFC 791 puts them. */
  lemma IPv4Octets(h: IPv4Header, tail: seq<Byte>)
    requires h.Serializable()
    ensures var b := EncodeIPv4(h) + tail;
      && |b| == 4 * h.ihl + |tail| && |b| >= 20
      && b[0] == (h.version * 16 + h.ihl) % 0x100 && b[1] == h.tos % 0x100
      && Field16(b, 2) == h.totalLength % 0x1_0000 && Field16(b, 4) == h.identification % 0x1_0000
      && Field16(b, 6) == (h.flags * 0x2000 + h.fragmentOffset) % 0x1_0000
      && b[8] == h.ttl % 0x100 && b[9] == h.protocol % 0x100
      && b[12..16] == h.sourceAddress && b[16..20] == h.destAddress
      && (forall i | 20 <= i < 4 * h.ihl :: b[i] == 0)
  {
    var c := IPv4Checksum(h);
    var b := EncodeIPv4(h) + tail;
    IPv4Layout(h, Hi(c), Lo(c), tail);
    assert forall i | 0 <= i < 12 :: b[i] == b[..12][i];
    StoredField16(b, 2, h.totalLength);
    StoredField16(b, 4, h.identification);
    StoredField16(b, 6, h.flags * 0x2000 + h.fragmentOffset);
  }

  /** A TCP header with a given checksum field, at any position of a buffer: section 3.1 of RFC 9293. */
  lemma TcpOctets(h: TcpHeader, ckHi: Byte, ckLo: Byte, front: seq<Byte>, tail: seq<Byte>)
    requires h.Serializable()
    ensures var b, at := front + TcpBytes(h, ckHi, ckLo) + tail, |front|;
      && |b| == at + 4 * h.dataOffset + |tail|
      && Field16(b, at) == h.sourcePort % 0x1_0000 && Field16(b, at + 2) == h.destPort % 0x1_0000
      && Field32(b, at + 4) == h.sequenceNumber % 0x1_0000_0000 && Field32(b, at + 8) == h.ackNumber % 0x1_0000_0000
      && b[at + 12] == h.dataOffset * 16 + h.reserved * 2 + h.flags / 0x100 % 2 && b[at + 13] == h.flags % 0x100
      && Field16(b, at + 14) == h.window % 0x1_0000
      && b[at + 16] == ckHi && b[at + 17] == ckLo
      && Field16(b, at + 18) == h.urgentPointer % 0x1_0000
  {
    var b, at := front + TcpBytes(h, ckHi, ckLo) + tail, |front|;
    assert b[at..at + 20] == TcpFixed(h, ckHi, ckLo);
    TcpFixedOctets(h, ckHi, ckLo, b, at);
  }

  lemma TcpFixedOctets(h: TcpHeader, ckHi: Byte, ckLo: Byte, b: seq<Byte>, at: nat)
    requires h.Serializable() && at + 20 <= |b| && b[at..at + 20] == TcpFixed(h, ckHi, ckLo)
    ensures Field16(b, at) == h.sourcePort % 0x1_0000 && Field16(b, at + 2) == h.destPort % 0x1_0000
    ensures Field32(b, at + 4) == h.sequenceNumber % 0x1_0000_0000
    ensures Field32(b, at + 8) == h.ackNumber % 0x1_0000_0000
    ensures b[at + 12] == h.dataOffset * 16 + h.reserved * 2 + h.flags / 0x100 % 2 && b[at + 13] == h.flags % 0x100
    ensures Field16(b, at + 14) == h.window % 0x1_0000 && b[at + 16] == ckHi && b[at + 17] == ckLo
    ensures Field16(b, at + 18) == h.urgentPointer % 0x1_0000
  {
    var fixed := TcpFixed(h, ckHi, ckLo);
    assert forall i | 0 <= i < 20 :: fixed[i] == b[at..][i];
    assert forall i | 0 <= i < 20 :: b[at..][i] == b[at + i];
    StoredField16(fixed, 0, h.sourcePort);
    StoredField16(fixed, 2, h.destPort);
    assert fixed[4..8] == Quad(h.sequenceNumber) && fixed[8..12] == Quad(h.ackNumber);
    StoredField32(fixed, 4, h.sequenceNumber);
    StoredField32(fixed, 8, h.ackNumber);
    StoredField16(fixed, 14, h.window);
    StoredField16(fixed, 18, h.urgentPointer);
  }

  /** A UDP header with a given checksum field, at any position of a buffer: RFC 768. */
  lemma UdpOctets(h: UdpHeader, ckHi: Byte, ckLo: Byte, front: seq<Byte>, tail: seq<Byte>)
    ensures var b, at := front + UdpBytes(h, ckHi, ckLo) + tail, |front|;
      && |b| == at + 8 + |tail|
      && Field16(b, at) == h.sourcePort % 0x1_0000 && Field16(b, at + 2) == h.destPort % 0x1_0000
      && Field16(b, at + 4) == h.length % 0x1_0000
      && b[at + 6] == ckHi && b[at + 7] == ckLo
  {
    var b, at := front + UdpBytes(h, ckHi, ckLo) + tail, |front|;
    assert forall i | 0 <= i < 8 :: b[at + i] == UdpBytes(h, ckHi, ckLo)[i];
    StoredField16(b, at, h.sourcePort);
    StoredField16(b, at + 2, h.destPort);
    StoredField16(b, at + 4, h.length);
  }

  // ----------------------------------------------------------- built packets

  /** The 20 octets of the IP header every built packet starts with. */
  ghost predicate CarriesIp(packet: seq<Byte>, src: seq<Byte>, dst: seq<Byte>, protocol: Byte, identification: int) {
    && |packet| >= 20 && packet[0] == 0x45 && packet[1] == 0
    && Field16(packet, 2) == |packet| % 0x1_0000 && Field16(packet, 4) == identification % 0x1_0000
    && Field16(packet, 6) == 0x4000 && packet[8] == 64 && packet[9] == protocol
    && packet[12..16] == src && packet[16..20] == dst
  }

  /** What the checksum of the transport part at `at` runs over: addresses, protocol, length and the part itself. */
  function TransportSum(packet: seq<Byte>, at: nat, length: nat): (n: nat)
    requires 20 <= at <= length <= |packet|
  {
    WordSum(packet[12..16]) + WordSum(packet[16..20]) + packet[9] + (length - at) % 0x1_0000
    + WordSum(packet[at..length])
  }

  lemma TransportWords(ip: IPv4Header, packet: seq<Byte>, at: nat, length: nat, segment: seq<Byte>)
    requires 20 <= at <= length <= |packet| && ip.protocol == packet[9] && segment == packet[at..length]
    requires ip.sourceAddress == packet[12..16] && ip.destAddress == packet[16..20]
    ensures WordSum(PseudoHeader(ip, |segment|) + segment) == TransportSum(packet, at, length)
  {
    PseudoHeaderWords(ip, segment);
  }

  lemma SegmentBalance(ip: IPv4Header, segment: seq<Byte>, sum: nat)
    requires WordSum(PseudoHeader(ip, |segment|) + segment) == sum > 0
    ensures SegmentChecksum(ip, segment) == 0 <==> sum % 0xFFFF == 0
  {
    ZeroChecksum(PseudoHeader(ip, |segment|) + segment);
  }

  lemma SegmentSum(ip: IPv4Header, packet: seq<Byte>, at: nat, length: nat)
    requires 20 <= at <= length <= |packet| && ip.protocol == packet[9] > 0
    requires ip.sourceAddress == packet[12..16] && ip.destAddress == packet[16..20]
    ensures SegmentChecksum(ip, packet[at..length]) == 0 <==> TransportSum(packet, at, length) % 0xFFFF == 0
  {
    TransportWords(ip, packet, at, length, packet[at..length]);
    SegmentBalance(ip, packet[at..length], TransportSum(packet, at, length));
  }

  lemma BuiltIpOctets(src: seq<Byte>, dst: seq<Byte>, protocol: Byte, identification: int, tail: seq<Byte>)
    requires |src| == 4 && |dst| == 4
    ensures var h := BuilderIpHeader(src, dst, protocol, identification, 20 + |tail|);
      h.Serializable() && CarriesIp(EncodeIPv4(h) + tail, src, dst, protocol, identification)
  {
    IPv4Octets(BuilderIpHeader(src, dst, protocol, identification, 20 + |tail|), tail);
  }

  /** Where the arguments of the TCP builder stand in the packet it makes. */
  lemma TcpPacketOctets(src: seq<Byte>, dst: seq<Byte>, f: TcpFields, payload: seq<Byte>, identification: int)
    requires |src| == 4 && |dst| == 4
    ensures var packet := TcpPacket(src, dst, f, payload, identification);
      && |packet| == 40 + |payload| && CarriesIp(packet, src, dst, 6, identification)
      && Field16(packet, 20) == f.srcPort % 0x1_0000 && Field16(packet, 22) == f.dstPort % 0x1_0000
      && Field32(packet, 24) == f.seqNum % 0x1_0000_0000 && Field32(packet, 28) == f.ackNum % 0x1_0000_0000
      && packet[32] == 5 * 16 + f.flags / 0x100 % 2 && packet[33] == f.flags % 0x100
      && Field16(packet, 34) == f.window % 0x1_0000 && Field16(packet, 38) == 0
      && packet[40..] == payload
      && TransportSum(packet, 20, |packet|) % 0xFFFF == 0
  {
    var h, c := TcpIpHeader(src, dst, payload, identification), TcpChecksum(src, dst, f, payload, identification);
    var header := TcpBytes(f.Header(), Hi(c), Lo(c));
    var packet := TcpPacket(src, dst, f, payload, identification);
    BufferLayout(h, header, payload, []);
    assert packet == EncodeIPv4(h) + header + payload;
    BuiltIpOctets(src, dst, 6, identification, header + payload);
    TcpOctets(f.Header(), Hi(c), Lo(c), EncodeIPv4(h), payload);
    TcpSegmentSums(src, dst, f, payload, identification);
    assert packet[20..|packet|] == TcpSegment(src, dst, f, payload, identification);
    SegmentSum(h, packet, 20, |packet|);
  }

  /** Where the arguments of the UDP builder stand in the datagram it makes. */
  lemma UdpPacketOctets(src: seq<Byte>, dst: seq<Byte>, srcPort: int, dstPort: int, payload: seq<Byte>)
    requires |src| == 4 && |dst| == 4
    ensures var packet := UdpPacket(src, dst, srcPort, dstPort, payload);
      && |packet| == 28 + |payload| && CarriesIp(packet, src, dst, 17, 0)
      && Field16(packet, 20) == srcPort % 0x1_0000 && Field16(packet, 22) == dstPort % 0x1_0000
      && Field16(packet, 24) == (8 + |payload|) % 0x1_0000
      && packet[28..] == payload
      && TransportSum(packet, 20, |packet|) % 0xFFFF == 0
  {
    var h, u := UdpIpHeader(src, dst, payload), UdpFields(srcPort, dstPort, payload);
    var c := UdpChecksum(src, dst, srcPort, dstPort, payload);
    var header := UdpBytes(u, Hi(c), Lo(c));
    var packet := UdpPacket(src, dst, srcPort, dstPort, payload);
    BufferLayout(h, header, payload, []);
    assert packet == EncodeIPv4(h) + header + payload;
    BuiltIpOctets(src, dst, 17, 0, header + payload);
    UdpOctets(u, Hi(c), Lo(c), EncodeIPv4(h), payload);
    UdpSegmentSums(src, dst, srcPort, dstPort, payload);
    assert packet[20..|packet|] == UdpSegment(src, dst, srcPort, dstPort, payload);
    SegmentSum(h, packet, 20, |packet|);
  }

  // ------------------------------------------------------------ interception

  /** The first `length` octets of a buffer start with an IPv4 header, options included, of the given protocol. */
  predicate StartsWithIp(buffer: seq<Byte>, length: nat, protocol: Byte)
    requires length <= |buffer|
  {
    && length >= 20 && buffer[0] / 16 == 4 && buffer[0] % 16 >= 5 && |buffer| >= 4 * (buffer[0] % 16)
    && buffer[9] == protocol
  }

  /** Everything the interceptor asks of a packet before it hands it to the TCP sessions. */
  predicate IsTcp(buffer: seq<Byte>, length: nat)
    requires length <= |buffer|
  {
    && StartsWithIp(buffer, length, 6)
    && var at := 4 * (buffer[0] % 16);
    && length >= at + 20 && buffer[at + 12] / 16 >= 5
    && TransportSum(buffer, at, length) % 0xFFFF == 0
  }

  /** Everything the interceptor asks of a datagram before it hands it to the DNS relay; no checksum is looked at. */
  predicate IsDns(buffer: seq<Byte>, length: nat)
    requires length <= |buffer|
  {
    && StartsWithIp(buffer, length, 17)
    && var at := 4 * (buffer[0] % 16);
    && length > at + 8 && Field16(buffer, at + 2) == 53
  }

  ghost predicate DeliversTcp(buffer: seq<Byte>, length: nat, d: Dispatch)
    requires length <= |buffer| && IsTcp(buffer, length)
  {
    var at := 4 * (buffer[0] % 16);
    && d.ToTcp?
    && d.ip.sourceAddress == buffer[12..16] && d.ip.destAddress == buffer[16..20]
    && d.tcp.sourcePort == Field16(buffer, at) && d.tcp.destPort == Field16(buffer, at + 2)
    && d.tcp.sequenceNumber == Field32(buffer, at + 4) && d.tcp.ackNumber == Field32(buffer, at + 8)
    && d.tcp.flags == Field16(buffer, at + 12) % 0x200 && d.tcp.window == Field16(buffer, at + 14)
    && d.payload == From(buffer, at + 4 * (buffer[at + 12] / 16), length)
  }

  ghost predicate DeliversDns(buffer: seq<Byte>, length: nat, d: Dispatch)
    requires length <= |buffer| && IsDns(buffer, length)
  {
    var at := 4 * (buffer[0] % 16);
    && d.ToDns?
    && d.ip.sourceAddress == buffer[12..16] && d.ip.destAddress == buffer[16..20]
    && d.udp.sourcePort == Field16(buffer, at) && d.udp.destPort == 53
    && d.payload == buffer[at + 8..length]
  }

  lemma ParsedIp(buffer: seq<Byte>, protocol: Byte)
    requires |buffer| >= 20 && buffer[0] / 16 == 4
    ensures match ParseIPv4(buffer, 0)
            case None => !(buffer[0] % 16 >= 5 && |buffer| >= 4 * (buffer[0] % 16))
            case Some(ip) =>
              && buffer[0] % 16 >= 5 && |buffer| >= 4 * (buffer[0] % 16)
              && ip.HeaderLength() == 4 * (buffer[0] % 16) && ip.protocol == buffer[9]
              && ip.sourceAddress == buffer[12..16] && ip.destAddress == buffer[16..20]
  {
  }

  lemma NineBits(hi: Byte, lo: Byte, w: nat)
    requires w == 0x100 * (hi as int) + lo
    ensures w % 0x200 == Word(hi % 2, lo)
  {
  }

  lemma ParsedTcp(buffer: seq<Byte>, at: nat)
    requires at + 20 <= |buffer|
    ensures match ParseTcp(buffer, at)
            case None => buffer[at + 12] / 16 < 5
            case Some(tcp) =>
              && buffer[at + 12] / 16 >= 5 && tcp.HeaderLength() == 4 * (buffer[at + 12] / 16)
              && tcp.sourcePort == Field16(buffer, at) && tcp.destPort == Field16(buffer, at + 2)
              && tcp.sequenceNumber == Field32(buffer, at + 4) && tcp.ackNumber == Field32(buffer, at + 8)
              && tcp.flags == Field16(buffer, at + 12) % 0x200 && tcp.window == Field16(buffer, at + 14)
  {
    NineBits(buffer[at + 12], buffer[at + 13], Field16(buffer, at + 12));
  }

  lemma TcpExactly(buffer: seq<Byte>, length: nat, ip: IPv4Header)
    requires length <= |buffer| && StartsWithIp(buffer, length, 6)
    requires ip.HeaderLength() == 4 * (buffer[0] % 16) && ip.protocol == buffer[9]
    requires ip.sourceAddress == buffer[12..16] && ip.destAddress == buffer[16..20]
    ensures var d := InterceptTcp(buffer, length, ip);
      if IsTcp(buffer, length) then DeliversTcp(buffer, length, d) else d == Dropped
  {
    var at := 4 * (buffer[0] % 16);
    if length >= at + 20 {
      SegmentSum(ip, buffer, at, length);
      ParsedTcp(buffer, at);
    }
  }

  lemma UdpExactly(buffer: seq<Byte>, length: nat, ip: IPv4Header)
    requires length <= |buffer| && StartsWithIp(buffer, length, 17)
    requires ip.HeaderLength() == 4 * (buffer[0] % 16)
    requires ip.sourceAddress == buffer[12..16] && ip.destAddress == buffer[16..20]
    ensures var d := InterceptUdp(buffer, length, ip);
      if IsDns(buffer, length) then DeliversDns(buffer, length, d) else d == Dropped
  {
  }

  /**
   What becomes of an arbitrary buffer, from its octets: handed to the TCP sessions, handed to the DNS relay, or
   dropped, each exactly when its octets say so, and with the addresses, ports, numbers and payload they hold.
   */
  lemma InterceptedExactly(buffer: seq<Byte>, length: nat)
    requires length <= |buffer|
    ensures var d := Intercept(buffer, length);
      if IsTcp(buffer, length) then DeliversTcp(buffer, length, d)
      else if IsDns(buffer, length) then DeliversDns(buffer, length, d)
      else d == Dropped
  {
    if length >= 20 && buffer[0] / 16 == 4 {
      ParsedIp(buffer, 6);
      match ParseIPv4(buffer, 0)
      case None =>
      case Some(ip) =>
        if ip.protocol == 6 {
          TcpExactly(buffer, length, ip);
        } else if ip.protocol == 17 {
          UdpExactly(buffer, length, ip);
        }
    }
  }
}
