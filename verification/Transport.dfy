/** Assembling IPv4/TCP and IPv4/UDP packets and classifying packets read from the tunnel. */
module Transport {
  import opened Bytes
  import opened Checksums
  import opened Headers
  import opened Wrappers

  // ------------------------------------------------- pseudo-header checksums

  function PseudoHeader(ip: IPv4Header, segmentLength: nat): (s: seq<Byte>) {
    ip.sourceAddress + ip.destAddress + [0, Lo(ip.protocol), Hi(segmentLength), Lo(segmentLength)]
  }

  function SegmentChecksum(ip: IPv4Header, segment: seq<Byte>): (c: int) {
    Checksum(PseudoHeader(ip, |segment|) + segment)
  }

  /** Whether the segment that fills `packet[offset..length]` carries a valid checksum. */
  predicate SegmentVerifies(ip: IPv4Header, packet: seq<Byte>, offset: nat, length: nat)
    requires length <= |packet|
  {
    length - offset >= 8 && SegmentChecksum(ip, packet[offset..length]) == 0
  }

  method WriteProtocolAndLength(protocol: int, segmentLength: nat, buffer: array<Byte>)
    requires buffer.Length >= 12
    modifies buffer
    ensures buffer[..] == old(buffer[..8]) + [0, Lo(protocol), Hi(segmentLength), Lo(segmentLength)]
                          + old(buffer[12..])
  {
    buffer[8], buffer[9] := 0, Lo(protocol);
    buffer[10], buffer[11] := Hi(segmentLength), Lo(segmentLength);
  }

  method WritePseudoHeader(ip: IPv4Header, segmentLength: nat, buffer: array<Byte>)
    requires |ip.sourceAddress| == 4 && |ip.destAddress| == 4 && buffer.Length == 12 + segmentLength
    modifies buffer
    ensures buffer[..] == PseudoHeader(ip, segmentLength) + old(buffer[12..])
  {
    ghost var rest := buffer[12..];
    CopyInto(ip.sourceAddress, buffer, 0);
    CopyInto(ip.destAddress, buffer, 4);
    assert buffer[..8] == ip.sourceAddress + ip.destAddress && buffer[12..] == rest;
    WriteProtocolAndLength(ip.protocol, segmentLength, buffer);
  }

  method TcpUdpChecksum(ip: IPv4Header, transportHeader: seq<Byte>, payload: seq<Byte>) returns (c: int)
    requires |ip.sourceAddress| == 4 && |ip.destAddress| == 4
    ensures c == SegmentChecksum(ip, transportHeader + payload)
  {
    var segmentLength := |transportHeader| + |payload|;
    var buffer := new Byte[12 + segmentLength](_ => 0);
    WritePseudoHeader(ip, segmentLength, buffer);
    CopyInto(transportHeader, buffer, 12);
    CopyInto(payload, buffer, 12 + |transportHeader|);
    assert buffer[..] == PseudoHeader(ip, segmentLength) + (transportHeader + payload);
    assert buffer[0..buffer.Length] == buffer[..];
    c := IpChecksum(buffer, 0, buffer.Length);
  }

  method VerifyTransportChecksum(ip: IPv4Header, packet: array<Byte>, transportOffset: nat, length: nat)
      returns (valid: bool)
    requires |ip.sourceAddress| == 4 && |ip.destAddress| == 4 && length <= packet.Length
    ensures valid == SegmentVerifies(ip, packet[..], transportOffset, length)
  {
    if length - transportOffset < 8 {
      return false;
    }
    var segment := packet[transportOffset..length];
    assert packet[..][transportOffset..length] == segment;
    var buffer := new Byte[12 + |segment|](_ => 0);
    WritePseudoHeader(ip, |segment|, buffer);
    CopyInto(segment, buffer, 12);
    assert buffer[..] == PseudoHeader(ip, |segment|) + segment;
    assert buffer[0..buffer.Length] == buffer[..];
    var c := IpChecksum(buffer, 0, buffer.Length);
    valid := c == 0;
  }

  /** A segment whose aligned, zeroed checksum field is filled with its checksum verifies. */
  lemma FilledSegmentVerifies(ip: IPv4Header, segment: seq<Byte>, p: nat, hi: Byte, lo: Byte)
    requires |ip.sourceAddress| == 4 && |ip.destAddress| == 4
    requires p % 2 == 0 && p + 1 < |segment| && segment[p] == 0 && segment[p + 1] == 0
    requires Word(hi, lo) == SegmentChecksum(ip, segment)
    ensures SegmentChecksum(ip, PutField(segment, p, hi, lo)) == 0
  {
    var pseudo := PseudoHeader(ip, |segment|);
    StoredChecksumVerifies(pseudo + segment, 12 + p, hi, lo);
    assert PutField(pseudo + segment, 12 + p, hi, lo) == pseudo + PutField(segment, p, hi, lo);
  }

  /** A single changed octet of a verifying segment is noticed. */
  lemma ChangedSegmentFails(ip: IPv4Header, segment: seq<Byte>, i: nat, v: Byte)
    requires |ip.sourceAddress| == 4 && |ip.destAddress| == 4
    requires i < |segment| && v != segment[i] && SegmentChecksum(ip, segment) == 0
    ensures SegmentChecksum(ip, segment[i := v]) != 0
  {
    var pseudo := PseudoHeader(ip, |segment|);
    assert (pseudo + segment)[12 + i := v] == pseudo + segment[i := v];
    ChangedByteDetected(pseudo + segment, 12 + i, v);
  }

  // ------------------------------------------------------------ building

  const IP_HEADER_SIZE := 20
  const DEFAULT_TTL := 64
  const DONT_FRAGMENT := 2

  function BuilderIpHeader(src: seq<Byte>, dst: seq<Byte>, protocol: int, identification: int, totalLength: nat)
    : (h: IPv4Header)
  {
    IPv4Header(4, 5, 0, totalLength, identification, DONT_FRAGMENT, 0, DEFAULT_TTL, protocol, 0, src, dst)
  }

  datatype TcpFields = TcpFields(srcPort: int, dstPort: int, seqNum: int, ackNum: int, flags: int, window: int) {
    function Header(): (h: TcpHeader) {
      TcpHeader(srcPort, dstPort, seqNum, ackNum, 5, 0, flags, window, 0, 0)
    }
  }

  function TcpIpHeader(src: seq<Byte>, dst: seq<Byte>, payload: seq<Byte>, identification: int): (h: IPv4Header) {
    BuilderIpHeader(src, dst, PROTOCOL_TCP, identification, 40 + |payload|)
  }

  /** The checksum of a TCP segment, taken with its checksum field zero. */
  function TcpChecksum(src: seq<Byte>, dst: seq<Byte>, f: TcpFields, payload: seq<Byte>, identification: int)
    : (c: int)
  {
    SegmentChecksum(TcpIpHeader(src, dst, payload, identification), EncodeTcp(f.Header()) + payload)
  }

  function TcpSegment(src: seq<Byte>, dst: seq<Byte>, f: TcpFields, payload: seq<Byte>, identification: int)
    : (s: seq<Byte>)
  {
    var c := TcpChecksum(src, dst, f, payload, identification);
    TcpBytes(f.Header(), Hi(c), Lo(c)) + payload
  }

  function TcpPacket(src: seq<Byte>, dst: seq<Byte>, f: TcpFields, payload: seq<Byte>, identification: int)
    : (s: seq<Byte>)
    requires |src| == 4 && |dst| == 4
  {
    EncodeIPv4(TcpIpHeader(src, dst, payload, identification)) + TcpSegment(src, dst, f, payload, identification)
  }

  method BuildTcpPacket(src: seq<Byte>, dst: seq<Byte>, f: TcpFields, payload: seq<Byte>, identification: int)
      returns (packet: array<Byte>)
    requires |src| == 4 && |dst| == 4
    ensures fresh(packet) && packet[..] == TcpPacket(src, dst, f, payload, identification)
  {
    var ipHeader := TcpIpHeader(src, dst, payload, identification);
    var tcpBytes := TcpToBytes(f.Header());
    var tcpChecksum := TcpUdpChecksum(ipHeader, tcpBytes[..], payload);
    tcpBytes[16], tcpBytes[17] := Hi(tcpChecksum), Lo(tcpChecksum);
    TcpChecksumField(f.Header(), Hi(tcpChecksum), Lo(tcpChecksum));
    assert tcpBytes[..] == TcpBytes(f.Header(), Hi(tcpChecksum), Lo(tcpChecksum));
    var ipBytes := IPv4ToBytes(ipHeader);
    packet := Assemble(ipBytes[..], tcpBytes[..], payload);
  }

  /** Copies the three parts of a packet into one array. */
  method Assemble(ipBytes: seq<Byte>, transportBytes: seq<Byte>, payload: seq<Byte>) returns (packet: array<Byte>)
    ensures fresh(packet) && packet[..] == ipBytes + (transportBytes + payload)
  {
    packet := new Byte[|ipBytes| + |transportBytes| + |payload|](_ => 0);
    CopyInto(ipBytes, packet, 0);
    assert packet[..] == ipBytes + Zeros(|transportBytes| + |payload|);
    CopyInto(transportBytes, packet, |ipBytes|);
    assert packet[..] == ipBytes + transportBytes + Zeros(|payload|);
    CopyInto(payload, packet, |ipBytes| + |transportBytes|);
  }

  function UdpFields(srcPort: int, dstPort: int, payload: seq<Byte>): (h: UdpHeader) {
    UdpHeader(srcPort, dstPort, UDP_HEADER_SIZE + |payload|, 0)
  }

  function UdpIpHeader(src: seq<Byte>, dst: seq<Byte>, payload: seq<Byte>): (h: IPv4Header) {
    BuilderIpHeader(src, dst, PROTOCOL_UDP, 0, IP_HEADER_SIZE + UDP_HEADER_SIZE + |payload|)
  }

  function UdpChecksum(src: seq<Byte>, dst: seq<Byte>, srcPort: int, dstPort: int, payload: seq<Byte>): (c: int) {
    SegmentChecksum(UdpIpHeader(src, dst, payload), EncodeUdp(UdpFields(srcPort, dstPort, payload)) + payload)
  }

  function UdpSegment(src: seq<Byte>, dst: seq<Byte>, srcPort: int, dstPort: int, payload: seq<Byte>)
    : (s: seq<Byte>)
  {
    var c := UdpChecksum(src, dst, srcPort, dstPort, payload);
    UdpBytes(UdpFields(srcPort, dstPort, payload), Hi(c), Lo(c)) + payload
  }

  function UdpPacket(src: seq<Byte>, dst: seq<Byte>, srcPort: int, dstPort: int, payload: seq<Byte>)
    : (s: seq<Byte>)
    requires |src| == 4 && |dst| == 4
  {
    EncodeIPv4(UdpIpHeader(src, dst, payload)) + UdpSegment(src, dst, srcPort, dstPort, payload)
  }

  method BuildUdpPacket(src: seq<Byte>, dst: seq<Byte>, srcPort: int, dstPort: int, payload: seq<Byte>)
      returns (packet: array<Byte>)
    requires |src| == 4 && |dst| == 4
    ensures fresh(packet) && packet[..] == UdpPacket(src, dst, srcPort, dstPort, payload)
  {
    var ipHeader := UdpIpHeader(src, dst, payload);
    var udpBytes := UdpToBytes(UdpFields(srcPort, dstPort, payload));
    var udpChecksum := TcpUdpChecksum(ipHeader, udpBytes[..], payload);
    udpBytes[6], udpBytes[7] := Hi(udpChecksum), Lo(udpChecksum);
    assert udpBytes[..] == UdpBytes(UdpFields(srcPort, dstPort, payload), Hi(udpChecksum), Lo(udpChecksum));
    var ipBytes := IPv4ToBytes(ipHeader);
    packet := Assemble(ipBytes[..], udpBytes[..], payload);
  }

  // ------------------------------------------------------ build, then verify

  lemma ChecksumOctets(segmentWithPseudo: seq<Byte>)
    ensures var c := Checksum(segmentWithPseudo); Word(Hi(c), Lo(c)) == c
  {
    ZeroChecksum(segmentWithPseudo);
    WordRoundTrip(Checksum(segmentWithPseudo));
  }

  lemma TcpSegmentSums(src: seq<Byte>, dst: seq<Byte>, f: TcpFields, payload: seq<Byte>, identification: int)
    requires |src| == 4 && |dst| == 4
    ensures SegmentChecksum(TcpIpHeader(src, dst, payload, identification),
                            TcpSegment(src, dst, f, payload, identification)) == 0
  {
    var ip, c := TcpIpHeader(src, dst, payload, identification), TcpChecksum(src, dst, f, payload, identification);
    var zeroed := EncodeTcp(f.Header()) + payload;
    ChecksumOctets(PseudoHeader(ip, |zeroed|) + zeroed);
    TcpChecksumField(f.Header(), Hi(c), Lo(c));
    assert PutField(zeroed, 16, Hi(c), Lo(c)) == PutField(EncodeTcp(f.Header()), 16, Hi(c), Lo(c)) + payload;
    FilledSegmentVerifies(ip, zeroed, 16, Hi(c), Lo(c));
  }

  lemma UdpSegmentSums(src: seq<Byte>, dst: seq<Byte>, srcPort: int, dstPort: int, payload: seq<Byte>)
    requires |src| == 4 && |dst| == 4
    ensures SegmentChecksum(UdpIpHeader(src, dst, payload), UdpSegment(src, dst, srcPort, dstPort, payload)) == 0
  {
    var ip, c := UdpIpHeader(src, dst, payload), UdpChecksum(src, dst, srcPort, dstPort, payload);
    var zeroed := EncodeUdp(UdpFields(srcPort, dstPort, payload)) + payload;
    ChecksumOctets(PseudoHeader(ip, |zeroed|) + zeroed);
    FilledSegmentVerifies(ip, zeroed, 6, Hi(c), Lo(c));
    assert PutField(zeroed, 6, Hi(c), Lo(c)) == UdpSegment(src, dst, srcPort, dstPort, payload);
  }

  /** Only the addresses and the protocol of the IP header enter the pseudo-header. */
  lemma PseudoHeaderDependsOn(a: IPv4Header, b: IPv4Header, segment: seq<Byte>)
    requires a.sourceAddress == b.sourceAddress && a.destAddress == b.destAddress && a.protocol == b.protocol
    ensures SegmentChecksum(a, segment) == SegmentChecksum(b, segment)
  {
  }

  // ---------------------------------------------------------- interception

  const DNS_PORT := 53

  /** What becomes of a packet read from the tunnel. */
  datatype Dispatch =
    | Dropped
    | ToTcp(ip: IPv4Header, tcp: TcpHeader, payload: seq<Byte>)
    | ToDns(ip: IPv4Header, udp: UdpHeader, payload: seq<Byte>)

  function From(packet: seq<Byte>, offset: nat, length: nat): (s: seq<Byte>)
    requires length <= |packet|
  {
    if offset < length then packet[offset..length] else []
  }

  /** Classifies the first `length` octets of a read buffer. */
  function Intercept(packet: seq<Byte>, length: nat): (d: Dispatch)
    requires length <= |packet|
  {
    if length < 20 || packet[0] / 16 != 4 then Dropped
    else
      match ParseIPv4(packet, 0)
      case None => Dropped
      case Some(ip) =>
        if ip.protocol == PROTOCOL_TCP then InterceptTcp(packet, length, ip)
        else if ip.protocol == PROTOCOL_UDP then InterceptUdp(packet, length, ip)
        else Dropped
  }

  function InterceptTcp(packet: seq<Byte>, length: nat, ip: IPv4Header): (d: Dispatch)
    requires length <= |packet| && ip.HeaderLength() >= 0
  {
    var transportOffset := ip.HeaderLength();
    if length < transportOffset + 20 then Dropped
    else if !SegmentVerifies(ip, packet, transportOffset, length) then Dropped
    else
      match ParseTcp(packet, transportOffset)
      case None => Dropped
      case Some(tcp) => ToTcp(ip, tcp, From(packet, transportOffset + tcp.HeaderLength(), length))
  }

  function InterceptUdp(packet: seq<Byte>, length: nat, ip: IPv4Header): (d: Dispatch)
    requires length <= |packet| && ip.HeaderLength() >= 0
  {
    var transportOffset := ip.HeaderLength();
    if length < transportOffset + UDP_HEADER_SIZE then Dropped
    else
      match ParseUdp(packet, transportOffset)
      case None => Dropped
      case Some(udp) =>
        if udp.destPort != DNS_PORT || transportOffset + UDP_HEADER_SIZE >= length then Dropped
        else ToDns(ip, udp, From(packet, transportOffset + UDP_HEADER_SIZE, length))
  }

  /** The IP header a receiver sees for a packet the builder made. */
  function ReceivedIp(h: IPv4Header): (r: IPv4Header)
    requires h.Serializable()
  {
    h.(totalLength := h.totalLength % 0x1_0000, identification := h.identification % 0x1_0000,
       headerChecksum := IPv4Checksum(h))
  }

  /** Reducing the lengths of a header to 16 bits does not change a single octet of it. */
  lemma ReducedSerializesAlike(h: IPv4Header)
    requires h.Serializable()
    ensures var r := h.(totalLength := h.totalLength % 0x1_0000, identification := h.identification % 0x1_0000);
      r.Serializable() && EncodeIPv4(r) == EncodeIPv4(h) && IPv4Checksum(r) == IPv4Checksum(h)
  {
    var r := h.(totalLength := h.totalLength % 0x1_0000, identification := h.identification % 0x1_0000);
    ReducedOctets(h.totalLength);
    ReducedOctets(h.identification);
    assert IPv4Fixed(r, 0, 0) == IPv4Fixed(h, 0, 0);
    assert IPv4Bytes(r, 0, 0) == IPv4Bytes(h, 0, 0);
    var c := IPv4Checksum(h);
    assert IPv4Fixed(r, Hi(c), Lo(c)) == IPv4Fixed(h, Hi(c), Lo(c));
  }

  lemma ReducedOctets(x: int)
    ensures Hi(x % 0x1_0000) == Hi(x) && Lo(x % 0x1_0000) == Lo(x)
  {
    WordRoundTrip(x);
    WordOctets(Hi(x), Lo(x));
  }

  lemma ParseBuiltIp(h: IPv4Header, tail: seq<Byte>)
    requires h.Serializable() && h.version == 4 && 0 <= h.tos < 256 && 0 <= h.flags < 8
    requires 0 <= h.ttl < 256 && 0 <= h.protocol < 256 && h.headerChecksum == 0
    ensures ParseIPv4(EncodeIPv4(h) + tail, 0) == Some(ReceivedIp(h))
  {
    var r := h.(totalLength := h.totalLength % 0x1_0000, identification := h.identification % 0x1_0000);
    ReducedSerializesAlike(h);
    ParseEncodedIPv4(r, tail);
  }

  // ------------------------------------------------ build, then intercept

  /** Where the parts of a packet lie in the read buffer. */
  lemma BufferLayout(h: IPv4Header, header: seq<Byte>, payload: seq<Byte>, rest: seq<Byte>)
    requires h.Serializable() && h.ihl == 5
    ensures var packet := EncodeIPv4(h) + (header + payload);
      && |EncodeIPv4(h)| == 20 && |packet| == 20 + |header| + |payload|
      && packet[..20] == EncodeIPv4(h) && packet[20..] == header + payload
      && packet + rest == EncodeIPv4(h) + (header + payload + rest)
      && packet + rest == EncodeIPv4(h) + header + (payload + rest)
      && (packet + rest)[20..|packet|] == header + payload
      && From(packet + rest, 20 + |header|, |packet|) == payload
  {
  }

  lemma VersionNibble(h: IPv4Header, tail: seq<Byte>, r: IPv4Header)
    requires h.Serializable() && ParseIPv4(EncodeIPv4(h) + tail, 0) == Some(r)
    ensures |EncodeIPv4(h) + tail| >= 20 && (EncodeIPv4(h) + tail)[0] / 16 == 4
  {
  }

  lemma InterceptTcpParts(buffer: seq<Byte>, length: nat, ip: IPv4Header, tcp: TcpHeader)
    requires length <= |buffer| && 40 <= length && buffer[0] / 16 == 4
    requires ParseIPv4(buffer, 0) == Some(ip) && ip.protocol == PROTOCOL_TCP && ip.ihl == 5
    requires SegmentChecksum(ip, buffer[20..length]) == 0
    requires ParseTcp(buffer, 20) == Some(tcp) && tcp.dataOffset == 5
    ensures Intercept(buffer, length) == ToTcp(ip, tcp, From(buffer, 40, length))
  {
  }

  /**
   Build then intercept, TCP: whatever the fields and payload, and whatever lies in the read buffer behind the
   packet, the packet is handed to the TCP sessions with exactly those fields modulo their widths.
   */
  lemma BuiltTcpIsDispatched(src: seq<Byte>, dst: seq<Byte>, f: TcpFields, payload: seq<Byte>, identification: int,
                             rest: seq<Byte>)
    requires |src| == 4 && |dst| == 4
    ensures var packet := TcpPacket(src, dst, f, payload, identification);
      && var c := TcpChecksum(src, dst, f, payload, identification);
      && Intercept(packet + rest, |packet|)
         == ToTcp(IPv4Header(4, 5, 0, (40 + |payload|) % 0x1_0000, identification % 0x1_0000, 2, 0, 64, 6,
                             IPv4Checksum(TcpIpHeader(src, dst, payload, identification)), src, dst),
                  TcpHeader(f.srcPort % 0x1_0000, f.dstPort % 0x1_0000,
                            f.seqNum % 0x1_0000_0000, f.ackNum % 0x1_0000_0000,
                            5, 0, f.flags % 0x200, f.window % 0x1_0000, c, 0),
                  payload)
  {
    var h := TcpIpHeader(src, dst, payload, identification);
    var c := TcpChecksum(src, dst, f, payload, identification);
    var zeroed := EncodeTcp(f.Header()) + payload;
    var header := TcpBytes(f.Header(), Hi(c), Lo(c));
    var packet := TcpPacket(src, dst, f, payload, identification);
    BufferLayout(h, header, payload, rest);
    ParseBuiltIp(h, header + payload + rest);
    VersionNibble(h, header + payload + rest, ReceivedIp(h));
    TcpSegmentSums(src, dst, f, payload, identification);
    PseudoHeaderDependsOn(ReceivedIp(h), h, header + payload);
    ChecksumOctets(PseudoHeader(h, |zeroed|) + zeroed);
    ParseEncodedTcp(f.Header(), Hi(c), Lo(c), EncodeIPv4(h), payload + rest);
    InterceptTcpParts(packet + rest, |packet|, ReceivedIp(h), f.Header().Reduced().(checksum := c));
  }

  lemma InterceptUnverified(buffer: seq<Byte>, length: nat, ip: IPv4Header)
    requires length <= |buffer|
    requires ParseIPv4(buffer, 0) == Some(ip) && ip.protocol == PROTOCOL_TCP && ip.ihl == 5
    requires 20 <= length ==> SegmentChecksum(ip, buffer[20..length]) != 0
    ensures Intercept(buffer, length) == Dropped
  {
  }

  /** One changed octet behind the IP header, and the same packet is dropped. */
  lemma CorruptedTcpIsDropped(src: seq<Byte>, dst: seq<Byte>, f: TcpFields, payload: seq<Byte>, identification: int,
                              rest: seq<Byte>, i: nat, v: Byte)
    requires |src| == 4 && |dst| == 4
    requires var packet := TcpPacket(src, dst, f, payload, identification);
      20 <= i < |packet| && v != packet[i]
    ensures var packet := TcpPacket(src, dst, f, payload, identification);
      Intercept(packet[i := v] + rest, |packet|) == Dropped
  {
    var h := TcpIpHeader(src, dst, payload, identification);
    var segment := TcpSegment(src, dst, f, payload, identification);
    var packet := TcpPacket(src, dst, f, payload, identification);
    BufferLayout(h, segment, [], []);
    var changed := segment[i - 20 := v];
    BufferLayout(h, changed, [], rest);
    assert packet[i := v] == EncodeIPv4(h) + (changed + []);
    assert changed + [] == changed;
    ParseBuiltIp(h, changed + rest);
    TcpSegmentSums(src, dst, f, payload, identification);
    ChangedSegmentFails(h, segment, i - 20, v);
    PseudoHeaderDependsOn(ReceivedIp(h), h, changed);
    InterceptUnverified(packet[i := v] + rest, |packet|, ReceivedIp(h));
  }

  lemma InterceptUdpParts(buffer: seq<Byte>, length: nat, ip: IPv4Header, udp: UdpHeader)
    requires length <= |buffer| && 28 <= length && buffer[0] / 16 == 4
    requires ParseIPv4(buffer, 0) == Some(ip) && ip.protocol == PROTOCOL_UDP && ip.ihl == 5
    requires ParseUdp(buffer, 20) == Some(udp)
    ensures Intercept(buffer, length)
         == if udp.destPort == DNS_PORT && length > 28 then ToDns(ip, udp, From(buffer, 28, length)) else Dropped
  {
  }

  /** Build then intercept, UDP: handed to the DNS relay exactly when addressed to port 53 with a payload. */
  lemma BuiltUdpIsDispatched(src: seq<Byte>, dst: seq<Byte>, srcPort: int, dstPort: int, payload: seq<Byte>,
                             rest: seq<Byte>)
    requires |src| == 4 && |dst| == 4
    ensures var packet := UdpPacket(src, dst, srcPort, dstPort, payload);
      && var c := UdpChecksum(src, dst, srcPort, dstPort, payload);
      && Intercept(packet + rest, |packet|)
         == if dstPort % 0x1_0000 == DNS_PORT && payload != [] then
              ToDns(IPv4Header(4, 5, 0, (28 + |payload|) % 0x1_0000, 0, 2, 0, 64, 17,
                               IPv4Checksum(UdpIpHeader(src, dst, payload)), src, dst),
                    UdpHeader(srcPort % 0x1_0000, DNS_PORT, (8 + |payload|) % 0x1_0000, c), payload)
            else Dropped
  {
    var h := UdpIpHeader(src, dst, payload);
    var u := UdpFields(srcPort, dstPort, payload);
    var c := UdpChecksum(src, dst, srcPort, dstPort, payload);
    var zeroed := EncodeUdp(u) + payload;
    var header := UdpBytes(u, Hi(c), Lo(c));
    var packet := UdpPacket(src, dst, srcPort, dstPort, payload);
    BufferLayout(h, header, payload, rest);
    ParseBuiltIp(h, header + payload + rest);
    VersionNibble(h, header + payload + rest, ReceivedIp(h));
    ChecksumOctets(PseudoHeader(h, |zeroed|) + zeroed);
    ParseEncodedUdp(u, Hi(c), Lo(c), EncodeIPv4(h), payload + rest);
    InterceptUdpParts(packet + rest, |packet|, ReceivedIp(h),
                      UdpHeader(srcPort % 0x1_0000, dstPort % 0x1_0000, u.length % 0x1_0000, c));
  }

  /** Build then verify, UDP: both checksums of the built datagram are accepted. */
  lemma BuiltUdpVerifies(src: seq<Byte>, dst: seq<Byte>, srcPort: int, dstPort: int, payload: seq<Byte>)
    requires |src| == 4 && |dst| == 4
    ensures var packet := UdpPacket(src, dst, srcPort, dstPort, payload);
      && |packet| == 28 + |payload|
      && SegmentVerifies(ReceivedIp(UdpIpHeader(src, dst, payload)), packet, 20, |packet|)
      && Checksum(packet[..20]) == 0
  {
    var h := UdpIpHeader(src, dst, payload);
    var segment := UdpSegment(src, dst, srcPort, dstPort, payload);
    var packet := UdpPacket(src, dst, srcPort, dstPort, payload);
    BufferLayout(h, segment, [], []);
    assert segment + [] == segment && packet[20..|packet|] == segment;
    EncodedIPv4Verifies(h);
    UdpSegmentSums(src, dst, srcPort, dstPort, payload);
    PseudoHeaderDependsOn(ReceivedIp(h), h, segment);
  }

  /** Build then verify, TCP. */
  lemma BuiltTcpVerifies(src: seq<Byte>, dst: seq<Byte>, f: TcpFields, payload: seq<Byte>, identification: int)
    requires |src| == 4 && |dst| == 4
    ensures var packet := TcpPacket(src, dst, f, payload, identification);
      && |packet| == 40 + |payload|
      && SegmentVerifies(ReceivedIp(TcpIpHeader(src, dst, payload, identification)), packet, 20, |packet|)
      && Checksum(packet[..20]) == 0
  {
    var h := TcpIpHeader(src, dst, payload, identification);
    var segment := TcpSegment(src, dst, f, payload, identification);
    var packet := TcpPacket(src, dst, f, payload, identification);
    BufferLayout(h, segment, [], []);
    assert segment + [] == segment && packet[20..|packet|] == segment;
    EncodedIPv4Verifies(h);
    TcpSegmentSums(src, dst, f, payload, identification);
    PseudoHeaderDependsOn(ReceivedIp(h), h, segment);
  }

  // --------------------------------- the zero checksum of RFC 768

  /** The words that enter the checksum of a UDP datagram, in terms of the builder's arguments. */
  function UdpWords(src: seq<Byte>, dst: seq<Byte>, srcPort: int, dstPort: int, payload: seq<Byte>): (n: nat) {
    WordSum(src) + WordSum(dst) + PROTOCOL_UDP + 2 * ((UDP_HEADER_SIZE + |payload|) % 0x1_0000)
    + srcPort % 0x1_0000 + dstPort % 0x1_0000 + WordSum(payload)
  }

  lemma WordSumFirst(hi: Byte, lo: Byte, rest: seq<Byte>)
    ensures WordSum([hi, lo] + rest) == Word(hi, lo) + WordSum(rest)
  {
    WordSumPair(hi, lo);
    WordSumAppend([hi, lo], rest);
  }

  lemma WordSumField(x: int, rest: seq<Byte>)
    ensures WordSum([Hi(x), Lo(x)] + rest) == x % 0x1_0000 + WordSum(rest)
  {
    WordSumFirst(Hi(x), Lo(x), rest);
    WordRoundTrip(x);
  }

  lemma UdpHeaderWords(h: UdpHeader, payload: seq<Byte>)
    ensures WordSum(UdpBytes(h, 0, 0) + payload)
         == h.sourcePort % 0x1_0000 + h.destPort % 0x1_0000 + h.length % 0x1_0000 + WordSum(payload)
  {
    var t3 := [0, 0] + payload;
    var t2 := [Hi(h.length), Lo(h.length)] + t3;
    var t1 := [Hi(h.destPort), Lo(h.destPort)] + t2;
    assert UdpBytes(h, 0, 0) + payload == [Hi(h.sourcePort), Lo(h.sourcePort)] + t1;
    WordSumField(h.sourcePort, t1);
    WordSumField(h.destPort, t2);
    WordSumField(h.length, t3);
    WordSumFirst(0, 0, payload);
  }

  lemma ProtocolAndLengthWords(protocol: Byte, n: nat, segment: seq<Byte>)
    ensures WordSum([0, protocol, Hi(n), Lo(n)] + segment) == protocol + n % 0x1_0000 + WordSum(segment)
  {
    assert [0, protocol, Hi(n), Lo(n)] + segment == [0, protocol] + ([Hi(n), Lo(n)] + segment);
    WordSumFirst(0, protocol, [Hi(n), Lo(n)] + segment);
    WordSumField(n, segment);
  }

  lemma PrefixedWords(a: seq<Byte>, b: seq<Byte>, head: seq<Byte>, segment: seq<Byte>)
    requires |a| == 4 && |b| == 4
    ensures WordSum(a + b + head + segment) == WordSum(a) + WordSum(b) + WordSum(head + segment)
  {
    assert a + b + head + segment == a + (b + (head + segment));
    WordSumAppend(a, b + (head + segment));
    WordSumAppend(b, head + segment);
  }

  lemma PseudoHeaderWords(ip: IPv4Header, segment: seq<Byte>)
    requires |ip.sourceAddress| == 4 && |ip.destAddress| == 4
    ensures WordSum(PseudoHeader(ip, |segment|) + segment)
         == WordSum(ip.sourceAddress) + WordSum(ip.destAddress) + Lo(ip.protocol) + |segment| % 0x1_0000
            + WordSum(segment)
  {
    PrefixedWords(ip.sourceAddress, ip.destAddress, [0, Lo(ip.protocol), Hi(|segment|), Lo(|segment|)], segment);
    ProtocolAndLengthWords(Lo(ip.protocol), |segment|, segment);
  }

  lemma UdpChecksumZero(src: seq<Byte>, dst: seq<Byte>, srcPort: int, dstPort: int, payload: seq<Byte>)
    requires |src| == 4 && |dst| == 4
    ensures UdpChecksum(src, dst, srcPort, dstPort, payload) == 0
       <==> UdpWords(src, dst, srcPort, dstPort, payload) % 0xFFFF == 0
  {
    var ip, segment := UdpIpHeader(src, dst, payload), EncodeUdp(UdpFields(srcPort, dstPort, payload)) + payload;
    UdpHeaderWords(UdpFields(srcPort, dstPort, payload), payload);
    PseudoHeaderWords(ip, segment);
    ZeroChecksum(PseudoHeader(ip, |segment|) + segment);
  }

  /** The checksum field of a built datagram holds the computed checksum. */
  lemma UdpChecksumField(src: seq<Byte>, dst: seq<Byte>, srcPort: int, dstPort: int, payload: seq<Byte>)
    requires |src| == 4 && |dst| == 4
    ensures var packet := UdpPacket(src, dst, srcPort, dstPort, payload);
      |packet| >= 28 && Word(packet[26], packet[27]) == UdpChecksum(src, dst, srcPort, dstPort, payload)
  {
    var c := UdpChecksum(src, dst, srcPort, dstPort, payload);
    var header := UdpBytes(UdpFields(srcPort, dstPort, payload), Hi(c), Lo(c));
    BufferLayout(UdpIpHeader(src, dst, payload), header, payload, []);
    assert (header + payload)[6] == Hi(c) && (header + payload)[7] == Lo(c);
    ChecksumOctets(PseudoHeader(UdpIpHeader(src, dst, payload), |header| + |payload|)
                   + (EncodeUdp(UdpFields(srcPort, dstPort, payload)) + payload));
  }

  /** What RFC 768 has a sender put into the field: the checksum, but all ones in the place of zero. */
  function TransmittedChecksum(c: int): (field: int) {
    if c == 0 then 0xFFFF else c
  }

  /**
   A built datagram carries what RFC 768 asks for if and only if the words of the builder's arguments do not sum to a
   multiple of 2^16 - 1; in all other cases the field is zero, which says that there is no checksum.
   */
  lemma ZeroChecksumIsSent(src: seq<Byte>, dst: seq<Byte>, srcPort: int, dstPort: int, payload: seq<Byte>)
    requires |src| == 4 && |dst| == 4
    ensures var packet := UdpPacket(src, dst, srcPort, dstPort, payload);
      && |packet| >= 28
      && (Word(packet[26], packet[27]) == TransmittedChecksum(UdpChecksum(src, dst, srcPort, dstPort, payload))
          <==> UdpWords(src, dst, srcPort, dstPort, payload) % 0xFFFF != 0)
      && (packet[26] == 0 && packet[27] == 0
          <==> UdpWords(src, dst, srcPort, dstPort, payload) % 0xFFFF == 0)
  {
    UdpChecksumField(src, dst, srcPort, dstPort, payload);
    UdpChecksumZero(src, dst, srcPort, dstPort, payload);
  }

  /** A datagram whose words sum to exactly 2^16 - 1. */
  lemma ZeroChecksumDatagram()
    ensures var packet := UdpPacket([0, 0, 0, 0], [0, 0, 0, 0], 65449, 53, []);
      |packet| == 28 && packet[26] == 0 && packet[27] == 0
  {
    var zero: seq<Byte> := [0, 0, 0, 0];
    assert zero == [0, 0] + [0, 0];
    WordSumFirst(0, 0, [0, 0]);
    WordSumPair(0, 0);
    assert UdpWords(zero, zero, 65449, 53, []) == 0xFFFF;
    ZeroChecksumIsSent(zero, zero, 65449, 53, []);
    BuiltUdpVerifies(zero, zero, 65449, 53, []);
  }
}
