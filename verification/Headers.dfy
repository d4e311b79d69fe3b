/** IPv4, TCP and UDP headers: serialisation to and parsing from network byte order. */
module Headers {
  import opened Bytes
  import opened Checksums
  import opened Wrappers

  const PROTOCOL_TCP := 6
  const PROTOCOL_UDP := 17

  function Zeros(n: nat): (s: seq<Byte>) {
    seq(n, _ => 0)
  }

  // --------------------------------------------------------------------- IPv4

  datatype IPv4Header = IPv4Header(
    version: int, ihl: int, tos: int, totalLength: int, identification: int, flags: int, fragmentOffset: int,
    ttl: int, protocol: int, headerChecksum: int, sourceAddress: seq<Byte>, destAddress: seq<Byte>)
  {
    /** What serialisation needs: room for the fixed part, bit fields that do not overlap, 4-octet addresses. */
    predicate Serializable() {
      5 <= ihl < 16 && 0 <= fragmentOffset < 0x2000 && |sourceAddress| == 4 && |destAddress| == 4
    }

    /** Every field has the width the wire format gives it. */
    predicate InRange() {
      && Serializable()
      && version == 4 && 0 <= tos < 256 && 0 <= totalLength < 0x1_0000 && 0 <= identification < 0x1_0000
      && 0 <= flags < 8 && 0 <= ttl < 256 && 0 <= protocol < 256 && 0 <= headerChecksum < 0x1_0000
    }

    function HeaderLength(): int {
      ihl * 4
    }
  }

  /** The first 12 octets, with a given checksum field. */
  function IPv4Fixed(h: IPv4Header, ckHi: Byte, ckLo: Byte): (s: seq<Byte>) {
    [Lo(h.version * 16 + h.ihl), Lo(h.tos), Hi(h.totalLength), Lo(h.totalLength),
     Hi(h.identification), Lo(h.identification),
     Hi(h.flags * 0x2000 + h.fragmentOffset), Lo(h.flags * 0x2000 + h.fragmentOffset),
     Lo(h.ttl), Lo(h.protocol), ckHi, ckLo]
  }

  /** The serialised header with a given checksum field; the options area is zero. */
  function IPv4Bytes(h: IPv4Header, ckHi: Byte, ckLo: Byte): (s: seq<Byte>)
    requires h.Serializable()
  {
    IPv4Fixed(h, ckHi, ckLo) + h.sourceAddress + h.destAddress + Zeros(h.HeaderLength() - 20)
  }

  function IPv4Checksum(h: IPv4Header): (c: int)
    requires h.Serializable()
  {
    Checksum(IPv4Bytes(h, 0, 0))
  }

  function EncodeIPv4(h: IPv4Header): (s: seq<Byte>)
    requires h.Serializable()
  {
    IPv4Bytes(h, Hi(IPv4Checksum(h)), Lo(IPv4Checksum(h)))
  }

  lemma IPv4ChecksumField(h: IPv4Header, ckHi: Byte, ckLo: Byte)
    requires h.Serializable()
    ensures IPv4Bytes(h, ckHi, ckLo) == PutField(IPv4Bytes(h, 0, 0), 10, ckHi, ckLo)
  {
  }

  method WriteWord(bytes: array<Byte>, at: nat, hi: Byte, lo: Byte)
    requires at + 1 < bytes.Length
    modifies bytes
    ensures bytes[..] == old(bytes[..][at := hi][at + 1 := lo])
  {
    bytes[at], bytes[at + 1] := hi, lo;
  }

  method WriteIPv4Sizes(h: IPv4Header, bytes: array<Byte>)
    requires bytes.Length >= 20
    modifies bytes
    ensures bytes[..] == IPv4Fixed(h, 0, 0)[..6] + old(bytes[6..])
  {
    ghost var rest := bytes[6..];
    WriteWord(bytes, 0, Lo(h.version * 16 + h.ihl), Lo(h.tos));
    WriteWord(bytes, 2, Hi(h.totalLength), Lo(h.totalLength));
    WriteWord(bytes, 4, Hi(h.identification), Lo(h.identification));
    assert bytes[..] == IPv4Fixed(h, 0, 0)[..6] + rest;
  }

  method WriteIPv4Control(h: IPv4Header, bytes: array<Byte>)
    requires bytes.Length >= 20
    modifies bytes
    ensures bytes[..] == old(bytes[..6]) + IPv4Fixed(h, 0, 0)[6..] + old(bytes[12..])
  {
    ghost var front, rest := bytes[..6], bytes[12..];
    var flagsAndOffset := h.flags * 0x2000 + h.fragmentOffset;
    WriteWord(bytes, 6, Hi(flagsAndOffset), Lo(flagsAndOffset));
    WriteWord(bytes, 8, Lo(h.ttl), Lo(h.protocol));
    WriteWord(bytes, 10, 0, 0);
    assert bytes[..] == front + IPv4Fixed(h, 0, 0)[6..] + rest;
  }

  method IPv4ToBytes(h: IPv4Header) returns (bytes: array<Byte>)
    requires h.Serializable()
    ensures fresh(bytes) && bytes[..] == EncodeIPv4(h)
  {
    bytes := new Byte[h.HeaderLength()](_ => 0);
    WriteIPv4Sizes(h, bytes);
    WriteIPv4Control(h, bytes);
    assert bytes[..] == IPv4Fixed(h, 0, 0) + Zeros(h.HeaderLength() - 12);
    CopyInto(h.sourceAddress, bytes, 12);
    assert bytes[..] == IPv4Fixed(h, 0, 0) + h.sourceAddress + Zeros(h.HeaderLength() - 16);
    CopyInto(h.destAddress, bytes, 16);
    assert bytes[..] == IPv4Bytes(h, 0, 0);
    var checksum := IpChecksum(bytes, 0, bytes.Length);
    assert bytes[0..bytes.Length] == bytes[..];
    bytes[10], bytes[11] := Hi(checksum), Lo(checksum);
    IPv4ChecksumField(h, Hi(checksum), Lo(checksum));
  }

  /** The copy loop's step: one more octet of `src` takes the place of one of `behind`. */
  lemma CopyStep(front: seq<Byte>, src: seq<Byte>, i: nat, behind: seq<Byte>, before: seq<Byte>, after: seq<Byte>)
    requires i < |src| && behind != []
    requires before == front + src[..i] + behind && after == before[|front| + i := src[i]]
    ensures after == front + src[..i + 1] + behind[1..]
  {
  }

  /** `System.arraycopy` of all of `src` to position `at` of `dst`. */
  method CopyInto(src: seq<Byte>, dst: array<Byte>, at: nat)
    requires at + |src| <= dst.Length
    modifies dst
    ensures dst[..] == old(dst[..at]) + src + old(dst[at + |src|..])
  {
    ghost var front, behind := dst[..at], dst[at..];
    for i := 0 to |src|
      invariant dst[..] == front + src[..i] + behind[i..]
    {
      CopyStep(front, src, i, behind[i..], dst[..], dst[..][at + i := src[i]]);
      dst[at + i] := src[i];
    }
  }

  /** Parses the header at `offset`; `None` stands for the parser's `IllegalArgumentException`. */
  function ParseIPv4(b: seq<Byte>, offset: nat): (r: Option<IPv4Header>) {
    if |b| - offset < 20 then None
    else
      var version, ihl := b[offset] / 16, b[offset] % 16;
      if version != 4 || ihl < 5 || |b| - offset < ihl * 4 then None
      else
        var flagsAndOffset := Word(b[offset + 6], b[offset + 7]);
        Some(IPv4Header(version, ihl, b[offset + 1], Word(b[offset + 2], b[offset + 3]),
                        Word(b[offset + 4], b[offset + 5]), flagsAndOffset / 0x2000, flagsAndOffset % 0x2000,
                        b[offset + 8], b[offset + 9], Word(b[offset + 10], b[offset + 11]),
                        b[offset + 12..offset + 16], b[offset + 16..offset + 20]))
  }

  lemma FlagsFromWord(w: nat, flags: int, fragmentOffset: int)
    requires 0 <= fragmentOffset < 0x2000 && w == flags * 0x2000 + fragmentOffset
    ensures w / 0x2000 == flags && w % 0x2000 == fragmentOffset
  {
  }

  lemma ShortWord(x: int)
    requires 0 <= x < 0x1_0000
    ensures Word(Hi(x), Lo(x)) == x
  {
    WordRoundTrip(x);
  }

  lemma FlagsAndOffset(flags: int, fragmentOffset: int, w: nat)
    requires 0 <= flags < 8 && 0 <= fragmentOffset < 0x2000
    requires w == Word(Hi(flags * 0x2000 + fragmentOffset), Lo(flags * 0x2000 + fragmentOffset))
    ensures w / 0x2000 == flags && w % 0x2000 == fragmentOffset
  {
    ShortWord(flags * 0x2000 + fragmentOffset);
    FlagsFromWord(w, flags, fragmentOffset);
  }

  lemma ShortFields(h: IPv4Header)
    requires h.InRange()
    ensures Word(Hi(h.totalLength), Lo(h.totalLength)) == h.totalLength
    ensures Word(Hi(h.identification), Lo(h.identification)) == h.identification
    ensures Lo(h.version * 16 + h.ihl) / 16 == h.version && Lo(h.version * 16 + h.ihl) % 16 == h.ihl
    ensures Lo(h.tos) == h.tos && Lo(h.ttl) == h.ttl && Lo(h.protocol) == h.protocol
  {
    ShortWord(h.totalLength);
    ShortWord(h.identification);
  }

  lemma IPv4Layout(h: IPv4Header, ckHi: Byte, ckLo: Byte, tail: seq<Byte>)
    requires h.Serializable()
    ensures var b := IPv4Bytes(h, ckHi, ckLo) + tail;
      && |b| >= h.HeaderLength() && |b| >= 20
      && b[..12] == IPv4Fixed(h, ckHi, ckLo) && b[12..16] == h.sourceAddress && b[16..20] == h.destAddress
  {
    var b := IPv4Bytes(h, ckHi, ckLo) + tail;
    assert b == IPv4Fixed(h, ckHi, ckLo) + (h.sourceAddress + (h.destAddress + (Zeros(h.HeaderLength() - 20) + tail)));
  }

  lemma ParseLaidOut(h: IPv4Header, ckHi: Byte, ckLo: Byte, b: seq<Byte>)
    requires h.InRange() && |b| >= h.HeaderLength() && |b| >= 20
    requires forall i | 0 <= i < 12 :: b[i] == IPv4Fixed(h, ckHi, ckLo)[i]
    requires b[12..16] == h.sourceAddress && b[16..20] == h.destAddress
    ensures ParseIPv4(b, 0) == Some(h.(headerChecksum := Word(ckHi, ckLo)))
  {
    ShortFields(h);
    FlagsAndOffset(h.flags, h.fragmentOffset, Word(b[6], b[7]));
  }

  lemma ParseIPv4Bytes(h: IPv4Header, ckHi: Byte, ckLo: Byte, tail: seq<Byte>)
    requires h.InRange()
    ensures ParseIPv4(IPv4Bytes(h, ckHi, ckLo) + tail, 0) == Some(h.(headerChecksum := Word(ckHi, ckLo)))
  {
    var b := IPv4Bytes(h, ckHi, ckLo) + tail;
    IPv4Layout(h, ckHi, ckLo, tail);
    assert forall i | 0 <= i < 12 :: b[i] == b[..12][i];
    ParseLaidOut(h, ckHi, ckLo, b);
  }

  /** Parsing a serialised header gives it back with the checksum field recomputed. */
  lemma ParseEncodedIPv4(h: IPv4Header, tail: seq<Byte>)
    requires h.InRange()
    ensures ParseIPv4(EncodeIPv4(h) + tail, 0) == Some(h.(headerChecksum := IPv4Checksum(h)))
  {
    var c := IPv4Checksum(h);
    ZeroChecksum(IPv4Bytes(h, 0, 0));
    ShortWord(c);
    ParseIPv4Bytes(h, Hi(c), Lo(c), tail);
  }

  /** A serialised header passes the checksum test. */
  lemma EncodedIPv4Verifies(h: IPv4Header)
    requires h.Serializable()
    ensures Checksum(EncodeIPv4(h)) == 0
  {
    var s, c := IPv4Bytes(h, 0, 0), IPv4Checksum(h);
    ZeroChecksum(s);
    WordRoundTrip(c);
    IPv4ChecksumField(h, Hi(c), Lo(c));
    StoredChecksumVerifies(s, 10, Hi(c), Lo(c));
  }

  lemma WordOctets(hi: Byte, lo: Byte)
    ensures Hi(Word(hi, lo)) == hi && Lo(Word(hi, lo)) == lo
  {
  }

  lemma OctetNibbles(x: Byte)
    ensures x / 16 * 16 + x % 16 == x
  {
  }

  lemma OctetIsLo(x: int, octet: Byte)
    requires x == octet
    ensures Lo(x) == octet
  {
  }

  lemma WordIsPair(x: int, hi: Byte, lo: Byte)
    requires x == Word(hi, lo)
    ensures Hi(x) == hi && Lo(x) == lo
  {
  }

  lemma FlagsAndOffsetBack(w: nat)
    requires w < 0x1_0000
    ensures w / 0x2000 * 0x2000 + w % 0x2000 == w && w / 0x2000 < 8
  {
  }

  lemma ParsedFields(b: seq<Byte>, h: IPv4Header)
    requires |b| == 20 && ParseIPv4(b, 0) == Some(h)
    ensures h.ihl == 5 && h.InRange()
    ensures h.version * 16 + h.ihl == b[0] && h.tos == b[1] && h.ttl == b[8] && h.protocol == b[9]
    ensures h.totalLength == Word(b[2], b[3]) && h.identification == Word(b[4], b[5])
    ensures h.flags * 0x2000 + h.fragmentOffset == Word(b[6], b[7])
    ensures h.sourceAddress == b[12..16] && h.destAddress == b[16..20]
  {
    OctetNibbles(b[0]);
    FlagsAndOffsetBack(Word(b[6], b[7]));
  }

  /** Equal octets, taken one by one, make equal fixed parts. */
  lemma FixedPartOctets(b: seq<Byte>, h: IPv4Header)
    requires |b| == 20
    requires Lo(h.version * 16 + h.ihl) == b[0] && Lo(h.tos) == b[1] && Lo(h.ttl) == b[8] && Lo(h.protocol) == b[9]
    requires Hi(h.totalLength) == b[2] && Lo(h.totalLength) == b[3]
    requires Hi(h.identification) == b[4] && Lo(h.identification) == b[5]
    requires Hi(h.flags * 0x2000 + h.fragmentOffset) == b[6] && Lo(h.flags * 0x2000 + h.fragmentOffset) == b[7]
    ensures IPv4Fixed(h, b[10], b[11]) == b[..12]
  {
    assert b[..12] == [b[0], b[1], b[2], b[3], b[4], b[5], b[6], b[7], b[8], b[9], b[10], b[11]];
  }

  lemma FixedPartBack(b: seq<Byte>, h: IPv4Header)
    requires |b| == 20
    requires h.version * 16 + h.ihl == b[0] && h.tos == b[1] && h.ttl == b[8] && h.protocol == b[9]
    requires h.totalLength == Word(b[2], b[3]) && h.identification == Word(b[4], b[5])
    requires h.flags * 0x2000 + h.fragmentOffset == Word(b[6], b[7])
    ensures IPv4Fixed(h, b[10], b[11]) == b[..12]
  {
    OctetIsLo(h.version * 16 + h.ihl, b[0]);
    OctetIsLo(h.tos, b[1]);
    OctetIsLo(h.ttl, b[8]);
    OctetIsLo(h.protocol, b[9]);
    WordIsPair(h.totalLength, b[2], b[3]);
    WordIsPair(h.identification, b[4], b[5]);
    WordIsPair(h.flags * 0x2000 + h.fragmentOffset, b[6], b[7]);
    FixedPartOctets(b, h);
  }

  /** A 20-octet header is put together again from its fields. */
  lemma FieldsReserialize(b: seq<Byte>, h: IPv4Header)
    requires |b| == 20 && h.Serializable() && h.ihl == 5 && IPv4Fixed(h, b[10], b[11]) == b[..12]
    requires h.sourceAddress == b[12..16] && h.destAddress == b[16..20]
    ensures IPv4Bytes(h, b[10], b[11]) == b && IPv4Bytes(h, 0, 0) == PutField(b, 10, 0, 0)
  {
    assert b[..12] + b[12..16] + b[16..20] + Zeros(0) == b;
    IPv4ChecksumField(h, b[10], b[11]);
    PutBackField(IPv4Bytes(h, 0, 0), b, 10);
  }

  lemma ParsedFieldsReserialize(b: seq<Byte>, h: IPv4Header)
    requires |b| == 20 && ParseIPv4(b, 0) == Some(h)
    ensures h.InRange() && IPv4Bytes(h, b[10], b[11]) == b
    ensures IPv4Bytes(h, 0, 0) == PutField(b, 10, 0, 0)
  {
    ParsedFields(b, h);
    FixedPartBack(b, h);
    FieldsReserialize(b, h);
  }

  /** Clearing a field undoes having filled it. */
  lemma PutBackField(s: seq<Byte>, b: seq<Byte>, at: nat)
    requires at + 1 < |s| && |b| == |s| && b == PutField(s, at, b[at], b[at + 1])
    requires s[at] == 0 && s[at + 1] == 0
    ensures PutField(b, at, 0, 0) == s
  {
  }

  lemma RecomputedChecksum(b: seq<Byte>, h: IPv4Header, w: nat)
    requires |b| == 20 && ParseIPv4(b, 0) == Some(h) && Checksum(b) == 0 && w == Word(b[10], b[11])
    ensures h.Serializable() && IPv4Checksum(h) == if w == 0xFFFF then 0 else w
  {
    ParsedFieldsReserialize(b, h);
    WordSumPut(b, 10, 0, 0);
    FieldWithinSum(b, 10);
    VersionOctetInSum(b);
    ComplementOfRest(b, WordSum(PutField(b, 10, 0, 0)), w);
  }

  /**
   Serialising a parsed, checksum-valid, option-free header reproduces it exactly when its stored checksum is not
   0xFFFF; in that case the recomputed checksum is 0x0000, the other representation of zero.
   */
  lemma EncodeParsedIPv4(b: seq<Byte>, h: IPv4Header)
    requires |b| == 20 && ParseIPv4(b, 0) == Some(h) && Checksum(b) == 0
    ensures h.Serializable()
    ensures EncodeIPv4(h) == b <==> Word(b[10], b[11]) != 0xFFFF
    ensures Word(b[10], b[11]) == 0xFFFF ==> EncodeIPv4(h) == PutField(b, 10, 0, 0)
  {
    RecomputedChecksum(b, h, Word(b[10], b[11]));
    ParsedFieldsReserialize(b, h);
    ChecksumPutBack(b, h, Word(b[10], b[11]));
  }

  lemma ChecksumPutBack(b: seq<Byte>, h: IPv4Header, w: nat)
    requires |b| == 20 && h.Serializable() && IPv4Bytes(h, 0, 0) == PutField(b, 10, 0, 0)
    requires w == Word(b[10], b[11]) && IPv4Checksum(h) == if w == 0xFFFF then 0 else w
    ensures EncodeIPv4(h) == b <==> w != 0xFFFF
    ensures w == 0xFFFF ==> EncodeIPv4(h) == PutField(b, 10, 0, 0)
  {
    var c := IPv4Checksum(h);
    IPv4ChecksumField(h, Hi(c), Lo(c));
    WordOctets(b[10], b[11]);
    if w == 0xFFFF {
      assert b[10] == 0xFF && PutField(b, 10, 0, 0)[10] == 0;
    }
  }

  lemma VersionOctetInSum(b: seq<Byte>)
    requires |b| >= 12 && b[0] > 0
    ensures WordSum(PutField(b, 10, 0, 0)) > 0
  {
    FieldWithinSum(PutField(b, 10, 0, 0), 0);
  }

  /** The checksum field of a valid buffer is the checksum of the rest, or 0xFFFF where that is zero. */
  lemma ComplementOfRest(b: seq<Byte>, rest: nat, w: nat)
    requires Checksum(b) == 0 && |b| >= 12 && w == Word(b[10], b[11])
    requires rest == WordSum(PutField(b, 10, 0, 0)) && rest > 0 && WordSum(b) == rest + w
    ensures Checksum(PutField(b, 10, 0, 0)) == (if w == 0xFFFF then 0 else w)
  {
    var t := PutField(b, 10, 0, 0);
    ZeroChecksum(b);
    ZeroChecksum(t);
    ComplementCompletes(rest);
    SmallShiftOfMultiple(rest + w, Checksum(t) - w);
  }

  // ---------------------------------------------------------------------- TCP

  datatype TcpHeader = TcpHeader(
    sourcePort: int, destPort: int, sequenceNumber: int, ackNumber: int, dataOffset: int, reserved: int,
    flags: int, window: int, checksum: int, urgentPointer: int)
  {
    predicate Serializable() {
      5 <= dataOffset < 16 && 0 <= reserved < 8
    }

    function HeaderLength(): int {
      dataOffset * 4
    }

    /** The header with every field reduced to the width the wire format gives it. */
    function Reduced(): TcpHeader {
      this.(sourcePort := sourcePort % 0x1_0000, destPort := destPort % 0x1_0000,
            sequenceNumber := sequenceNumber % 0x1_0000_0000, ackNumber := ackNumber % 0x1_0000_0000,
            flags := flags % 0x200, window := window % 0x1_0000, checksum := checksum % 0x1_0000,
            urgentPointer := urgentPointer % 0x1_0000)
    }
  }

  function TcpFixed(h: TcpHeader, ckHi: Byte, ckLo: Byte): (s: seq<Byte>) {
    [Hi(h.sourcePort), Lo(h.sourcePort), Hi(h.destPort), Lo(h.destPort)]
    + Quad(h.sequenceNumber) + Quad(h.ackNumber)
    + [Lo(h.dataOffset * 16 + h.reserved * 2 + h.flags / 256 % 2), Lo(h.flags), Hi(h.window), Lo(h.window),
       ckHi, ckLo, Hi(h.urgentPointer), Lo(h.urgentPointer)]
  }

  function TcpBytes(h: TcpHeader, ckHi: Byte, ckLo: Byte): (s: seq<Byte>)
    requires h.Serializable()
  {
    TcpFixed(h, ckHi, ckLo) + Zeros(h.HeaderLength() - 20)
  }

  function EncodeTcp(h: TcpHeader): (s: seq<Byte>)
    requires h.Serializable()
  {
    TcpBytes(h, Hi(h.checksum), Lo(h.checksum))
  }

  lemma TcpChecksumField(h: TcpHeader, ckHi: Byte, ckLo: Byte)
    requires h.Serializable()
    ensures TcpBytes(h, ckHi, ckLo) == PutField(TcpBytes(h, 0, 0), 16, ckHi, ckLo)
  {
  }

  method WriteQuad(bytes: array<Byte>, at: nat, value: int)
    requires at + 3 < bytes.Length
    modifies bytes
    ensures bytes[..] == old(bytes[..at]) + Quad(value) + old(bytes[at + 4..])
  {
    var octets := Quad(value);
    bytes[at], bytes[at + 1], bytes[at + 2], bytes[at + 3] := octets[0], octets[1], octets[2], octets[3];
  }

  method WriteTcpAddressing(h: TcpHeader, bytes: array<Byte>)
    requires bytes.Length >= 20
    modifies bytes
    ensures bytes[..] == TcpFixed(h, 0, 0)[..12] + old(bytes[12..])
  {
    ghost var rest := bytes[12..];
    WriteWord(bytes, 0, Hi(h.sourcePort), Lo(h.sourcePort));
    WriteWord(bytes, 2, Hi(h.destPort), Lo(h.destPort));
    WriteQuad(bytes, 4, h.sequenceNumber);
    WriteQuad(bytes, 8, h.ackNumber);
    assert bytes[..4] == TcpFixed(h, 0, 0)[..4];
    assert bytes[..] == TcpFixed(h, 0, 0)[..12] + rest;
  }

  method WriteTcpControl(h: TcpHeader, bytes: array<Byte>)
    requires bytes.Length >= 20
    modifies bytes
    ensures bytes[..] == old(bytes[..12]) + TcpFixed(h, Hi(h.checksum), Lo(h.checksum))[12..] + old(bytes[20..])
  {
    ghost var front, rest := bytes[..12], bytes[20..];
    var ns := h.flags / 256 % 2;
    WriteWord(bytes, 12, Lo(h.dataOffset * 16 + h.reserved * 2 + ns), Lo(h.flags));
    WriteWord(bytes, 14, Hi(h.window), Lo(h.window));
    WriteWord(bytes, 16, Hi(h.checksum), Lo(h.checksum));
    WriteWord(bytes, 18, Hi(h.urgentPointer), Lo(h.urgentPointer));
    assert bytes[..] == front + TcpFixed(h, Hi(h.checksum), Lo(h.checksum))[12..] + rest;
  }

  method TcpToBytes(h: TcpHeader) returns (bytes: array<Byte>)
    requires h.Serializable()
    ensures fresh(bytes) && bytes[..] == EncodeTcp(h)
  {
    bytes := new Byte[h.HeaderLength()](_ => 0);
    WriteTcpAddressing(h, bytes);
    WriteTcpControl(h, bytes);
    assert bytes[..] == EncodeTcp(h);
  }

  function ParseTcp(b: seq<Byte>, offset: nat): (r: Option<TcpHeader>) {
    if |b| - offset < 20 then None
    else
      var dataOffset, reserved, ns := b[offset + 12] / 16, b[offset + 12] / 2 % 8, b[offset + 12] % 2;
      if dataOffset < 5 then None
      else
        Some(TcpHeader(Word(b[offset], b[offset + 1]), Word(b[offset + 2], b[offset + 3]),
                       Word32(b[offset + 4], b[offset + 5], b[offset + 6], b[offset + 7]),
                       Word32(b[offset + 8], b[offset + 9], b[offset + 10], b[offset + 11]),
                       dataOffset, reserved, Word(ns, b[offset + 13]),
                       Word(b[offset + 14], b[offset + 15]), Word(b[offset + 16], b[offset + 17]),
                       Word(b[offset + 18], b[offset + 19])))
  }

  lemma FlagsRoundTrip(flags: int)
    ensures Word(flags / 256 % 2, Lo(flags)) == flags % 0x200
  {
    var q, r := flags / 0x200, flags % 0x200;
    assert flags == 256 * (2 * q + r / 256) + r % 256;
    assert flags / 256 == 2 * q + r / 256;
  }

  lemma OffsetOctet(dataOffset: int, reserved: int, ns: int)
    requires 5 <= dataOffset < 16 && 0 <= reserved < 8 && 0 <= ns < 2
    ensures var b := Lo(dataOffset * 16 + reserved * 2 + ns);
      b / 16 == dataOffset && b / 2 % 8 == reserved && b % 2 == ns
  {
  }

  /** Parsing a serialised header, wherever it lies in a buffer, gives it back reduced to the field widths. */
  lemma ParseEncodedTcp(h: TcpHeader, ckHi: Byte, ckLo: Byte, front: seq<Byte>, tail: seq<Byte>)
    requires h.Serializable()
    ensures ParseTcp(front + TcpBytes(h, ckHi, ckLo) + tail, |front|)
         == Some(h.Reduced().(checksum := Word(ckHi, ckLo)))
  {
    var b := front + TcpBytes(h, ckHi, ckLo) + tail;
    assert b[|front|..|front| + 20] == TcpFixed(h, ckHi, ckLo);
    WordRoundTrip(h.sourcePort);
    WordRoundTrip(h.destPort);
    QuadRoundTrip(h.sequenceNumber);
    QuadRoundTrip(h.ackNumber);
    OffsetOctet(h.dataOffset, h.reserved, h.flags / 256 % 2);
    FlagsRoundTrip(h.flags);
    WordRoundTrip(h.window);
    WordRoundTrip(h.urgentPointer);
  }

  // ---------------------------------------------------------------------- UDP

  const UDP_HEADER_SIZE := 8

  datatype UdpHeader = UdpHeader(sourcePort: int, destPort: int, length: int, checksum: int)

  function UdpBytes(h: UdpHeader, ckHi: Byte, ckLo: Byte): (s: seq<Byte>) {
    [Hi(h.sourcePort), Lo(h.sourcePort), Hi(h.destPort), Lo(h.destPort), Hi(h.length), Lo(h.length), ckHi, ckLo]
  }

  function EncodeUdp(h: UdpHeader): (s: seq<Byte>) {
    UdpBytes(h, Hi(h.checksum), Lo(h.checksum))
  }

  method UdpToBytes(h: UdpHeader) returns (bytes: array<Byte>)
    ensures fresh(bytes) && bytes[..] == EncodeUdp(h)
  {
    bytes := new Byte[UDP_HEADER_SIZE](_ => 0);
    WriteWord(bytes, 0, Hi(h.sourcePort), Lo(h.sourcePort));
    WriteWord(bytes, 2, Hi(h.destPort), Lo(h.destPort));
    WriteWord(bytes, 4, Hi(h.length), Lo(h.length));
    WriteWord(bytes, 6, Hi(h.checksum), Lo(h.checksum));
  }

  function ParseUdp(b: seq<Byte>, offset: nat): (r: Option<UdpHeader>) {
    if |b| - offset < UDP_HEADER_SIZE then None
    else Some(UdpHeader(Word(b[offset], b[offset + 1]), Word(b[offset + 2], b[offset + 3]),
                        Word(b[offset + 4], b[offset + 5]), Word(b[offset + 6], b[offset + 7])))
  }

  lemma ParseEncodedUdp(h: UdpHeader, ckHi: Byte, ckLo: Byte, front: seq<Byte>, tail: seq<Byte>)
    ensures ParseUdp(front + UdpBytes(h, ckHi, ckLo) + tail, |front|)
         == Some(UdpHeader(h.sourcePort % 0x1_0000, h.destPort % 0x1_0000, h.length % 0x1_0000, Word(ckHi, ckLo)))
  {
    var b := front + UdpBytes(h, ckHi, ckLo) + tail;
    assert b[|front|..|front| + 8] == UdpBytes(h, ckHi, ckLo);
    WordRoundTrip(h.sourcePort);
    WordRoundTrip(h.destPort);
    WordRoundTrip(h.length);
  }
}
