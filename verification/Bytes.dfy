/** Octets and big-endian fields. */
module Bytes {
  type Byte = b: int | 0 <= b < 256

  /** The octet that `(x shr 8).toByte()` stores, for an integer of either sign. */
  function Hi(x: int): (b: Byte) {
    x / 256 % 256
  }

  /** The octet that `x.toByte()` stores. */
  function Lo(x: int): (b: Byte) {
    x % 256
  }

  function Word(hi: Byte, lo: Byte): (w: nat) {
    256 * hi + lo
  }

  /** The four octets of an unsigned 32-bit field. */
  function Quad(x: int): (s: seq<Byte>) {
    [Lo(x / 0x100_0000), Lo(x / 0x1_0000), Lo(x / 0x100), Lo(x)]
  }

  function Word32(b0: Byte, b1: Byte, b2: Byte, b3: Byte): (w: nat) {
    0x100_0000 * b0 + 0x1_0000 * b1 + 0x100 * b2 + b3
  }

  /** Storing a 16-bit field and reading it back reduces it modulo 2^16. */
  lemma WordRoundTrip(x: int)
    ensures Word(Hi(x), Lo(x)) == x % 0x1_0000
  {
    var q, r := x / 0x1_0000, x % 0x1_0000;
    assert x == 256 * (256 * q + r / 256) + r % 256;
    assert x / 256 == 256 * q + r / 256;
  }

  /** Storing a 32-bit field and reading it back reduces it modulo 2^32. */
  lemma QuadRoundTrip(x: int)
    ensures var q := Quad(x); Word32(q[0], q[1], q[2], q[3]) == x % 0x1_0000_0000
  {
    var x2 := x / 0x1_0000;
    WordRoundTrip(x);
    WordRoundTrip(x2);
    assert x / 0x100_0000 == x2 / 256;
    var q, r := x2 / 0x1_0000, x2 % 0x1_0000;
    assert x == 0x1_0000_0000 * q + (0x1_0000 * r + x % 0x1_0000);
  }
}
