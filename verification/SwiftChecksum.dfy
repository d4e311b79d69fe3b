/** The iOS checksum, whose 32-bit accumulator traps on overflow. */
module SwiftChecksum {
  import opened Bytes
  import opened Checksums
  import opened Wrappers

  const UINT32_MAX: nat := 0xFFFF_FFFF

  /** Addition of `UInt32` values; the trap on overflow is `None`. */
  function AddChecked(a: nat, b: nat): (r: Option<nat>) {
    if a + b <= UINT32_MAX then Some(a + b) else None
  }

  /** The number of octets summed; without a length it is the size of the whole buffer, whatever the offset. */
  function SummedLength(data: seq<Byte>, length: Option<nat>): (n: nat) {
    match length
    case Some(n) => n
    case None => |data|
  }

  /** The summing loop: the word sum of `len` octets, or `None` where the accumulator traps. */
  method SumWords(data: seq<Byte>, offset: nat, len: nat) returns (total: Option<nat>)
    requires offset + len <= |data|
    ensures var n := WordSum(data[offset..offset + len]); total == if n <= UINT32_MAX then Some(n) else None
  {
    ghost var part := data[offset..offset + len];
    var sum: nat := 0;
    var i := 0;
    while i + 1 < len
      invariant 0 <= i <= len && sum <= UINT32_MAX
      invariant sum + WordSum(part[i..]) == WordSum(part)
    {
      var next := AddChecked(sum, Word(data[offset + i], data[offset + i + 1]));
      assert part[i..][2..] == part[i + 2..];
      if next == None {
        return None;
      }
      sum := next.value;
      i := i + 2;
    }
    total := if i < len then AddChecked(sum, Word(data[offset + i], 0)) else Some(sum);
  }

  /** The checksum of a part of `data`, or `None` where the accumulator traps. */
  method IpChecksum(data: seq<Byte>, offset: nat := 0, length: Option<nat> := None) returns (r: Option<int>)
    requires offset + SummedLength(data, length) <= |data|
    ensures var part := data[offset..offset + SummedLength(data, length)];
      r == if WordSum(part) <= UINT32_MAX then Some(Checksum(part)) else None
  {
    var total := SumWords(data, offset, SummedLength(data, length));
    if total == None {
      return None;
    }
    var sum := total.value;
    while sum / 0x1_0000 != 0
      invariant Fold(sum) == Fold(total.value)
      decreases sum
    {
      sum := sum % 0x1_0000 + sum / 0x1_0000;
    }
    r := Some(0xFFFF - sum);
  }

  /** A word adds at most 2^16 - 1 to the sum. */
  lemma {:induction false} WordSumBound(s: seq<Byte>)
    ensures WordSum(s) <= 0xFFFF * ((|s| + 1) / 2)
  {
    if |s| >= 2 {
      WordSumBound(s[2..]);
    }
  }

  lemma {:induction false} WordSumOfOnes(s: seq<Byte>)
    requires forall i | 0 <= i < |s| :: s[i] == 0xFF
    ensures WordSum(s) == 0xFFFF * (|s| / 2) + (if |s| % 2 == 0 then 0 else 0xFF00)
  {
    if |s| >= 2 {
      WordSumOfOnes(s[2..]);
    }
  }

  /** The accumulator is safe for every buffer of a given size exactly up to 131074 octets. */
  lemma AccumulatorSafety(size: nat)
    ensures (forall s: seq<Byte> | |s| == size :: WordSum(s) <= UINT32_MAX) <==> size <= 131074
  {
    if size <= 131074 {
      forall s: seq<Byte> | |s| == size
        ensures WordSum(s) <= UINT32_MAX
      {
        WordSumBound(s);
      }
    } else {
      var ones: seq<Byte> := seq(size, _ => 0xFF);
      WordSumOfOnes(ones);
    }
  }

  /** Hence the pseudo-header and segment of any IPv4 datagram are checked without a trap. */
  lemma DatagramNeverTraps(pseudoHeader: seq<Byte>, segment: seq<Byte>)
    requires |pseudoHeader| == 12 && |segment| <= 0xFFFF
    ensures WordSum(pseudoHeader + segment) <= UINT32_MAX
  {
    AccumulatorSafety(|pseudoHeader + segment|);
  }
}
