/** The ones' complement checksum of RFC 791 and its use over the TCP/UDP pseudo-header. */
module Checksums {
  import opened Bytes

  /** The sum of the big-endian 16-bit words, an odd last octet padded with zero. */
  function WordSum(s: seq<Byte>): (n: nat) {
    if |s| == 0 then 0
    else if |s| == 1 then Word(s[0], 0)
    else Word(s[0], s[1]) + WordSum(s[2..])
  }

  /** Adds the carries above 16 bits back in until none is left. */
  function Fold(sum: nat): (n: nat) {
    if sum / 0x1_0000 == 0 then sum else Fold(sum % 0x1_0000 + sum / 0x1_0000)
  }

  function Checksum(s: seq<Byte>): (c: int) {
    0xFFFF - Fold(WordSum(s))
  }

  method IpChecksum(data: array<Byte>, offset: nat, length: nat) returns (c: int)
    requires offset + length <= data.Length
    ensures c == Checksum(data[offset..offset + length])
  {
    ghost var all := data[offset..offset + length];
    var sum: nat := 0;
    var i := 0;
    while i + 1 < length
      invariant 0 <= i <= length
      invariant sum + WordSum(all[i..]) == WordSum(all)
    {
      sum := sum + Word(data[offset + i], data[offset + i + 1]);
      assert all[i..][2..] == all[i + 2..];
      i := i + 2;
    }
    if i < length {
      sum := sum + Word(data[offset + i], 0);
    }
    while sum / 0x1_0000 != 0
      invariant Fold(sum) == Fold(WordSum(all))
      decreases sum
    {
      sum := sum % 0x1_0000 + sum / 0x1_0000;
    }
    c := 0xFFFF - sum;
  }

  /** Folding is reduction modulo 2^16 - 1, with zero reached from zero alone. */
  lemma {:induction false} FoldClosedForm(sum: nat)
    ensures Fold(sum) == if sum == 0 then 0 else (sum - 1) % 0xFFFF + 1
  {
    if sum / 0x1_0000 != 0 {
      FoldClosedForm(sum % 0x1_0000 + sum / 0x1_0000);
      var q := sum / 0x1_0000;
      assert sum - 1 == 0xFFFF * q + (sum % 0x1_0000 + q - 1);
      ModAddMultiple(sum % 0x1_0000 + q - 1, q);
    }
  }

  lemma {:induction false} ModAddMultiple(x: nat, q: nat)
    ensures (0xFFFF * q + x) % 0xFFFF == x % 0xFFFF
  {
    if q > 0 {
      ModAddMultiple(x, q - 1);
    }
  }

  /** The word sum is a positive multiple of 2^16 - 1. */
  predicate Balanced(s: seq<Byte>) {
    WordSum(s) > 0 && WordSum(s) % 0xFFFF == 0
  }

  /** A buffer passes the check exactly when its word sum is a positive multiple of 2^16 - 1. */
  lemma ZeroChecksum(s: seq<Byte>)
    ensures 0 <= Checksum(s) <= 0xFFFF
    ensures Checksum(s) == 0 <==> Balanced(s)
    ensures WordSum(s) > 0 ==> Checksum(s) < 0xFFFF
  {
    FoldClosedForm(WordSum(s));
    if WordSum(s) > 0 {
      FullRemainder(WordSum(s));
    }
  }

  lemma FullRemainder(n: nat)
    requires n > 0
    ensures (n - 1) % 0xFFFF == 0xFFFE <==> n % 0xFFFF == 0
  {
    var q, r := (n - 1) / 0xFFFF, (n - 1) % 0xFFFF;
    if r == 0xFFFE {
      assert n == 0xFFFF * (q + 1) + 0;
      ModAddMultiple(0, q + 1);
    } else {
      assert n == 0xFFFF * q + (r + 1);
      ModAddMultiple(r + 1, q);
    }
  }

  lemma {:induction false} WordSumAppend(a: seq<Byte>, b: seq<Byte>)
    requires |a| % 2 == 0
    ensures WordSum(a + b) == WordSum(a) + WordSum(b)
  {
    if |a| == 0 {
      assert a + b == b;
    } else {
      WordSumAppend(a[2..], b);
      assert (a + b)[2..] == a[2..] + b;
    }
  }

  /** `s` with the 16-bit field at `p` replaced. */
  function PutField(s: seq<Byte>, p: nat, hi: Byte, lo: Byte): (t: seq<Byte>)
    requires p + 1 < |s|
  {
    s[p := hi][p + 1 := lo]
  }

  lemma WordSumPair(hi: Byte, lo: Byte)
    ensures WordSum([hi, lo]) == Word(hi, lo)
  {
    assert [hi, lo][2..] == [];
  }

  /** Splits off the aligned 16-bit field at the end of `front`. */
  lemma WordSumSplit(front: seq<Byte>, hi: Byte, lo: Byte, back: seq<Byte>)
    requires |front| % 2 == 0
    ensures WordSum(front + [hi, lo] + back) == WordSum(front) + Word(hi, lo) + WordSum(back)
  {
    WordSumAppend(front, [hi, lo]);
    WordSumAppend(front + [hi, lo], back);
    WordSumPair(hi, lo);
  }

  lemma SplitAroundField(s: seq<Byte>, p: nat, hi: Byte, lo: Byte)
    requires p + 1 < |s|
    ensures s == s[..p] + [s[p], s[p + 1]] + s[p + 2..]
    ensures PutField(s, p, hi, lo) == s[..p] + [hi, lo] + s[p + 2..]
  {
  }

  /** Replacing an aligned 16-bit field changes the word sum by the difference of the fields. */
  lemma WordSumPut(s: seq<Byte>, p: nat, hi: Byte, lo: Byte)
    requires p % 2 == 0 && p + 1 < |s|
    ensures WordSum(PutField(s, p, hi, lo)) == WordSum(s) - Word(s[p], s[p + 1]) + Word(hi, lo)
  {
    SplitAroundField(s, p, hi, lo);
    WordSumSplit(s[..p], s[p], s[p + 1], s[p + 2..]);
    WordSumSplit(s[..p], hi, lo, s[p + 2..]);
  }

  /** The complement of the folded sum completes it to a positive multiple of 2^16 - 1. */
  lemma ComplementCompletes(sum: nat)
    ensures (sum + (0xFFFF - Fold(sum))) % 0xFFFF == 0 && sum + (0xFFFF - Fold(sum)) > 0
  {
    FoldClosedForm(sum);
    if sum > 0 {
      var q, r := (sum - 1) / 0xFFFF, (sum - 1) % 0xFFFF;
      assert sum + (0xFFFF - Fold(sum)) == 0xFFFF * (q + 1) + 0;
      ModAddMultiple(0, q + 1);
    }
  }

  /** Storing the checksum of a buffer into its zeroed, aligned checksum field makes the buffer pass the check. */
  lemma StoredChecksumVerifies(s: seq<Byte>, p: nat, hi: Byte, lo: Byte)
    requires p % 2 == 0 && p + 1 < |s| && s[p] == 0 && s[p + 1] == 0
    requires Word(hi, lo) == Checksum(s)
    ensures Checksum(PutField(s, p, hi, lo)) == 0
  {
    WordSumPut(s, p, hi, lo);
    ComplementCompletes(WordSum(s));
    ZeroChecksum(PutField(s, p, hi, lo));
  }

  /** Two word sums that pass differ by a multiple of 2^16 - 1. */
  lemma SmallShiftOfMultiple(a: nat, d: int)
    requires a % 0xFFFF == 0 && a + d >= 0 && -0xFFFF <= d <= 0xFFFF
    ensures (a + d) % 0xFFFF == 0 <==> d == 0 || d == 0xFFFF || d == -0xFFFF
  {
    var q := a / 0xFFFF;
    if d == -0xFFFF {
      assert a + d == 0xFFFF * (q - 1) + 0;
      ModAddMultiple(0, q - 1);
    } else if d < 0 {
      assert a + d == 0xFFFF * (q - 1) + (0xFFFF + d);
      ModAddMultiple(0xFFFF + d, q - 1);
    } else if d == 0xFFFF {
      assert a + d == 0xFFFF * (q + 1) + 0;
      ModAddMultiple(0, q + 1);
    } else {
      assert a + d == 0xFFFF * q + d;
      ModAddMultiple(d, q);
    }
  }

  lemma FieldShift(sum: nat, before: nat, after: nat, result: nat)
    requires sum > 0 && sum % 0xFFFF == 0 && before <= sum && result == sum - before + after
    requires before <= 0xFFFF && after <= 0xFFFF && before != after
    ensures result > 0 && result % 0xFFFF == 0 <==>
            (after == 0xFFFF && before == 0) || (after == 0 && before == 0xFFFF && sum > 0xFFFF)
  {
    SmallShiftOfMultiple(sum, after - before);
  }

  /**
   What the check detects, exactly: a changed aligned 16-bit field of a passing buffer goes unnoticed only when
   it changed between 0x0000 and 0xFFFF, the two representations of zero, in a buffer that stays not all zero.
   */
  lemma ReplacedFieldDetected(s: seq<Byte>, p: nat, hi: Byte, lo: Byte)
    requires p % 2 == 0 && p + 1 < |s|
    requires Checksum(s) == 0 && Word(hi, lo) != Word(s[p], s[p + 1])
    ensures Checksum(PutField(s, p, hi, lo)) == 0 <==>
            (Word(hi, lo) == 0xFFFF && Word(s[p], s[p + 1]) == 0)
            || (Word(hi, lo) == 0 && Word(s[p], s[p + 1]) == 0xFFFF && WordSum(s) > 0xFFFF)
  {
    ZeroChecksum(s);
    ZeroChecksum(PutField(s, p, hi, lo));
    ReplacedFieldUnbalances(s, p, hi, lo);
  }

  lemma ReplacedFieldUnbalances(s: seq<Byte>, p: nat, hi: Byte, lo: Byte)
    requires p % 2 == 0 && p + 1 < |s|
    requires Balanced(s) && Word(hi, lo) != Word(s[p], s[p + 1])
    ensures Balanced(PutField(s, p, hi, lo)) <==>
            (Word(hi, lo) == 0xFFFF && Word(s[p], s[p + 1]) == 0)
            || (Word(hi, lo) == 0 && Word(s[p], s[p + 1]) == 0xFFFF && WordSum(s) > 0xFFFF)
  {
    FieldWithinSum(s, p);
    WordSumPut(s, p, hi, lo);
    FieldShift(WordSum(s), Word(s[p], s[p + 1]), Word(hi, lo), WordSum(PutField(s, p, hi, lo)));
  }

  lemma FieldWithinSum(s: seq<Byte>, p: nat)
    requires p % 2 == 0 && p + 1 < |s|
    ensures Word(s[p], s[p + 1]) <= WordSum(s)
  {
    SplitAroundField(s, p, 0, 0);
    WordSumSplit(s[..p], s[p], s[p + 1], s[p + 2..]);
  }

  /** A single changed octet of a passing buffer is always detected. */
  lemma ChangedByteDetected(s: seq<Byte>, i: nat, v: Byte)
    requires i < |s| && v != s[i] && Checksum(s) == 0
    ensures Checksum(s[i := v]) != 0
  {
    ZeroChecksum(s);
    WordSumByte(s, i, v);
    SmallShiftOfMultiple(WordSum(s), WordSum(s[i := v]) - WordSum(s));
    ZeroChecksum(s[i := v]);
  }

  lemma WordSumByte(s: seq<Byte>, i: nat, v: Byte)
    requires i < |s|
    ensures WordSum(s[i := v]) == WordSum(s) + (v - s[i]) * (if i % 2 == 0 then 256 else 1)
  {
    var p := i - i % 2;
    if p + 1 < |s| {
      var hi, lo := if i % 2 == 0 then v else s[p], if i % 2 == 0 then s[p + 1] else v;
      assert s[i := v] == PutField(s, p, hi, lo);
      WordSumPut(s, p, hi, lo);
    } else {
      assert s == s[..p] + [s[p]] && s[i := v] == s[..p] + [v];
      WordSumAppend(s[..p], [s[p]]);
      WordSumAppend(s[..p], [v]);
    }
  }
}
