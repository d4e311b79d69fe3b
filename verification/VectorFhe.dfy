/** Fixed-point vectors in ciphertext slots: quantising, multiplying and reading the dot product back. */
module VectorFhe {
  import opened Fhe
  import opened Numbers

  const HALF_T: int := T / 2
  const UINT64: int := 0x1_0000_0000_0000_0000
  const DEFAULT_SCALE: real := 100.0

  function AbsReal(x: real): (r: real) {
    if x < 0.0 then -x else x
  }

  /** Rounding to the nearest integer, halves away from zero. */
  function Round(x: real): (r: int)
    ensures AbsReal(r as real - x) <= 0.5
    ensures x >= 0.0 ==> r >= 0
    ensures x <= 0.0 ==> r <= 0
  {
    if x >= 0.0 then (x + 0.5).Floor else -((0.5 - x).Floor)
  }

  /** A tie goes to the neighbour farther from zero. */
  lemma TiesGoOutward(n: nat)
    ensures Round(n as real + 0.5) == n + 1 && Round(-(n as real + 0.5)) == -(n + 1)
  {
    assert (n + 1) as real == n as real + 1.0;
  }

  /** Conversion to 64 bits unsigned; out of range the machine decides. */
  function ToUint64(x: int, machine: int -> nat): (u: nat) {
    if 0 <= x < UINT64 then x else machine(x)
  }

  function Quantized(v: real, scale: real, machine: int -> nat): (q: nat)
    ensures q < T
  {
    var r := Round(v * scale);
    ToUint64(if r < 0 then r + T else r, machine) % T
  }

  method QuantizeVector(vec: seq<real>, scale: real, machine: int -> nat) returns (result: seq<nat>)
    ensures |result| == |vec| && forall i :: 0 <= i < |vec| ==> result[i] == Quantized(vec[i], scale, machine)
  {
    var slots := new nat[|vec|](_ => 0);
    for i := 0 to |vec|
      invariant forall k :: 0 <= k < i ==> slots[k] == Quantized(vec[k], scale, machine)
    {
      var scaled := Round(vec[i] * scale);
      if scaled < 0 {
        scaled := scaled + T;
      }
      var slot := ToUint64(scaled, machine) % T;
      assert slot == Quantized(vec[i], scale, machine);
      slots[i] := slot;
    }
    result := slots[..];
  }

  /** The signed reading of a slot: values above T/2 are negative. */
  function Lift(v: nat): (x: int) {
    if v > HALF_T then v - T else v
  }

  function Dequantized(v: nat, scale: real): (x: real)
    requires scale != 0.0
  {
    Lift(v) as real / scale
  }

  method DequantizeVector(vals: seq<nat>, scale: real, dim: nat) returns (result: seq<real>)
    requires scale != 0.0 && forall i :: 0 <= i < |vals| ==> vals[i] < T
    ensures |result| == dim
    ensures forall i :: 0 <= i < dim ==> result[i] == if i < |vals| then Dequantized(vals[i], scale) else 0.0
  {
    var out := new real[dim](_ => 0.0);
    var i := 0;
    while i < dim && i < |vals|
      invariant 0 <= i <= dim && i <= |vals|
      invariant forall k :: 0 <= k < dim ==> out[k] == if k < i then Dequantized(vals[k], scale) else 0.0
    {
      var v := vals[i];
      if v > HALF_T {
        NegatedQuotient((T - v) as real, scale);
        out[i] := -((T - v) as real / scale);
      } else {
        out[i] := v as real / scale;
      }
      i := i + 1;
    }
    result := out[..];
  }

  lemma NegatedQuotient(x: real, scale: real)
    requires scale != 0.0
    ensures -(x / scale) == (-x) / scale
  {
  }

  /** Lifting undoes reduction modulo T exactly for integers of magnitude at most T/2. */
  lemma LiftIsExact(z: int)
    ensures Lift(z % T) == z <==> Abs(z) <= HALF_T
  {
  }

  lemma LiftIsBounded(v: nat)
    requires v < T
    ensures Abs(Lift(v)) <= HALF_T
  {
  }

  /** A component whose rounded value has magnitude at most T/2, and no other, survives quantising. */
  lemma QuantizingIsExact(v: real, scale: real, machine: int -> nat)
    ensures Lift(Quantized(v, scale, machine)) == Round(v * scale) <==> Abs(Round(v * scale)) <= HALF_T
  {
    LiftIsBounded(Quantized(v, scale, machine));
  }

  /** A lift that comes within half a unit of the scaled value is its rounding, or the scaled value is in range. */
  lemma FarOutIsFarOff(v: real, scale: real, machine: int -> nat)
    requires Abs(Round(v * scale)) > HALF_T
    ensures AbsReal(Lift(Quantized(v, scale, machine)) as real - v * scale) > 0.5
  {
    LiftIsBounded(Quantized(v, scale, machine));
  }

  lemma Unscaling(x: real, v: real, scale: real)
    requires scale > 0.0
    ensures AbsReal(x / scale - v) <= 1.0 / (2.0 * scale) <==> AbsReal(x - v * scale) <= 0.5
  {
    var d := x / scale - v;
    assert d * scale == x - v * scale;
    var bound := 1.0 / (2.0 * scale);
    assert bound * scale == 0.5 by {
      assert bound * (2.0 * scale) == 1.0;
    }
    ScalingKeepsOrder(AbsReal(d), bound, scale);
    assert AbsReal(d) * scale == AbsReal(d * scale) by {
      SignOfProduct(d, scale);
    }
  }

  lemma ScalingKeepsOrder(a: real, b: real, scale: real)
    requires scale > 0.0
    ensures a <= b <==> a * scale <= b * scale
  {
    if a <= b {
      assert (b - a) * scale >= 0.0;
    } else {
      assert (a - b) * scale > 0.0;
    }
  }

  lemma SignOfProduct(d: real, scale: real)
    requires scale > 0.0
    ensures d >= 0.0 <==> d * scale >= 0.0
    ensures (-d) * scale == -(d * scale)
  {
    ScalingKeepsOrder(0.0, d, scale);
  }

  /**
   Quantising and dequantising a component returns it within 1/(2*scale) if and only if its rounded value has
   magnitude at most T/2.
   */
  lemma QuantizeRoundTrip(v: real, scale: real, machine: int -> nat)
    requires scale > 0.0
    ensures AbsReal(Dequantized(Quantized(v, scale, machine), scale) - v) <= 1.0 / (2.0 * scale)
       <==> Abs(Round(v * scale)) <= HALF_T
  {
    var q := Quantized(v, scale, machine);
    Unscaling(Lift(q) as real, v, scale);
    if Abs(Round(v * scale)) <= HALF_T {
      QuantizingIsExact(v, scale, machine);
    } else {
      FarOutIsFarOff(v, scale, machine);
    }
  }

  // ------------------------------------------------------------ dot product

  /** Slotwise multiplication. */
  function ElementWiseProduct(a: Ciphertext, b: Ciphertext): (ct: Ciphertext)
    requires |a| == |b|
    ensures |ct| == |a|
  {
    seq(|a|, i requires 0 <= i < |a| => a[i] * b[i] % T)
  }

  function LiftedSum(slots: seq<nat>): (sum: int) {
    if slots == [] then 0 else LiftedSum(slots[..|slots| - 1]) + Lift(slots[|slots| - 1])
  }

  method DecryptDotProduct(ct: Ciphertext, scale: real, dim: nat) returns (score: real)
    requires scale != 0.0 && forall i :: 0 <= i < |ct| ==> ct[i] < T
    ensures score == LiftedSum(ct[..Min(dim, |ct|)]) as real / (scale * scale)
  {
    var sum := 0;
    var i := 0;
    while i < dim && i < |ct|
      invariant 0 <= i <= Min(dim, |ct|) && sum == LiftedSum(ct[..i])
    {
      assert ct[..i + 1][..i] == ct[..i];
      var v := ct[i];
      if v > HALF_T {
        sum := sum - (T - v);
      } else {
        sum := sum + v;
      }
      i := i + 1;
    }
    score := sum as real / (scale * scale);
  }

  function SumInt(s: seq<int>): (sum: int) {
    if s == [] then 0 else SumInt(s[..|s| - 1]) + s[|s| - 1]
  }

  function SumReal(s: seq<real>): (sum: real) {
    if s == [] then 0.0 else SumReal(s[..|s| - 1]) + s[|s| - 1]
  }

  function RoundedProduct(x: real, y: real, scale: real): (p: int) {
    Round(x * scale) * Round(y * scale)
  }

  function RoundedProducts(a: seq<real>, b: seq<real>, scale: real): (ps: seq<int>)
    requires |a| == |b|
    ensures |ps| == |a| && forall i :: 0 <= i < |a| ==> ps[i] == RoundedProduct(a[i], b[i], scale)
  {
    seq(|a|, i requires 0 <= i < |a| => RoundedProduct(a[i], b[i], scale))
  }

  function Products(a: seq<real>, b: seq<real>): (ps: seq<real>)
    requires |a| == |b|
    ensures |ps| == |a| && forall i :: 0 <= i < |a| ==> ps[i] == a[i] * b[i]
  {
    seq(|a|, i requires 0 <= i < |a| => a[i] * b[i])
  }

  /** The integer dot product of the rounded vectors. */
  function RoundedDot(a: seq<real>, b: seq<real>, scale: real): (d: int)
    requires |a| == |b|
  {
    SumInt(RoundedProducts(a, b, scale))
  }

  function RealDot(a: seq<real>, b: seq<real>): (d: real)
    requires |a| == |b|
  {
    SumReal(Products(a, b))
  }

  lemma ModProduct(x: int, y: int)
    ensures (x % T) * (y % T) % T == (x * y) % T
  {
    var p, q, i, j := x / T, y / T, x % T, y % T;
    assert x == p * T + i && y == q * T + j;
    var c := p * y + i * q;
    assert x * y == i * j + c * T by {
      assert x * y == p * T * y + i * y;
      assert i * y == i * q * T + i * j;
    }
    ModShift(i * j, c);
  }

  lemma ModShift(z: int, c: int)
    ensures (z + c * T) % T == z % T
  {
  }

  /** Quantising is reduction modulo T of the rounded value, as long as that is not below -T or beyond 64 bits. */
  lemma QuantizedIsResidue(v: real, scale: real, machine: int -> nat)
    requires -T <= Round(v * scale) < UINT64
    ensures Quantized(v, scale, machine) == Round(v * scale) % T
  {
    ModShift(Round(v * scale), 1);
  }

  /** The slot that holds the product of two components lifts to the product of their rounded values. */
  ghost predicate SlotIsExact(a: real, b: real, scale: real, machine: int -> nat) {
    Lift(Quantized(a, scale, machine) * Quantized(b, scale, machine) % T) == RoundedProduct(a, b, scale)
  }

  ghost predicate Convertible(v: real, scale: real) {
    -T <= Round(v * scale) < UINT64
  }

  /** A product slot is exact if and only if the product has magnitude at most T/2. */
  lemma SlotIsExactWithinHalf(a: real, b: real, scale: real, machine: int -> nat)
    requires Convertible(a, scale) && Convertible(b, scale)
    ensures SlotIsExact(a, b, scale, machine) <==> Abs(RoundedProduct(a, b, scale)) <= HALF_T
  {
    QuantizedIsResidue(a, scale, machine);
    QuantizedIsResidue(b, scale, machine);
    ModProduct(Round(a * scale), Round(b * scale));
    LiftIsExact(Round(a * scale) * Round(b * scale));
  }

  function QuantizedAll(vec: seq<real>, scale: real, machine: int -> nat): (qs: seq<nat>)
    ensures |qs| == |vec|
  {
    seq(|vec|, i requires 0 <= i < |vec| => Quantized(vec[i], scale, machine))
  }

  ghost predicate SlotsAreExact(a: seq<real>, b: seq<real>, scale: real, machine: int -> nat)
    requires |a| == |b|
  {
    forall i :: 0 <= i < |a| ==> SlotIsExact(a[i], b[i], scale, machine)
  }

  /** The ciphertext of the product of two encrypted vectors. */
  function ProductOf(a: seq<real>, b: seq<real>, scale: real, machine: int -> nat, n: nat): (ct: Ciphertext)
    requires |a| == |b|
    ensures |ct| == n
    ensures forall i :: 0 <= i < n ==> ct[i] < T
  {
    ElementWiseProduct(Packed(QuantizedAll(a, scale, machine), n), Packed(QuantizedAll(b, scale, machine), n))
  }

  lemma {:induction false} LiftedSumIsSum(ct: seq<nat>, ps: seq<int>)
    requires |ct| == |ps| && forall i :: 0 <= i < |ct| ==> Lift(ct[i]) == ps[i]
    ensures LiftedSum(ct) == SumInt(ps)
  {
    if ct != [] {
      LiftedSumIsSum(ct[..|ct| - 1], ps[..|ps| - 1]);
    }
  }

  lemma PackedSlot(vec: seq<real>, scale: real, machine: int -> nat, n: nat, i: nat)
    requires i < |vec| && i < n
    ensures Packed(QuantizedAll(vec, scale, machine), n)[i] == Quantized(vec[i], scale, machine)
  {
    var q := QuantizedAll(vec, scale, machine)[i];
    assert q < T && q % T == q;
  }

  lemma SlotLifts(a: seq<real>, b: seq<real>, scale: real, machine: int -> nat, n: nat, i: nat)
    requires |a| == |b| && i < |a| && i < n && SlotIsExact(a[i], b[i], scale, machine)
    ensures Lift(ProductOf(a, b, scale, machine, n)[i]) == RoundedProduct(a[i], b[i], scale)
  {
    PackedSlot(a, scale, machine, n, i);
    PackedSlot(b, scale, machine, n, i);
    var x, y := Packed(QuantizedAll(a, scale, machine), n), Packed(QuantizedAll(b, scale, machine), n);
    assert ElementWiseProduct(x, y)[i] == x[i] * y[i] % T;
  }

  lemma SlotSums(a: seq<real>, b: seq<real>, scale: real, machine: int -> nat, n: nat, k: nat)
    requires |a| == |b| && k <= |a| && k <= n && SlotsAreExact(a, b, scale, machine)
    ensures LiftedSum(ProductOf(a, b, scale, machine, n)[..k]) == RoundedDot(a[..k], b[..k], scale)
  {
    var ct, ps := ProductOf(a, b, scale, machine, n)[..k], RoundedProducts(a[..k], b[..k], scale);
    forall i | 0 <= i < k
      ensures Lift(ct[i]) == ps[i]
    {
      SlotLifts(a, b, scale, machine, n, i);
    }
    LiftedSumIsSum(ct, ps);
  }

  /**
   The encrypted dot product is the integer one: packing, multiplying modulo T, lifting and summing gives exactly the
   dot product of the rounded components, of as many as there are slots.
   */
  lemma DotProductIsExact(a: seq<real>, b: seq<real>, scale: real, machine: int -> nat, n: nat)
    requires |a| == |b|
    requires forall i :: 0 <= i < |a| ==> Convertible(a[i], scale) && Convertible(b[i], scale)
    requires forall i :: 0 <= i < |a| ==> Abs(RoundedProduct(a[i], b[i], scale)) <= HALF_T
    ensures var k := Min(|a|, n);
      LiftedSum(ProductOf(a, b, scale, machine, n)[..k]) == RoundedDot(a[..k], b[..k], scale)
  {
    forall i | 0 <= i < |a|
      ensures SlotIsExact(a[i], b[i], scale, machine)
    {
      SlotIsExactWithinHalf(a[i], b[i], scale, machine);
    }
    SlotSums(a, b, scale, machine, n, Min(|a|, n));
  }

  predicate InUnit(x: real) {
    -1.0 <= x <= 1.0
  }

  lemma UnitTimes(a: real, scale: real)
    requires InUnit(a) && scale > 0.0
    ensures -scale <= a * scale <= scale
  {
    ScalingKeepsOrder(a, 1.0, scale);
    ScalingKeepsOrder(-1.0, a, scale);
  }

  lemma ProductError(x: real, y: real, p: real, q: real, scale: real)
    requires AbsReal(x - p) <= 0.5 && AbsReal(y - q) <= 0.5
    requires -scale <= p <= scale && -scale <= q <= scale
    ensures AbsReal(x * y - p * q) <= scale + 0.25
  {
    var d, e := x - p, y - q;
    assert x * y - p * q == p * e + q * d + d * e;
    Bounded(p, e, scale, 0.5);
    Bounded(q, d, scale, 0.5);
    Bounded(d, e, 0.5, 0.5);
  }

  lemma Bounded(x: real, y: real, m: real, w: real)
    requires -m <= x <= m && -w <= y <= w
    ensures -(m * w) <= x * y <= m * w
  {
    assert (m - x) * (w + y) >= 0.0 && (m + x) * (w - y) >= 0.0;
    assert (m - x) * (w - y) >= 0.0 && (m + x) * (w + y) >= 0.0;
  }

  function Square(scale: real): (q: real) {
    scale * scale
  }

  function Fold(count: nat, each: real): (e: real) {
    count as real * each
  }

  /** `x` differs from `y` scaled by `square` by at most `bound`. */
  ghost predicate Near(x: int, y: real, square: real, bound: real) {
    AbsReal(x as real - y * square) <= bound
  }

  /** Each of `xs` is near the one of `ys` at its position. */
  ghost predicate AllNear(xs: seq<int>, ys: seq<real>, square: real, bound: real) {
    |xs| == |ys| && forall i :: 0 <= i < |xs| ==> Near(xs[i], ys[i], square, bound)
  }

  /** Sums of `xs` and of `ys` scaled by `square` differ by no more than the terms do. */
  lemma {:induction false} SumError(xs: seq<int>, ys: seq<real>, square: real, each: real)
    requires AllNear(xs, ys, square, each)
    ensures |xs| == |ys| && Near(SumInt(xs), SumReal(ys), square, Fold(|xs|, each))
  {
    if xs != [] {
      var k := |xs| - 1;
      SumError(xs[..k], ys[..k], square, each);
      OneMoreTerm(SumInt(xs[..k]), SumReal(ys[..k]), k, xs[k], ys[k], square, each);
    }
  }

  lemma OneMoreTerm(p: int, q: real, m: nat, x: int, y: real, square: real, each: real)
    requires Near(p, q, square, Fold(m, each)) && Near(x, y, square, each)
    ensures Near(p + x, q + y, square, Fold(m + 1, each))
  {
    Distribute(q, y, square);
    Distribute(m as real, 1.0, each);
    Triangle(p as real, q * square, Fold(m, each), x as real, y * square, each);
    assert (m + 1) as real == m as real + 1.0 && (p + x) as real == p as real + x as real;
  }

  lemma Triangle(p: real, u: real, m: real, x: real, v: real, e: real)
    requires AbsReal(p - u) <= m && AbsReal(x - v) <= e
    ensures AbsReal((p + x) - (u + v)) <= m + e
  {
  }

  lemma Distribute(x: real, y: real, m: real)
    ensures (x + y) * m == x * m + y * m
  {
  }

  lemma RoundedError(p: real, q: real, z: real, scale: real)
    requires -scale <= p <= scale && -scale <= q <= scale && z == p * q
    ensures AbsReal((Round(p) * Round(q)) as real - z) <= scale + 0.25
  {
    IntProductError(Round(p), Round(q), p, q, z, scale);
  }

  lemma IntProductError(x: int, y: int, p: real, q: real, z: real, scale: real)
    requires AbsReal(x as real - p) <= 0.5 && AbsReal(y as real - q) <= 0.5
    requires -scale <= p <= scale && -scale <= q <= scale && z == p * q
    ensures AbsReal((x * y) as real - z) <= scale + 0.25
  {
    ProductError(x as real, y as real, p, q, scale);
    RealOfProduct(x, y);
  }

  lemma RealOfProduct(x: int, y: int)
    ensures (x * y) as real == x as real * y as real
  {
  }

  lemma Regroup(a: real, b: real, p: real, q: real, scale: real) returns (z: real)
    requires p == a * scale && q == b * scale
    ensures z == p * q && z == (a * b) * Square(scale)
  {
    z := p * q;
  }

  lemma ScaledTermError(a: real, b: real, p: real, q: real, scale: real)
    requires p == a * scale && q == b * scale && -scale <= p <= scale && -scale <= q <= scale
    ensures Near(Round(p) * Round(q), a * b, Square(scale), scale + 0.25)
  {
    var z := Regroup(a, b, p, q, scale);
    TermIsNear(a * b, p, q, z, scale);
  }

  lemma TermIsNear(c: real, p: real, q: real, z: real, scale: real)
    requires -scale <= p <= scale && -scale <= q <= scale && z == p * q && z == c * Square(scale)
    ensures Near(Round(p) * Round(q), c, Square(scale), scale + 0.25)
  {
    RoundedError(p, q, z, scale);
  }

  lemma ProductTermError(a: real, b: real, scale: real)
    requires InUnit(a) && InUnit(b) && scale > 0.0
    ensures Near(RoundedProduct(a, b, scale), a * b, Square(scale), scale + 0.25)
  {
    UnitTimes(a, scale);
    UnitTimes(b, scale);
    ScaledTermError(a, b, a * scale, b * scale, scale);
  }

  ghost predicate AllInUnit(a: seq<real>) {
    forall i :: 0 <= i < |a| ==> InUnit(a[i])
  }

  lemma TermNear(a: seq<real>, b: seq<real>, scale: real, i: nat)
    requires i < |a| == |b| && scale > 0.0 && InUnit(a[i]) && InUnit(b[i])
    ensures Near(RoundedProducts(a, b, scale)[i], Products(a, b)[i], Square(scale), scale + 0.25)
  {
    ProductTermError(a[i], b[i], scale);
  }

  lemma TermsNear(a: seq<real>, b: seq<real>, scale: real)
    requires |a| == |b| && scale > 0.0 && AllInUnit(a) && AllInUnit(b)
    ensures AllNear(RoundedProducts(a, b, scale), Products(a, b), Square(scale), scale + 0.25)
  {
    forall i | 0 <= i < |a|
      ensures Near(RoundedProducts(a, b, scale)[i], Products(a, b)[i], Square(scale), scale + 0.25)
    {
      TermNear(a, b, scale, i);
    }
  }

  lemma DotError(a: seq<real>, b: seq<real>, scale: real)
    requires |a| == |b| && scale > 0.0 && AllInUnit(a) && AllInUnit(b)
    ensures Near(RoundedDot(a, b, scale), RealDot(a, b), Square(scale), Fold(|a|, scale + 0.25))
  {
    TermsNear(a, b, scale);
    SumError(RoundedProducts(a, b, scale), Products(a, b), Square(scale), scale + 0.25);
  }

  /** The error a score of `count` components may have. */
  function Tolerance(count: nat, scale: real): (e: real)
    requires scale != 0.0
  {
    count as real * (1.0 / scale + 1.0 / (4.0 * scale * scale))
  }

  /** The score is within dim * (1/scale + 1/(4*scale^2)) of the real dot product. */
  lemma ScoreError(a: seq<real>, b: seq<real>, scale: real)
    requires |a| == |b| && scale > 0.0
    requires AllInUnit(a) && AllInUnit(b)
    ensures AbsReal(RoundedDot(a, b, scale) as real / (scale * scale) - RealDot(a, b)) <= Tolerance(|a|, scale)
  {
    DotError(a, b, scale);
    NearScore(RoundedDot(a, b, scale), RealDot(a, b), |a|, scale);
  }

  lemma NearScore(sum: int, dot: real, count: nat, scale: real)
    requires scale > 0.0 && Near(sum, dot, Square(scale), Fold(count, scale + 0.25))
    ensures AbsReal(sum as real / (scale * scale) - dot) <= Tolerance(count, scale)
  {
    UnitError(scale);
    ScalingKeepsOrder(0.0, scale, scale);
    Divided(sum as real, dot, Square(scale), count as real, 1.0 / scale + 1.0 / (4.0 * scale * scale), scale + 0.25);
  }

  lemma Divided(sum: real, dot: real, square: real, count: real, unit: real, each: real)
    requires square > 0.0 && unit * square == each && AbsReal(sum - dot * square) <= count * each
    ensures AbsReal(sum / square - dot) <= count * unit
  {
    var d := sum / square - dot;
    QuotientTimes(sum, square);
    Distribute(sum / square, -dot, square);
    SignOfProduct(dot, square);
    SignOfProduct(d, square);
    Reassociate(count, unit, square);
    ScalingKeepsOrder(AbsReal(d), count * unit, square);
  }

  lemma QuotientTimes(x: real, y: real)
    requires y != 0.0
    ensures x / y * y == x
  {
  }

  lemma Reassociate(x: real, y: real, z: real)
    ensures (x * y) * z == x * (y * z)
  {
  }

  lemma UnitError(scale: real)
    requires scale > 0.0
    ensures (1.0 / scale + 1.0 / (4.0 * scale * scale)) * (scale * scale) == scale + 0.25
  {
    assert 1.0 / scale * (scale * scale) == scale;
    assert 1.0 / (4.0 * scale * scale) * (scale * scale) == 0.25 by {
      var x := 1.0 / (4.0 * scale * scale);
      assert x * (4.0 * scale * scale) == 1.0;
      assert x * (4.0 * scale * scale) == 4.0 * (x * (scale * scale));
    }
  }

  /** Every product of components in [-1, 1] is exact at this scale. */
  ghost predicate ScaleIsSafe(scale: real, machine: int -> nat) {
    forall a: real, b: real :: InUnit(a) && InUnit(b) ==> SlotIsExact(a, b, scale, machine)
  }

  lemma RoundsWithin(x: real, m: nat)
    requires -(m as real) - 0.5 < x < m as real + 0.5
    ensures Abs(Round(x)) <= m
  {
  }

  lemma UnitRoundsWithin(a: real, scale: real, m: nat)
    requires InUnit(a) && 0.0 < scale < m as real + 0.5
    ensures Abs(Round(a * scale)) <= m
  {
    UnitTimes(a, scale);
    RoundsWithin(a * scale, m);
  }

  lemma AbsProduct(x: int, y: int, m: nat)
    requires Abs(x) <= m && Abs(y) <= m
    ensures Abs(x * y) <= m * m
  {
    var p, q := Abs(x), Abs(y);
    assert Abs(x * y) == p * q;
    SmallerFactor(p, m, q);
    SmallerFactor(q, m, m);
  }

  lemma SmallerFactor(a: nat, b: nat, c: nat)
    requires a <= b
    ensures a * c <= b * c
  {
  }

  lemma SafeBelow(a: real, b: real, scale: real, machine: int -> nat)
    requires 0.0 < scale < 181.5 && InUnit(a) && InUnit(b)
    ensures SlotIsExact(a, b, scale, machine)
  {
    UnitRoundsWithin(a, scale, 181);
    UnitRoundsWithin(b, scale, 181);
    AbsProduct(Round(a * scale), Round(b * scale), 181);
    SlotIsExactWithinHalf(a, b, scale, machine);
  }

  lemma RoundsTo182(x: real)
    requires 181.5 <= x < 182.5
    ensures Round(x) == 182
  {
  }

  /** Some component in [-1, 1] is scaled to a value that rounds to 182. */
  lemma UnsafePoint(scale: real) returns (a: real, x: real)
    requires scale >= 181.5
    ensures InUnit(a) && x == a * scale && 181.5 <= x < 182.5
  {
    if scale < 182.0 {
      a, x := 1.0, scale;
    } else {
      a, x := 182.0 / scale, 182.0;
      QuotientTimes(182.0, scale);
      ScalingKeepsOrder(a, 1.0, scale);
      ScalingKeepsOrder(-1.0, a, scale);
    }
  }

  lemma UnsafeFrom(scale: real, machine: int -> nat) returns (a: real)
    requires scale >= 181.5
    ensures InUnit(a) && !SlotIsExact(a, a, scale, machine)
  {
    var x;
    a, x := UnsafePoint(scale);
    RoundsTo182(x);
    SlotIsExactWithinHalf(a, a, scale, machine);
  }

  /** No product slot overflows, whatever the components in [-1, 1], if and only if the scale is below 181.5. */
  lemma SafeScales(scale: real, machine: int -> nat)
    requires scale > 0.0
    ensures ScaleIsSafe(scale, machine) <==> scale < 181.5
  {
    if scale < 181.5 {
      forall a: real, b: real | InUnit(a) && InUnit(b)
        ensures SlotIsExact(a, b, scale, machine)
      {
        SafeBelow(a, b, scale, machine);
      }
    } else {
      var a := UnsafeFrom(scale, machine);
      assert InUnit(a) && !SlotIsExact(a, a, scale, machine);
    }
  }

  lemma DefaultScaleIsSafe(machine: int -> nat)
    ensures ScaleIsSafe(DEFAULT_SCALE, machine)
  {
    SafeScales(DEFAULT_SCALE, machine);
  }

  /**
   From end to end: two vectors of components in [-1, 1], quantised at a safe scale, encrypted, multiplied slot by
   slot and decrypted, score within dim * (1/scale + 1/(4*scale^2)) of their real dot product.
   */
  lemma EncryptedScoreIsClose(a: seq<real>, b: seq<real>, scale: real, machine: int -> nat, n: nat)
    requires |a| == |b| <= n && 0.0 < scale < 181.5
    requires AllInUnit(a) && AllInUnit(b)
    ensures AbsReal(LiftedSum(ProductOf(a, b, scale, machine, n)[..|a|]) as real / (scale * scale) - RealDot(a, b))
         <= Tolerance(|a|, scale)
  {
    SafeScales(scale, machine);
    SlotSums(a, b, scale, machine, n, |a|);
    ScoreError(a, b, scale);
    WholeSlice(a);
    WholeSlice(b);
  }

  lemma WholeSlice(a: seq<real>)
    ensures a[..|a|] == a
  {
  }
}
