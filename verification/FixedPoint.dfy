/** The 16-bit fixed-point power of program/src/utils.rs: truncating square-and-multiply, where the
    integer r stands for the ratio r / 2^16. */
module FixedPoint {
  import opened Numbers

  /** `(a * b) >> 16` on u32: the product is reduced modulo 2^32, as a release build does; `NoOverflow`
      shows when that never matters. */
  function MulShift(a: u32, b: u32): u32 {
    a * b % TWO_32 / TWO_16
  }

  function PowFixed(x: u32, n: u64): u32 {
    if n == 1 then x
    else
      var q := n / 2;
      if q == 0 then x
      else
        var p := PowFixed(x, q);
        var sq := MulShift(p, p);
        if n % 2 == 1 then MulShift(sq, x) else sq
  }

  /** Every product formed while computing PowFixed(x, n) fits in 32 bits. */
  ghost predicate OverflowFree(x: u32, n: u64) {
    n < 2 ||
    var p := PowFixed(x, n / 2);
    && OverflowFree(x, n / 2)
    && p * p < TWO_32
    && (n % 2 == 1 ==> MulShift(p, p) * x < TWO_32)
  }

  lemma MulShiftExact(a: nat, b: nat)
    requires a < TWO_16 && b < TWO_16
    ensures a * b < TWO_32
    ensures MulShift(a, b) == a * b / TWO_16
    ensures MulShift(a, b) <= a
    ensures a > 0 ==> MulShift(a, b) < a
  {
    MulMonotone(a, TWO_16 - 1, b, TWO_16 - 1);
    var c := a * b;
    assert c < TWO_32;
    assert c % TWO_32 == c;
    MulMonotone(a, a, b, TWO_16 - 1);
    FloorIff(c, TWO_16, a);
    FloorIff(c, TWO_16, a + 1);
  }

  /** A 16-bit ratio stays a 16-bit ratio, and no power exceeds its base. */
  lemma {:induction false} AtMostBase(x: u16, n: u64)
    ensures PowFixed(x, n) <= x
  {
    if n >= 2 {
      AtMostBase(x, n / 2);
      var p := PowFixed(x, n / 2);
      MulShiftExact(p, p);
      MulShiftExact(MulShift(p, p), x);
    }
  }

  /** The exponents 0 and 1 both return the base. */
  lemma PowerOfOne(x: u32)
    ensures PowFixed(x, 1) == x && PowFixed(x, 0) == x
  {
  }

  /** Beyond 16 bits the u32 product wraps: the square of the ratio one is zero. */
  lemma ProductWraps(x: u32)
    requires x == 0x1_0000
    ensures PowFixed(x, 2) == 0
  {
    PowerOfOne(x);
    assert MulShift(x, x) == 0;
  }

  lemma PowerDecreases(x: u16, n: u64)
    requires n >= 2 && x > 0
    ensures PowFixed(x, n) < x
  {
    AtMostBase(x, n / 2);
    var p := PowFixed(x, n / 2);
    MulShiftExact(p, p);
    MulShiftExact(MulShift(p, p), x);
  }

  /** Exactly the 16-bit ratios are safe: for n >= 2 no product overflows if and only if x < 2^16. */
  lemma {:induction false} NoOverflow(x: u32, n: u64)
    requires n >= 2
    ensures OverflowFree(x, n) <==> x < TWO_16
  {
    if x < TWO_16 {
      AtMostBase(x, n / 2);
      var p := PowFixed(x, n / 2);
      MulShiftExact(p, p);
      MulShiftExact(MulShift(p, p), x);
    } else if n < 4 {
      MulMonotone(TWO_16, x, TWO_16, x);
    }
    if n >= 4 {
      NoOverflow(x, n / 2);
    }
  }

  // ----- How far the result is from the exact power -----

  /** r * 2^16^(n-1) <= x^n < (r + err) * 2^16^(n-1): r under-estimates x^n / 2^(16(n-1)) by less than err. */
  ghost predicate Within(r: nat, x: nat, n: nat, err: nat)
    requires n >= 1
  {
    r * Pow(TWO_16, n - 1) <= Pow(x, n) < (r + err) * Pow(TWO_16, n - 1)
  }

  lemma DifferenceOfSquares(x: nat, u: nat)
    requires u <= x
    ensures x * x == u * u + (x - u) * (x + u)
  {
    assert (x - u) * (x + u) == x * (x + u) - u * (x + u);
    assert x * (x + u) == x * x + x * u;
    assert u * (x + u) == u * x + u * u;
  }

  lemma Regroup(e: nat, D: nat, B: nat)
    ensures (e * D) * (2 * (B * D)) == 2 * e * (B * (D * D))
  {
    var dd := D * D;
    assert D * (B * D) == B * dd;
    assert (e * D) * (2 * (B * D)) == 2 * e * (D * (B * D));
  }

  lemma SquareOfProduct(p: nat, D: nat)
    ensures (p * D) * (p * D) == (p * p) * (D * D)
  {
    assert (p * D) * (p * D) == p * (D * (p * D));
    assert D * (p * D) == p * (D * D);
    assert p * (p * (D * D)) == (p * p) * (D * D);
  }

  lemma GapSquared(p: nat, X: nat, D: nat, e: nat, B: nat)
    requires p <= B
    requires p * D <= X <= (p + e) * D
    requires X <= B * D
    ensures X * X <= (p * p) * (D * D) + 2 * e * (B * (D * D))
  {
    var u, bd := p * D, B * D;
    assert (p + e) * D == u + e * D;
    MulMonotone(p, B, D, D);
    MulMonotone(X - u, e * D, X + u, 2 * bd);
    DifferenceOfSquares(X, u);
    SquareOfProduct(p, D);
    Regroup(e, D, B);
  }

  /** Bounds on a quotient survive multiplication by d. */
  lemma ScaledBounds(a: nat, B: nat, d: nat, q: nat)
    requires d > 0 && q * B <= a < (q + 1) * B
    ensures q * (B * d) <= a * d < (q + 1) * (B * d)
  {
    CancelFactor(q * B, a, d);
    CancelFactor((q + 1) * B, a, d);
    assert (q * B) * d == q * (B * d);
    assert ((q + 1) * B) * d == (q + 1) * (B * d);
  }

  lemma WithinUnits(sq: nat, e: nat, unit: nat, low: nat, x: nat)
    requires sq * unit <= low < (sq + 1) * unit && low <= x <= low + 2 * e * unit
    ensures sq * unit <= x < (sq + 2 * e + 1) * unit
  {
    assert (sq + 2 * e + 1) * unit == (sq + 1) * unit + 2 * e * unit;
  }

  /** Squaring: if p approximates X / D within e, then floor(p^2 / B) approximates X^2 / (B D^2) within 2e + 1. */
  lemma SquareError(p: nat, X: nat, D: nat, e: nat, B: nat, sq: nat)
    requires p <= B && D > 0
    requires p * D <= X <= (p + e) * D
    requires X <= B * D
    requires sq * B <= p * p < (sq + 1) * B
    ensures sq * (B * (D * D)) <= X * X < (sq + 2 * e + 1) * (B * (D * D))
  {
    var dd, low := D * D, (p * p) * (D * D);
    GapSquared(p, X, D, e, B);
    ScaledBounds(p * p, B, dd, sq);
    MulMonotone(p * D, X, p * D, X);
    SquareOfProduct(p, D);
    WithinUnits(sq, e, B * dd, low, X * X);
  }

  lemma GapMultiplied(s: nat, Y: nat, D: nat, e: nat, x: nat, B: nat)
    requires x <= B
    requires s * D <= Y <= (s + e) * D
    ensures (s * x) * D <= Y * x <= (s * x) * D + e * (B * D)
  {
    MulMonotone(s * D, Y, x, x);
    MulMonotone(Y, (s + e) * D, x, x);
    assert (s * D) * x == (s * x) * D;
    assert ((s + e) * D) * x == (s * x) * D + e * (x * D);
    MulMonotone(x, B, D, D);
    MulMonotone(e, e, x * D, B * D);
  }

  /** Multiplying: if s approximates Y / D within e, then floor(s x / B) approximates Y x / (B D) within e + 1. */
  lemma MultiplyError(s: nat, Y: nat, D: nat, e: nat, x: nat, B: nat, q: nat)
    requires x <= B && D > 0
    requires s * D <= Y <= (s + e) * D
    requires q * B <= s * x < (q + 1) * B
    ensures q * (B * D) <= Y * x < (q + e + 1) * (B * D)
  {
    GapMultiplied(s, Y, D, e, x, B);
    ScaledBounds(s * x, B, D, q);
    var unit := B * D;
    assert (q + e + 1) * unit == (q + 1) * unit + e * unit;
  }

  lemma PowBelow(x: u16, n: nat)
    requires n >= 1
    ensures Pow(x, n) <= TWO_16 * Pow(TWO_16, n - 1)
  {
    PowMonotone(x, TWO_16, n);
  }

  /** The approximation that both steps start from; exact for a first power. */
  ghost predicate Approximates(r: nat, x: nat, n: nat, err: nat)
    requires n >= 1
  {
    r * Pow(TWO_16, n - 1) <= Pow(x, n) <= (r + err) * Pow(TWO_16, n - 1)
  }

  lemma SquareStep(p: u16, x: u16, m: nat)
    requires m >= 1 && Approximates(p, x, m, m - 1)
    ensures Within(p * p / TWO_16, x, 2 * m, 2 * m - 1)
  {
    PowPositive(TWO_16, m - 1);
    PowBelow(x, m);
    FloorBounds(p * p, TWO_16);
    SquareError(p, Pow(x, m), Pow(TWO_16, m - 1), m - 1, TWO_16, p * p / TWO_16);
    PowAdd(x, m, m);
    PowAdd(TWO_16, m - 1, m - 1);
  }

  lemma MultiplyStep(s: u16, x: u16, n: nat)
    requires n >= 1 && Approximates(s, x, n, n - 1)
    ensures Within(s * x / TWO_16, x, n + 1, n)
  {
    PowPositive(TWO_16, n - 1);
    FloorBounds(s * x, TWO_16);
    MultiplyError(s, Pow(x, n), Pow(TWO_16, n - 1), n - 1, x, TWO_16, s * x / TWO_16);
  }

  /** The error of square-and-multiply: for n >= 2 the result is at most the exact ratio power and
      less than n - 1 units below it. */
  lemma {:induction false} ErrorBound(x: u16, n: u64)
    requires n >= 1
    ensures n >= 2 ==> Within(PowFixed(x, n), x, n, n - 1)
    ensures Approximates(PowFixed(x, n), x, n, n - 1)
  {
    if n == 1 {
      assert Pow(x, 1) == x * Pow(x, 0);
      assert Pow(TWO_16, 0) == 1;
    } else {
      var m := n / 2;
      ErrorBound(x, m);
      AtMostBase(x, m);
      var p := PowFixed(x, m);
      MulShiftExact(p, p);
      SquareStep(p, x, m);
      if n % 2 == 1 {
        MulShiftExact(MulShift(p, p), x);
        MultiplyStep(MulShift(p, p), x, 2 * m);
      }
    }
  }

  // ----- Comparison with one truncating multiplication per period -----

  /** The reference loop: multiply by x and truncate, once per period. */
  ghost function StepPower(x: u16, n: nat): (r: nat)
    requires n >= 1
    ensures r <= x
  {
    if n == 1 then x else
      MulShiftExact(StepPower(x, n - 1), x);
      StepPower(x, n - 1) * x / TWO_16
  }

  lemma {:induction false} StepErrorBound(x: u16, n: nat)
    requires n >= 1
    ensures n >= 2 ==> Within(StepPower(x, n), x, n, n - 1)
    ensures Approximates(StepPower(x, n), x, n, n - 1)
  {
    if n == 1 {
      assert Pow(x, 1) == x * Pow(x, 0);
      assert Pow(TWO_16, 0) == 1;
    } else {
      StepErrorBound(x, n - 1);
      MultiplyStep(StepPower(x, n - 1), x, n - 1);
    }
  }

  /** The fast power and the period-by-period power agree for n <= 2 and differ by at most n - 2 after that. */
  lemma FastAgreesWithStepwise(x: u16, n: u64)
    requires n >= 1
    ensures n <= 2 ==> PowFixed(x, n) == StepPower(x, n)
    ensures n >= 2 ==> StepPower(x, n) - (n - 2) <= PowFixed(x, n) <= StepPower(x, n) + (n - 2)
  {
    if n >= 2 {
      ErrorBound(x, n);
      StepErrorBound(x, n);
      var r, s, D := PowFixed(x, n), StepPower(x, n), Pow(TWO_16, n - 1);
      PowPositive(TWO_16, n - 1);
      CancelFactor(s + n - 1, r, D);
      CancelFactor(r + n - 1, s, D);
    }
  }

  // ----- Order properties -----

  lemma MulShiftMonotone(a: u16, b: u16, c: u16, d: u16)
    requires a <= c && b <= d
    ensures MulShift(a, b) <= MulShift(c, d)
  {
    MulShiftExact(a, b);
    MulShiftExact(c, d);
    MulMonotone(a, c, b, d);
    FloorMonotone(a * b, c * d, TWO_16);
  }

  /** A larger ratio has a larger power: charging less per period never costs more over n periods. */
  lemma {:induction false} MonotoneInBase(x: u16, y: u16, n: u64)
    requires x <= y
    ensures PowFixed(x, n) <= PowFixed(y, n)
  {
    if n >= 2 {
      MonotoneInBase(x, y, n / 2);
      AtMostBase(x, n / 2);
      AtMostBase(y, n / 2);
      var p, q := PowFixed(x, n / 2), PowFixed(y, n / 2);
      MulShiftMonotone(p, p, q, q);
      MulShiftExact(p, p);
      MulShiftExact(q, q);
      MulShiftMonotone(MulShift(p, p), x, MulShift(q, q), y);
    }
  }

  /** Doubling the exponent never raises the power, and lowers it whenever there is something left. */
  lemma DoublingShrinks(x: u16, n: u64)
    requires 1 <= n && 2 * n < TWO_64
    ensures PowFixed(x, 2 * n) <= PowFixed(x, n)
    ensures PowFixed(x, n) > 0 ==> PowFixed(x, 2 * n) < PowFixed(x, n)
  {
    AtMostBase(x, n);
    MulShiftExact(PowFixed(x, n), PowFixed(x, n));
  }

  /** The two possible successors of an exponent in the recursion. */
  lemma Successors(x: u16, n: u64, p: u16)
    requires 1 <= n && 2 * n < TWO_64 && PowFixed(x, n) == p
    ensures PowFixed(x, 2 * n) == p * p / TWO_16
    ensures 2 * n + 1 < TWO_64 ==> PowFixed(x, 2 * n + 1) == p * p / TWO_16 * x / TWO_16
  {
    MulShiftExact(p, p);
    MulShiftExact(MulShift(p, p), x);
    assert (2 * n + 1) / 2 == n;
  }

  lemma EvenStep(x: u16, n: u64, p: u16, q: u16)
    requires 1 <= n && 2 * n < TWO_64 && PowFixed(x, n) == p
    requires q == p * p / TWO_16
    ensures PowFixed(x, 2 * n) == q
  {
    Successors(x, n, p);
  }

  lemma OddStep(x: u16, n: u64, p: u16, sq: u16, q: u16)
    requires 1 <= n && 2 * n + 1 < TWO_64 && x == 65535 && PowFixed(x, n) == p
    requires sq == p * p / TWO_16 && q == sq * 65535 / TWO_16
    ensures PowFixed(x, 2 * n + 1) == q
  {
    Successors(x, n, p);
  }

  lemma Power1024(x: u16, one: u64)
    requires x == 65535 && one == 1
    ensures PowFixed(x, 1024 * one) == 64517
  {
    EvenStep(x, 1 * one, 65535, 65534);
    EvenStep(x, 2 * one, 65534, 65532);
    EvenStep(x, 4 * one, 65532, 65528);
    EvenStep(x, 8 * one, 65528, 65520);
    EvenStep(x, 16 * one, 65520, 65504);
    EvenStep(x, 32 * one, 65504, 65472);
    EvenStep(x, 64 * one, 65472, 65408);
    EvenStep(x, 128 * one, 65408, 65280);
    EvenStep(x, 256 * one, 65280, 65025);
    EvenStep(x, 512 * one, 65025, 64517);
  }

  lemma Power63(x: u16, one: u64)
    requires x == 65535 && one == 1
    ensures PowFixed(x, 64 * one - 1) == 65473
  {
    OddStep(x, 2 * one - 1, 65535, 65534, 65533);
    OddStep(x, 4 * one - 1, 65533, 65530, 65529);
    OddStep(x, 8 * one - 1, 65529, 65522, 65521);
    OddStep(x, 16 * one - 1, 65521, 65506, 65505);
    OddStep(x, 32 * one - 1, 65505, 65474, 65473);
  }

  lemma Power1023(x: u16, one: u64)
    requires x == 65535 && one == 1
    ensures PowFixed(x, 1024 * one - 1) == 64516
  {
    Power63(x, one);
    OddStep(x, 64 * one - 1, 65473, 65410, 65409);
    OddStep(x, 128 * one - 1, 65409, 65282, 65281);
    OddStep(x, 256 * one - 1, 65281, 65026, 65025);
    OddStep(x, 512 * one - 1, 65025, 64517, 64516);
  }

  /** Adding one to the exponent, in contrast, can raise the power: the truncations differ. */
  lemma NotMonotoneInExponent(x: u16, n: u64)
    requires x == 65535 && n == 1023
    ensures PowFixed(x, n) == 64516
    ensures PowFixed(x, n + 1) == 64517
  {
    var one: u64 := 1;
    Power1023(x, one);
    Power1024(x, one);
  }

  lemma NextBound(t: nat, x: nat, y: nat, r: nat, B: nat, D: nat)
    requires x <= B && D > 0 && B > 0
    requires t * (B * D) <= x * y && y < r * D
    ensures t < r
  {
    MulMonotone(x, B, y, y);
    assert t * (B * D) == (t * D) * B;
    CancelFactor(t * D, y, B);
    CancelFactor(r, t, D);
  }

  /** ... but never by more than n - 2 units. */
  lemma NextExponent(x: u16, n: u64)
    requires 2 <= n && n + 1 < TWO_64
    ensures PowFixed(x, n + 1) <= PowFixed(x, n) + n - 2
  {
    hide PowFixed;
    ErrorBound(x, n);
    ErrorBound(x, n + 1);
    PowPositive(TWO_16, n - 1);
    NextBound(PowFixed(x, n + 1), x, Pow(x, n), PowFixed(x, n) + n - 1, TWO_16, Pow(TWO_16, n - 1));
  }

  // ----- Powers of two -----

  lemma PowTwo16()
    ensures Pow(2, 16) == TWO_16
  {
    assert Pow(2, 8) == 256;
    PowAdd(2, 8, 8);
  }

  lemma PowTwoAtLeastTwo(e: nat)
    requires e >= 1
    ensures Pow(2, e) >= 2
  {
    PowPositive(2, e - 1);
  }

  lemma PowTwoRatio(a: nat)
    requires a <= 15
    ensures 0 < Pow(2, a) < TWO_16
  {
    PowTwo16();
    PowAdd(2, a, 16 - a);
    PowTwoAtLeastTwo(16 - a);
    PowPositive(2, a);
    MulMonotone(2, Pow(2, 16 - a), Pow(2, a), Pow(2, a));
  }

  lemma PowTwoMulShift(i: nat, j: nat)
    requires i <= 15 && j <= 15 && i + j >= 16
    ensures Pow(2, i) < TWO_16 && Pow(2, j) < TWO_16
    ensures MulShift(Pow(2, i), Pow(2, j)) == Pow(2, i + j - 16)
  {
    hide Pow, MulShift;
    PowTwoRatio(i);
    PowTwoRatio(j);
    var x, y, z := Pow(2, i), Pow(2, j), Pow(2, i + j - 16);
    PowTwo16();
    PowAdd(2, i, j);
    PowAdd(2, i + j - 16, 16);
    MulShiftExact(x, y);
    assert (z + 1) * TWO_16 == x * y + TWO_16;
    FloorUnique(x * y, TWO_16, z);
  }

  lemma PowTwoVanishes(a: nat, n: u64)
    requires a <= 15 && n >= 1 && a * n < 16 * (n - 1)
    requires 0 < Pow(2, a) < TWO_16
    ensures PowFixed(Pow(2, a), n) == 0
  {
    ErrorBound(Pow(2, a), n);
    PowTwo16();
    PowMul(2, a, n);
    PowMul(2, 16, n - 1);
    var gap := 16 * (n - 1) - a * n;
    PowAdd(2, a * n, gap);
    PowTwoAtLeastTwo(gap);
    PowPositive(2, a * n);
    MulMonotone(2, Pow(2, gap), Pow(2, a * n), Pow(2, a * n));
    CancelFactor(1, PowFixed(Pow(2, a), n), Pow(TWO_16, n - 1));
  }

  lemma PowTwoStep(a: nat, n: u64, e: nat)
    requires a <= 15 && n >= 2 && 8 <= e <= 15
    requires 0 < Pow(2, a) < TWO_16
    requires PowFixed(Pow(2, a), n / 2) == Pow(2, e)
    ensures n % 2 == 0 ==> PowFixed(Pow(2, a), n) == Pow(2, 2 * e - 16)
    ensures n % 2 == 1 && 2 * e + a >= 32 ==> PowFixed(Pow(2, a), n) == Pow(2, 2 * e + a - 32)
  {
    PowTwoMulShift(e, e);
    if n % 2 == 1 && 2 * e + a >= 32 {
      PowTwoMulShift(2 * e - 16, a);
    }
  }

  lemma HalfExponent(n: nat, k: nat, nk: nat) returns (mk: nat)
    requires n >= 2 && k >= 1 && nk == n * k
    ensures mk == n / 2 * k && mk >= 1
    ensures nk == if n % 2 == 1 then 2 * mk + k else 2 * mk
  {
    var m := n / 2;
    mk := m * k;
    assert n == 2 * m + n % 2;
    assert (2 * m + n % 2) * k == 2 * mk + (n % 2) * k;
    MulMonotone(1, m, 1, k);
  }

  lemma {:induction false} PowTwoExact(a: nat, n: u64, k: nat, nk: nat)
    requires a <= 15 && n >= 1 && k == 16 - a && nk == n * k && nk <= 16
    requires 0 < Pow(2, a) < TWO_16
    ensures PowFixed(Pow(2, a), n) == Pow(2, 16 - nk)
  {
    hide PowFixed, Pow;
    if n == 1 {
      PowerOfOne(Pow(2, a));
    } else {
      var mk := HalfExponent(n, k, nk);
      PowTwoExact(a, n / 2, k, mk);
      PowTwoStep(a, n, 16 - mk);
    }
  }

  /** On a ratio 2^a / 2^16 the result is exact: with k = 16 - a it is 2^(16 - nk), or 0 once that
      exponent is negative. */
  lemma PowersOfTwo(a: nat, n: u64)
    requires a <= 15 && n >= 1
    ensures Pow(2, a) < TWO_16
    ensures PowFixed(Pow(2, a), n) == if n * (16 - a) <= 16 then Pow(2, 16 - n * (16 - a)) else 0
  {
    hide PowFixed;
    PowTwoRatio(a);
    var nk := n * (16 - a);
    assert nk == 16 * n - a * n;
    if nk > 16 {
      PowTwoVanishes(a, n);
    } else {
      PowTwoExact(a, n, 16 - a, nk);
    }
  }

  // ----- Long waits -----

  lemma BernoulliStep(x: nat, y: nat, z: nat, m: nat)
    requires y == x * z
    ensures (x + 1) * (y + m * z) >= x * y + (m + 1) * y
  {
    assert x * (m * z) == m * y;
    assert (x + 1) * (y + m * z) == x * y + x * (m * z) + y + m * z;
  }

  lemma {:induction false} Bernoulli(x: nat, n: nat)
    requires n >= 1
    ensures Pow(x + 1, n) >= Pow(x, n) + n * Pow(x, n - 1)
  {
    if n >= 2 {
      Bernoulli(x, n - 1);
      var y, z := Pow(x, n - 1), Pow(x, n - 2);
      BernoulliStep(x, y, z, n - 1);
      MulMonotone(x + 1, x + 1, y + (n - 1) * z, Pow(x + 1, n - 1));
    } else {
      assert Pow(x + 1, 1) == x + 1;
      assert Pow(x, 1) == x;
    }
  }

  /** Whatever the fee, after 2^32 uncollected periods nothing is left of the ratio. */
  lemma VanishesEventually(x: u16, n: u64)
    requires n >= TWO_32
    ensures PowFixed(x, n) == 0
  {
    ErrorBound(x, n);
    var r, D, y := PowFixed(x, n), Pow(TWO_16, n - 1), Pow(x, n - 1);
    PowPositive(TWO_16, n - 1);
    if x > 0 {
      Bernoulli(x, n);
      PowMonotone(x + 1, TWO_16, n);
      PowPositive(x, n - 1);
      MulMonotone(TWO_32, n, y, y);
      assert TWO_16 * D >= x * y + n * y;
      MulMonotone(x, TWO_16, y, y);
      assert x * y < D;
    }
    CancelFactor(1, r, D);
  }
}
