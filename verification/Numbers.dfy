/** Machine integers, powers and floor division. */
module Numbers {
  const TWO_16: nat := 0x1_0000
  const TWO_32: nat := 0x1_0000_0000
  const TWO_53: nat := 0x20_0000_0000_0000
  const TWO_64: nat := 0x1_0000_0000_0000_0000
  const TWO_128: nat := 0x1_0000_0000_0000_0000_0000_0000_0000_0000
  const MAX_U64: nat := 0xFFFF_FFFF_FFFF_FFFF

  type byte = n: nat | n < 0x100
  type u16 = n: nat | n < 0x1_0000
  type u32 = n: nat | n < 0x1_0000_0000
  type u64 = n: nat | n < 0x1_0000_0000_0000_0000
  type u128 = n: nat | n < 0x1_0000_0000_0000_0000_0000_0000_0000_0000

  function Min(a: u64, b: u64): u64 {
    if a <= b then a else b
  }

  /** Unsigned 64-bit subtraction as the release build performs it: modulo 2^64. */
  function WrapSub(a: u64, b: u64): u64 {
    if b <= a then a - b else a + TWO_64 - b
  }

  lemma WrapSubIsModular(a: u64, b: u64)
    ensures WrapSub(a, b) == (a + TWO_64 - b) % TWO_64
  {
  }

  function Pow(b: nat, e: nat): nat {
    if e == 0 then 1 else b * Pow(b, e - 1)
  }

  lemma {:induction false} PowAdd(b: nat, m: nat, n: nat)
    ensures Pow(b, m + n) == Pow(b, m) * Pow(b, n)
  {
    if m == 0 {
      assert Pow(b, 0) == 1;
    } else {
      PowAdd(b, m - 1, n);
      var x, y := Pow(b, m - 1), Pow(b, n);
      assert Pow(b, m + n) == b * (x * y);
      assert b * (x * y) == (b * x) * y;
    }
  }

  lemma {:induction false} PowMul(b: nat, m: nat, n: nat)
    ensures Pow(Pow(b, m), n) == Pow(b, m * n)
  {
    if n == 0 {
      assert m * n == 0;
    } else {
      PowMul(b, m, n - 1);
      assert m * n == m + m * (n - 1);
      PowAdd(b, m, m * (n - 1));
    }
  }

  lemma {:induction false} PowPositive(b: nat, e: nat)
    requires b > 0
    ensures Pow(b, e) > 0
  {
    if e > 0 {
      PowPositive(b, e - 1);
      assert b * Pow(b, e - 1) > 0;
    }
  }

  lemma {:induction false} PowMonotone(a: nat, b: nat, e: nat)
    requires a <= b
    ensures Pow(a, e) <= Pow(b, e)
  {
    if e > 0 {
      PowMonotone(a, b, e - 1);
      MulMonotone(a, b, Pow(a, e - 1), Pow(b, e - 1));
    }
  }

  lemma MulMonotone(a: nat, b: nat, c: nat, d: nat)
    requires a <= b && c <= d
    ensures a * c <= b * d
  {
    assert a * c <= b * c;
    assert b * c <= b * d;
  }

  /** A common positive factor can be cancelled from an inequality. */
  lemma CancelFactor(a: nat, b: nat, d: nat)
    requires d > 0
    ensures a <= b <==> a * d <= b * d
  {
    if a <= b {
      MulMonotone(a, b, d, d);
    } else {
      MulMonotone(b + 1, a, d, d);
      assert (b + 1) * d == b * d + d;
    }
  }

  lemma FloorBounds(a: nat, d: nat)
    requires d > 0
    ensures (a / d) * d <= a < (a / d + 1) * d
  {
    assert a == (a / d) * d + a % d;
    assert (a / d + 1) * d == (a / d) * d + d;
  }

  /** The floor of a / d is the greatest q with q * d <= a. */
  lemma FloorIff(a: nat, d: nat, q: nat)
    requires d > 0
    ensures q <= a / d <==> q * d <= a
  {
    FloorBounds(a, d);
    if q <= a / d {
      MulMonotone(q, a / d, d, d);
    } else {
      MulMonotone(a / d + 1, q, d, d);
    }
  }

  lemma FloorUnique(a: nat, d: nat, q: nat)
    requires d > 0
    requires q * d <= a < (q + 1) * d
    ensures a / d == q
  {
    FloorIff(a, d, q);
    FloorIff(a, d, q + 1);
  }

  lemma FloorMonotone(a: nat, b: nat, d: nat)
    requires d > 0 && a <= b
    ensures a / d <= b / d
  {
    var q := a / d;
    FloorIff(a, d, q);
    FloorIff(b, d, q);
  }
}
