/** Rust's unsigned widths, its saturating operators, and the few facts about
    products, quotients and powers that the rest of the project leans on. */
module Arith {

  const U64_MAX: int := 0xFFFF_FFFF_FFFF_FFFF
  const I64_MAX: int := 0x7FFF_FFFF_FFFF_FFFF
  const U128_MAX: int := 0xFFFF_FFFF_FFFF_FFFF_FFFF_FFFF_FFFF_FFFF

  type u8 = x: int | 0 <= x <= 0xFF
  type u16 = x: int | 0 <= x <= 0xFFFF
  type u64 = x: int | 0 <= x <= U64_MAX
  type u128 = x: int | 0 <= x <= U128_MAX
  type i64 = x: int | -I64_MAX - 1 <= x <= I64_MAX

  function Min(a: int, b: int): int {
    if a <= b then a else b
  }

  function SatAdd(a: u128, b: u128): u128 {
    Min(a + b, U128_MAX)
  }

  function SatMul(a: u128, b: u128): u128 {
    MulNonNegative(a, b);
    Min(a * b, U128_MAX)
  }

  function SatSub(a: u64, b: u64): u64 {
    if a <= b then 0 else a - b
  }

  function Pow(base: nat, exponent: nat): nat {
    if exponent == 0 then 1 else base * Pow(base, exponent - 1)
  }

  lemma MulNonNegative(a: int, b: int)
    requires 0 <= a && 0 <= b
    ensures 0 <= a * b
  {
  }

  lemma MulMonotone(a: int, b: int, c: int)
    requires 0 <= c && a <= b
    ensures a * c <= b * c && c * a <= c * b
  {
  }

  lemma MulAssociates(a: int, b: int, c: int)
    ensures (a * b) * c == a * (b * c)
  {
  }

  lemma Exchange(a: int, b: int, c: int)
    ensures (a * b) * c == (a * c) * b
  {
  }

  lemma MulCancel(a: int, b: int, c: int)
    requires 0 < c && a * c <= b * c
    ensures a <= b
  {
    if b < a {
      MulMonotone(1, a - b, c);
    }
  }

  /** The quotient of a floor division, pinned down by multiplication alone. */
  lemma DivBounds(x: int, d: int)
    requires 0 <= x && 0 < d
    ensures 0 <= x / d <= x
    ensures (x / d) * d <= x < (x / d) * d + d
  {
    var q, r := x / d, x % d;
    assert x == q * d + r;
    if q < 0 {
      MulMonotone(q, -1, d);
    }
    MulMonotone(1, d, q);
  }

  lemma DivUnique(x: int, d: int, q: int)
    requires 0 <= x && 0 < d
    requires q * d <= x < q * d + d
    ensures x / d == q
  {
    DivBounds(x, d);
    var q' := x / d;
    if q' < q {
      MulMonotone(q' + 1, q, d);
    } else if q < q' {
      MulMonotone(q + 1, q', d);
    }
  }

  lemma DivAtMost(x: int, d: int, q: int)
    requires 0 <= x && 0 < d && x <= q * d
    ensures x / d <= q
  {
    DivBounds(x, d);
    MulCancel(x / d, q, d);
  }

  lemma DivAtLeast(x: int, d: int, q: int)
    requires 0 <= x && 0 < d && q * d <= x
    ensures q <= x / d
  {
    DivBounds(x, d);
    if x / d < q {
      MulMonotone(x / d + 1, q, d);
    }
  }

  lemma DivBelow(x: int, d: int, q: int)
    requires 0 <= x && 0 < d && x < q * d
    ensures x / d < q
  {
    DivBounds(x, d);
    if q <= x / d {
      MulMonotone(q, x / d, d);
    }
  }

  lemma DivMonotone(x: int, y: int, d: int)
    requires 0 <= x <= y && 0 < d
    ensures x / d <= y / d
  {
    DivBounds(x, d);
    DivAtLeast(y, d, x / d);
  }

  /** Flooring a sum and summing the floors differ by less than one. */
  lemma DivSum(x: int, y: int, d: int)
    requires 0 <= x && 0 <= y && 0 < d
    ensures x / d + y / d <= (x + y) / d <= x / d + y / d + 1
  {
    DivBounds(x, d);
    DivBounds(y, d);
    var a, b := x / d, y / d;
    assert (a + b) * d == a * d + b * d;
    assert (a + b + 2) * d == a * d + b * d + 2 * d;
    DivAtLeast(x + y, d, a + b);
    DivBelow(x + y, d, a + b + 2);
  }

  lemma PowPositive(base: nat, exponent: nat)
    requires 0 < base
    ensures 1 <= Pow(base, exponent)
  {
    if exponent != 0 {
      PowPositive(base, exponent - 1);
      MulMonotone(1, Pow(base, exponent - 1), base);
    }
  }

  lemma PowAdd(base: nat, m: nat, n: nat)
    ensures Pow(base, m + n) == Pow(base, m) * Pow(base, n)
  {
    if m != 0 {
      PowAdd(base, m - 1, n);
      assert Pow(base, m + n) == base * (Pow(base, m - 1) * Pow(base, n));
      assert Pow(base, m) * Pow(base, n) == base * Pow(base, m - 1) * Pow(base, n);
    }
  }

  lemma PowMonotone(base: nat, m: nat, n: nat)
    requires 1 <= base && m <= n
    ensures Pow(base, m) <= Pow(base, n)
  {
    PowAdd(base, m, n - m);
    PowPositive(base, n - m);
    MulMonotone(1, Pow(base, n - m), Pow(base, m));
  }

  /** Bernoulli's inequality over the naturals, scaled by `s` to avoid fractions. */
  lemma {:induction false} Bernoulli(s: nat, r: nat, n: nat)
    ensures (s + r * n) * Pow(s, n) <= s * Pow(s + r, n)
  {
    if n != 0 {
      var k := n - 1;
      Bernoulli(s, r, k);
      MulNonNegative(r, k);
      assert r * n == r * k + r;
      BernoulliStep(s, r, s + r * k, Pow(s, k), Pow(s + r, k));
    }
  }

  lemma BernoulliStep(s: nat, r: nat, a: nat, p: nat, q: nat)
    requires s <= a && a * p <= s * q
    ensures (a + r) * (s * p) <= s * ((s + r) * q)
  {
    calc {
      (a + r) * (s * p);
      s * (a * p) + s * (r * p);
    <= { MulNonNegative(r, p); MulMonotone(s, a, r * p); }
      s * (a * p) + a * (r * p);
      (s + r) * (a * p);
    <= { MulMonotone(a * p, s * q, s + r); }
      (s + r) * (s * q);
      s * ((s + r) * q);
    }
  }
}
