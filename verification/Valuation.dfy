/** Converting token amounts to dollars (1e-8 USD units) and back at an oracle price. */
module Valuation {
  import opened Arith
  import opened State

  /** An oracle price: `price` times ten to the `exponent`. */
  datatype Price = Price(price: i64, exponent: int)

  /** 10^n when it fits 128 bits, the caller's fallback when it does not. */
  function CheckedPow10(n: nat, fallback: u128): (r: u128) {
    if Pow(10, n) <= U128_MAX then Pow(10, n) else fallback
  }

  function Shift(price: Price, decimals: u8): int {
    8 + price.exponent - decimals
  }

  function TokenUsd(amount: u64, price: Price, decimals: u8): u128 {
    var p: u128 := if 0 < price.price then price.price else 0;
    var raw := SatMul(amount, p);
    var shift := Shift(price, decimals);
    if 0 <= shift then SatMul(raw, CheckedPow10(shift, U128_MAX))
    else Quotient(raw, Divisor(-shift))
  }

  function UsdToToken(value: u128, price: Price, decimals: u8): u64 {
    if price.price <= 0 then 0
    else
      var p: u128 := price.price;
      var shift := Shift(price, decimals);
      var result :=
        if 0 <= shift then
          var denominator := SatMul(p, CheckedPow10(shift, U128_MAX));
          if denominator == 0 then 0 else Quotient(value, denominator)
        else Quotient(SatMul(value, Divisor(-shift)), p);
      if result <= U64_MAX then result else U64_MAX
  }

  function Quotient(x: u128, d: u128): u128
    requires d != 0
  {
    DivBounds(x, d);
    x / d
  }

  /** The power a negative shift divides by; past 10^38 the program falls back to one. */
  function Divisor(n: nat): (d: u128)
    ensures 1 <= d
  {
    PowPositive(10, n);
    CheckedPow10(n, 1)
  }

  // ---------- the raw product ----------

  /** A 64-bit amount times a 63-bit price never saturates. */
  lemma RawFits(amount: u64, p: int)
    requires 0 <= p <= I64_MAX
    ensures 0 <= amount * p <= U128_MAX
  {
    MulNonNegative(amount, p);
    MulMonotone(amount, U64_MAX, p);
    MulMonotone(p, I64_MAX, U64_MAX);
  }

  /** The dollar value before any saturation: the real meaning of `TokenUsd`
      wherever the scale 10^shift fits. */
  lemma TokenUsdMeans(amount: u64, price: Price, decimals: u8)
    requires 0 < price.price
    ensures var shift := Shift(price, decimals);
            && 0 <= amount * price.price <= U128_MAX
            && (0 <= shift ==>
                  var scale := CheckedPow10(shift, U128_MAX);
                  && 0 <= amount * price.price * scale
                  && TokenUsd(amount, price, decimals) == Min(amount * price.price * scale, U128_MAX))
            && (shift < 0 ==> TokenUsd(amount, price, decimals) == amount * price.price / Divisor(-shift))
  {
    RawFits(amount, price.price);
    var shift := Shift(price, decimals);
    if 0 <= shift {
      MulNonNegative(amount * price.price, CheckedPow10(shift, U128_MAX));
    }
  }

  lemma TokenUsdWorthless(amount: u64, price: Price, decimals: u8)
    requires price.price <= 0 || amount == 0
    ensures TokenUsd(amount, price, decimals) == 0
  {
    if price.price <= 0 {
      assert amount * 0 == 0;
    } else {
      assert 0 * price.price == 0;
    }
    var shift := Shift(price, decimals);
    if 0 <= shift {
      assert 0 * CheckedPow10(shift, U128_MAX) == 0;
    } else {
      DivUnique(0, Divisor(-shift), 0);
    }
  }

  // ---------- the two conversions, written out ----------

  /** The dollar value for every price, exponent and number of decimals: amount * price * 10^e, with
      e = 8 + exponent - decimals, rounded down and cut off at 2^128 - 1; past 10^38 the program
      multiplies by the largest value and divides by one. */
  lemma TokenUsdFormula(amount: u64, price: Price, decimals: u8)
    ensures var p, e, value := price.price, 8 + price.exponent - decimals, TokenUsd(amount, price, decimals);
            && (p <= 0 ==> value == 0)
            && (0 < p && 38 < e ==> value == if amount == 0 then 0 else U128_MAX)
            && (0 < p && 0 <= e <= 38 ==> value == Min(amount * p * Pow(10, e), U128_MAX))
            && (0 < p && -38 <= e < 0 ==> 0 < Pow(10, -e) && value == amount * p / Pow(10, -e))
            && (0 < p && e < -38 ==> value == amount * p)
  {
    hide TokenUsd, Pow;
    var p, e := price.price, 8 + price.exponent - decimals;
    if p <= 0 {
      TokenUsdWorthless(amount, price, decimals);
    } else {
      TokenUsdMeans(amount, price, decimals);
      if 0 <= e {
        Pow10Fits(e);
        if 38 < e && amount != 0 {
          MulMonotone(1, amount, p);
          MulMonotone(1, amount * p, U128_MAX);
        }
      } else {
        Pow10Fits(-e);
        PowPositive(10, -e);
        DivUnique(amount * p, 1, amount * p);
      }
    }
  }

  /** The token amount likewise: value / (price * 10^e), each product cut off at 2^128 - 1, rounded
      down and cut off at 2^64 - 1; nothing for a price that is not positive. */
  lemma UsdToTokenFormula(value: u128, price: Price, decimals: u8)
    ensures var p, e, amount := price.price, 8 + price.exponent - decimals, UsdToToken(value, price, decimals);
            && (p <= 0 ==> amount == 0)
            && (0 < p && 38 < e ==> amount == if value == U128_MAX then 1 else 0)
            && (0 < p && 0 <= e <= 38 ==>
                  var d := Min(p * Pow(10, e), U128_MAX); 0 < d && amount == Min(value / d, U64_MAX))
            && (0 < p && -38 <= e < 0 ==> amount == Min(Min(value * Pow(10, -e), U128_MAX) / p, U64_MAX))
            && (0 < p && e < -38 ==> amount == Min(value / p, U64_MAX))
  {
    hide Pow;
    var p, e := price.price, 8 + price.exponent - decimals;
    if 0 < p && 0 <= e {
      Pow10Fits(e);
      PowPositive(10, e);
      if 38 < e {
        MulMonotone(1, p, U128_MAX);
        DivUnique(value, U128_MAX, if value == U128_MAX then 1 else 0);
      } else {
        MulMonotone(1, p, Pow(10, e));
      }
    } else if 0 < p {
      Pow10Fits(-e);
      PowPositive(10, -e);
    }
  }

  /** At the prices the oracle posts: one token at $100, half of it, a thousandth of one at $80,000,
      nothing at all, and a negative price; and $100 back into one token. */
  lemma QuotedValues()
    ensures TokenUsd(1_000_000_000, Price(10_000_000_000, -8), 9) == 10_000_000_000
    ensures TokenUsd(500_000_000, Price(10_000_000_000, -8), 9) == 5_000_000_000
    ensures TokenUsd(1_000_000, Price(8_000_000_000_000, -8), 9) == 8_000_000_000
    ensures TokenUsd(0, Price(10_000_000_000, -8), 9) == 0
    ensures TokenUsd(1_000_000_000, Price(-100, -8), 9) == 0
    ensures TokenUsd(1_000_000_000, Price(10_000_000_000, -10), 9) == 100_000_000
    ensures UsdToToken(10_000_000_000, Price(10_000_000_000, -8), 9) == 1_000_000_000
    ensures UsdToToken(1_000_000_000, Price(0, -8), 9) == 0 && UsdToToken(1_000_000_000, Price(-42, -8), 9) == 0
  {
    TokenUsdFormula(1_000_000_000, Price(10_000_000_000, -8), 9);
    TokenUsdFormula(500_000_000, Price(10_000_000_000, -8), 9);
    TokenUsdFormula(1_000_000, Price(8_000_000_000_000, -8), 9);
    TokenUsdFormula(0, Price(10_000_000_000, -8), 9);
    TokenUsdFormula(1_000_000_000, Price(-100, -8), 9);
    TokenUsdFormula(1_000_000_000, Price(10_000_000_000, -10), 9);
    UsdToTokenFormula(10_000_000_000, Price(10_000_000_000, -8), 9);
    assert Pow(10, 4) == 10_000;
    PowAdd(10, 4, 5);
    PowAdd(10, 9, 2);
  }

  // ---------- order and addition ----------

  lemma TokenUsdMonotone(a: u64, b: u64, price: Price, decimals: u8)
    requires a <= b
    ensures TokenUsd(a, price, decimals) <= TokenUsd(b, price, decimals)
  {
    if price.price <= 0 {
      TokenUsdWorthless(a, price, decimals);
      TokenUsdWorthless(b, price, decimals);
    } else {
      TokenUsdMeans(a, price, decimals);
      TokenUsdMeans(b, price, decimals);
      MulMonotone(a, b, price.price);
      var shift := Shift(price, decimals);
      if 0 <= shift {
        MulMonotone(a * price.price, b * price.price, CheckedPow10(shift, U128_MAX));
      } else {
        DivMonotone(a * price.price, b * price.price, Divisor(-shift));
      }
    }
  }

  /** Valuing two amounts apart instead of together is off by at most one unit, and
      never above while the whole is not saturated. */
  lemma TokenUsdSum(a: u64, b: u64, price: Price, decimals: u8)
    requires a + b <= U64_MAX
    ensures TokenUsd(a + b, price, decimals) <= TokenUsd(a, price, decimals) + TokenUsd(b, price, decimals) + 1
    ensures TokenUsd(a + b, price, decimals) < U128_MAX ==>
              TokenUsd(a, price, decimals) + TokenUsd(b, price, decimals) <= TokenUsd(a + b, price, decimals)
  {
    if price.price <= 0 {
      TokenUsdWorthless(a, price, decimals);
      TokenUsdWorthless(b, price, decimals);
      TokenUsdWorthless(a + b, price, decimals);
    } else {
      hide TokenUsd, CheckedPow10, Divisor;
      var p := price.price;
      TokenUsdMeans(a, price, decimals);
      TokenUsdMeans(b, price, decimals);
      TokenUsdMeans(a + b, price, decimals);
      Distributes(a, b, p);
      var shift := Shift(price, decimals);
      if 0 <= shift {
        Distributes(a * p, b * p, CheckedPow10(shift, U128_MAX));
      } else {
        DivSum(a * p, b * p, Divisor(-shift));
      }
    }
  }

  lemma Distributes(a: int, b: int, c: int)
    ensures (a + b) * c == a * c + b * c
  {
  }

  // ---------- the two conversions are near-inverses ----------

  /** Dollars to tokens and back never gains. */
  lemma UsdRoundTrip(value: u128, price: Price, decimals: u8)
    ensures TokenUsd(UsdToToken(value, price, decimals), price, decimals) <= value
  {
    var amount := UsdToToken(value, price, decimals);
    if price.price <= 0 {
      TokenUsdWorthless(amount, price, decimals);
    } else {
      var p, shift := price.price, Shift(price, decimals);
      TokenUsdMeans(amount, price, decimals);
      if 0 <= shift {
        UsdRoundTripUp(value, amount, p, CheckedPow10(shift, U128_MAX));
      } else {
        UsdRoundTripDown(value, amount, p, Divisor(-shift));
      }
    }
  }

  lemma UsdRoundTripUp(value: u128, amount: u64, p: u128, scale: u128)
    requires 0 < p <= I64_MAX
    requires var d := SatMul(p, scale);
             amount == if d == 0 then 0 else Min(value / d, U64_MAX)
    ensures Min(amount * p * scale, U128_MAX) <= value
  {
    var d := SatMul(p, scale);
    MulNonNegative(p, scale);
    if d == 0 {
      assert 0 * p * scale == 0;
    } else {
      DivBounds(value, d);
      MulMonotone(amount, value / d, d);
      assert amount * p * scale == amount * (p * scale);
      if p * scale <= U128_MAX {
      } else if amount == 0 {
        assert amount * (p * scale) == 0;
      } else {
        MulMonotone(1, amount, d);
      }
    }
  }

  lemma UsdRoundTripDown(value: u128, amount: u64, p: u128, divisor: u128)
    requires 0 < p <= I64_MAX && 0 < divisor
    requires amount == Min(SatMul(value, divisor) / p, U64_MAX)
    ensures 0 <= amount * p && amount * p / divisor <= value
  {
    var product := SatMul(value, divisor);
    MulNonNegative(value, divisor);
    MulNonNegative(amount, p);
    DivBounds(product, p);
    MulMonotone(amount, product / p, p);
    DivAtMost(amount * p, divisor, value);
  }

  /** Tokens to dollars and back never gains either. */
  lemma TokenRoundTrip(amount: u64, price: Price, decimals: u8)
    ensures UsdToToken(TokenUsd(amount, price, decimals), price, decimals) <= amount
  {
    if 0 < price.price {
      var value := TokenUsd(amount, price, decimals);
      var p, shift := price.price, Shift(price, decimals);
      TokenUsdMeans(amount, price, decimals);
      if 0 <= shift {
        TokenRoundTripUp(amount, value, p, CheckedPow10(shift, U128_MAX));
      } else {
        TokenRoundTripDown(amount, value, p, Divisor(-shift));
      }
    }
  }

  lemma TokenRoundTripUp(amount: u64, value: u128, p: u128, scale: u128)
    requires 0 < p
    requires value == Min(amount * p * scale, U128_MAX)
    ensures var d := SatMul(p, scale); d == 0 || value / d <= amount
  {
    var d := SatMul(p, scale);
    assert amount * p * scale == amount * (p * scale);
    if d != 0 {
      MulNonNegative(p, scale);
      if p * scale <= U128_MAX {
        DivAtMost(value, d, amount);
      } else if amount == 0 {
        assert amount * (p * scale) == 0;
        DivAtMost(value, d, amount);
      } else {
        MulMonotone(1, amount, d);
        DivAtMost(value, d, amount);
      }
    }
  }

  lemma TokenRoundTripDown(amount: u64, value: u128, p: u128, divisor: u128)
    requires 0 < p && 0 < divisor && 0 <= amount * p
    requires value == amount * p / divisor
    ensures SatMul(value, divisor) / p <= amount
  {
    DivBounds(amount * p, divisor);
    MulNonNegative(value, divisor);
    DivAtMost(SatMul(value, divisor), p, amount);
  }

  /** Below the decimal point, tokens to dollars and back loses exactly the remainder of the
      division by m, the power of ten divided by, counted in whole prices and rounded up:
      ceil((amount * p mod m) / p) atoms, so at most ceil((m - 1) / p). */
  lemma TokenRoundTripLoss(amount: u64, price: Price, decimals: u8)
    requires 0 < price.price && -38 <= 8 + price.exponent - decimals < 0
    ensures var m, p := Pow(10, -(8 + price.exponent - decimals)), price.price;
            && 1 <= m
            && amount - UsdToToken(TokenUsd(amount, price, decimals), price, decimals) == (amount * p % m + p - 1) / p
            && (amount * p % m + p - 1) / p <= (m - 1 + p - 1) / p
  {
    hide TokenUsd, UsdToToken, CheckedPow10, Pow;
    var n := -Shift(price, decimals);
    var m := Pow(10, n);
    SmallDivisor(n);
    TokenUsdMeans(amount, price, decimals);
    ExactLoss(amount, price.price, m);
    UsdToTokenMeans(TokenUsd(amount, price, decimals), price, decimals);
    DivMonotone(amount * price.price % m + price.price - 1, m - 1 + price.price - 1, price.price);
  }

  lemma SmallDivisor(n: nat)
    requires n <= 38
    ensures 1 <= Pow(10, n) <= U128_MAX && Divisor(n) == Pow(10, n)
  {
    Pow10Fits(n);
    PowPositive(10, n);
  }

  lemma UsdToTokenMeans(value: u128, price: Price, decimals: u8)
    requires 0 < price.price && Shift(price, decimals) < 0
    ensures UsdToToken(value, price, decimals)
         == Min(SatMul(value, Divisor(-Shift(price, decimals))) / price.price, U64_MAX)
  {
    hide SatMul, Divisor;
  }

  lemma ExactLoss(amount: u64, p: u128, m: u128)
    requires 0 < p && 0 < m && 0 <= amount * p <= U128_MAX
    ensures var value := amount * p / m;
            && 0 <= value <= U128_MAX
            && amount - Min(SatMul(value, m) / p, U64_MAX) == (amount * p % m + p - 1) / p
  {
    var raw := amount * p;
    var value, lost := raw / m, raw % m;
    DivBounds(raw, m);
    assert raw == value * m + lost;
    MulNonNegative(value, m);
    var back := value * m / p;
    DivBounds(value * m, p);
    DivAtMost(value * m, p, amount);
    assert (amount - back) * p == raw - back * p;
    DivUnique(lost + p - 1, p, amount - back);
  }

  /** Past the largest power of ten the program divides and multiplies by one: nothing is lost. */
  lemma TokenRoundTripTiny(amount: u64, price: Price, decimals: u8)
    requires 0 < price.price && 8 + price.exponent - decimals < -38
    ensures UsdToToken(TokenUsd(amount, price, decimals), price, decimals) == amount
  {
    hide TokenUsd, UsdToToken;
    var p, n := price.price, -Shift(price, decimals);
    Pow10Fits(n);
    assert Divisor(n) == 1;
    TokenUsdMeans(amount, price, decimals);
    DivUnique(amount * p, 1, amount * p);
    UsdToTokenMeans(TokenUsd(amount, price, decimals), price, decimals);
    DivUnique(amount * p, p, amount);
  }

  /** The trip loses at most one atom on exactly these inputs: worthless single atoms; below the
      decimal point, amounts whose remainder is at most one price; past the largest power, all;
      at or above it, amounts of which all but one atom can be valued without saturation. */
  predicate LosesAtMostOne(amount: u64, price: Price, decimals: u8) {
    var p, shift := price.price, 8 + price.exponent - decimals;
    if p <= 0 then amount <= 1
    else if shift < -38 then true
    else if shift < 0 then PowPositive(10, -shift); amount * p % Pow(10, -shift) <= p
    else amount <= 2 || (amount - 1) * p * Pow(10, shift) <= U128_MAX
  }

  lemma TokenRoundTripWithinOneIff(amount: u64, price: Price, decimals: u8)
    ensures amount - UsdToToken(TokenUsd(amount, price, decimals), price, decimals) <= 1
       <==> LosesAtMostOne(amount, price, decimals)
  {
    hide TokenUsd, Pow;
    var p, shift := price.price, Shift(price, decimals);
    if p <= 0 {
    } else if shift < -38 {
      TokenRoundTripTiny(amount, price, decimals);
    } else if shift < 0 {
      TokenRoundTripLoss(amount, price, decimals);
      PowPositive(10, -shift);
      CeilingAtMostOne(amount * p % Pow(10, -shift), p);
    } else {
      LossAbove(amount, price, decimals);
    }
  }

  lemma CeilingAtMostOne(x: nat, p: nat)
    requires 0 < p
    ensures (x + p - 1) / p <= 1 <==> x <= p
  {
    DivBounds(x + p - 1, p);
    if x <= p {
      DivBelow(x + p - 1, p, 2);
    } else {
      DivAtLeast(x + p - 1, p, 2);
    }
  }

  lemma LossAbove(amount: u64, price: Price, decimals: u8)
    requires 0 < price.price && 0 <= Shift(price, decimals)
    ensures amount - UsdToToken(TokenUsd(amount, price, decimals), price, decimals) <= 1
       <==> amount <= 2 || (amount - 1) * price.price * Pow(10, Shift(price, decimals)) <= U128_MAX
  {
    hide TokenUsd, Pow;
    var p, power := price.price, Pow(10, Shift(price, decimals));
    var scale := CheckedPow10(Shift(price, decimals), U128_MAX);
    PowPositive(10, Shift(price, decimals));
    TokenUsdMeans(amount, price, decimals);
    var value := TokenUsd(amount, price, decimals);
    MulMonotone(1, p, scale);
    BackAbove(amount, value, p, scale);
    if 3 <= amount {
      SameSaturation(amount - 1, p, power);
    }
  }

  lemma BackAbove(amount: u64, value: u128, p: u128, scale: u128)
    requires 0 < p && 0 < scale && value == Min(amount * p * scale, U128_MAX)
    ensures var d := SatMul(p, scale);
            && 0 < d
            && (amount - Min(value / d, U64_MAX) <= 1 <==> amount <= 2 || (amount - 1) * p * scale <= U128_MAX)
  {
    MulMonotone(1, p, scale);
    MulAssociates(amount, p, scale);
    MulAssociates(amount - 1, p, scale);
    MulNonNegative(amount, p * scale);
    var d := SatMul(p, scale);
    DivBounds(value, d);
    if amount <= 1 {
    } else if p * scale <= U128_MAX {
      MulMonotone(amount - 1, amount, d);
      MulMonotone(1, amount - 1, d);
      if (amount - 1) * d <= U128_MAX {
        DivAtLeast(value, d, amount - 1);
      } else {
        DivBelow(value, d, amount - 1);
      }
    } else {
      MulMonotone(1, amount, p * scale);
      DivUnique(value, d, 1);
      if 3 <= amount {
        MulMonotone(1, amount - 1, p * scale);
      }
    }
  }

  /** Nine atoms at one dollar-microcent for ten atoms: all nine are lost. */
  lemma TokenRoundTripCanLoseAll()
    ensures var price := Price(1, 0);
            UsdToToken(TokenUsd(9, price, MINT_DECIMALS), price, MINT_DECIMALS) == 0
  {
    assert Pow(10, 1) == 10;
  }

  lemma Pow10Fits(n: nat)
    ensures Pow(10, n) <= U128_MAX <==> n <= 38
  {
    assert Pow(10, 5) == 100_000;
    PowAdd(10, 5, 5);
    PowAdd(10, 10, 10);
    PowAdd(10, 20, 10);
    PowAdd(10, 30, 5);
    assert Pow(10, 3) == 1000;
    PowAdd(10, 35, 3);
    assert Pow(10, 38) == 100_000_000_000_000_000_000_000_000_000_000_000_000;
    if n <= 38 {
      PowMonotone(10, n, 38);
    } else {
      assert Pow(10, 39) == 10 * Pow(10, 38);
      PowMonotone(10, 39, n);
    }
  }

  /** At or above the decimal point the round trip is exact precisely when nothing
      saturates, a single atom aside. */
  lemma TokenRoundTripExact(amount: u64, price: Price, decimals: u8)
    requires 0 < price.price && 0 <= 8 + price.exponent - decimals
    ensures UsdToToken(TokenUsd(amount, price, decimals), price, decimals) == amount
       <==> amount <= 1 || amount * price.price * Pow(10, 8 + price.exponent - decimals) <= U128_MAX
  {
    var p, power := price.price, Pow(10, Shift(price, decimals));
    var scale := CheckedPow10(Shift(price, decimals), U128_MAX);
    PowPositive(10, Shift(price, decimals));
    TokenUsdMeans(amount, price, decimals);
    var value := TokenUsd(amount, price, decimals);
    MulMonotone(1, p, scale);
    if amount == 0 || amount * p * scale <= U128_MAX {
      ExactWhenFits(amount, value, p, scale);
    } else {
      ExactWhenSaturated(amount, value, p, scale);
    }
    SameSaturation(amount, p, power);
  }

  /** Replacing an overflowing power by the largest 128-bit value saturates the same amounts,
      but for the single atom. */
  lemma SameSaturation(amount: u64, p: nat, power: nat)
    requires 0 < p && 0 < power
    ensures var scale := if power <= U128_MAX then power else U128_MAX;
            2 <= amount ==> (amount * p * scale <= U128_MAX <==> amount * p * power <= U128_MAX)
  {
    if U128_MAX < power && 2 <= amount {
      MulMonotone(2, amount, p);
      MulMonotone(2, amount * p, power);
      MulMonotone(2, amount * p, U128_MAX);
    }
  }

  lemma ExactWhenFits(amount: u64, value: u128, p: u128, scale: u128)
    requires 0 < p && 0 < scale && value == amount * p * scale
    ensures var d := SatMul(p, scale); 0 < d && value / d == amount
  {
    var d := p * scale;
    MulAssociates(amount, p, scale);
    MulMonotone(1, p, scale);
    if 1 <= amount {
      MulMonotone(1, amount, d);
      assert SatMul(p, scale) == d;
    }
    DivUnique(value, SatMul(p, scale), amount);
  }

  lemma ExactWhenSaturated(amount: u64, value: u128, p: u128, scale: u128)
    requires 1 <= amount && 0 < p && 0 < scale
    requires U128_MAX < amount * p * scale && value == U128_MAX
    ensures var d := SatMul(p, scale);
            0 < d && (amount == 1 ==> value / d == 1) && (1 < amount ==> value / d < amount)
  {
    assert amount * p * scale == amount * (p * scale);
    MulMonotone(1, p, scale);
    var d := SatMul(p, scale);
    if amount == 1 {
      DivUnique(value, d, 1);
    } else {
      MulMonotone(2, amount, d);
      DivBelow(value, d, amount);
    }
  }
}
