/** The lazy interest index: `accrue_market`, `accrue_position`, and bounds on what
    any schedule of calls to them can do to the index and to a debt. */
module Interest {
  import opened Arith
  import opened State

  function AccrueMarket(m: Market, slot: u64): Market {
    if slot <= m.lastUpdateSlot then m
    else
      var slots: u128 := slot - m.lastUpdateSlot;
      var growth := SatMul(SatMul(m.borrowIndexE18, m.borrowRatePerSlotE18), slots) / RATE_SCALE_E18;
      m.(borrowIndexE18 := SatAdd(m.borrowIndexE18, growth), lastUpdateSlot := slot)
  }

  /** A debt of `borrowed` taken at index `snapshot`, restated at `index`. */
  function Restate(borrowed: u64, snapshot: u128, index: u128): u64 {
    if snapshot == 0 || borrowed == 0 || snapshot == index then borrowed
    else
      DivBounds(SatMul(borrowed, index), snapshot);
      Min(SatMul(borrowed, index) / snapshot, U64_MAX)
  }

  function AccruePosition(p: Position, m: Market): Position {
    p.(borrowed := Restate(p.borrowed, p.snapshotE18, m.borrowIndexE18), snapshotE18 := m.borrowIndexE18)
  }

  // ---------- the two accruals, written out ----------

  /** The index grows linearly in the slots passed, index * rate * slots / 1e18 at a time, product and
      sum cut off at 2^128 - 1; nothing but index and slot changes, and within a slot not even those. */
  lemma AccrueFormula(m: Market, slot: u64)
    ensures var n := AccrueMarket(m, slot);
            && n == m.(borrowIndexE18 := n.borrowIndexE18, lastUpdateSlot := n.lastUpdateSlot)
            && (slot <= m.lastUpdateSlot ==> n == m)
            && (m.lastUpdateSlot < slot ==>
                  var product := m.borrowIndexE18 * m.borrowRatePerSlotE18 * (slot - m.lastUpdateSlot);
                  && n.lastUpdateSlot == slot
                  && n.borrowIndexE18 == Min(m.borrowIndexE18 + Min(product, U128_MAX) / RATE_SCALE_E18, U128_MAX))
  {
    if m.lastUpdateSlot < slot {
      var x, slots := m.borrowIndexE18 * m.borrowRatePerSlotE18, slot - m.lastUpdateSlot;
      MulNonNegative(m.borrowIndexE18, m.borrowRatePerSlotE18);
      MulMonotone(1, slots, x);
      MulMonotone(1, slots, U128_MAX);
    }
  }

  /** A debt is restated to debt * index / snapshot, the product cut off at 2^128 - 1 and the quotient
      at 2^64 - 1; not at all if the index stood still or the snapshot was never taken. */
  lemma RestateFormula(p: Position, m: Market)
    ensures var q, s, i := AccruePosition(p, m), p.snapshotE18, m.borrowIndexE18;
            && q == p.(borrowed := q.borrowed, snapshotE18 := i)
            && (s == 0 || s == i ==> q.borrowed == p.borrowed)
            && (s != 0 && s != i ==> q.borrowed == Min(Min(p.borrowed * i, U128_MAX) / s, U64_MAX))
  {
    if p.borrowed == 0 && p.snapshotE18 != 0 {
      assert 0 * m.borrowIndexE18 == 0;
      DivUnique(0, p.snapshotE18, 0);
    }
  }

  // ---------- idempotence ----------

  lemma AccrueTwice(p: Position, m: Market, slot: u64)
    ensures AccrueMarket(AccrueMarket(m, slot), slot) == AccrueMarket(m, slot)
    ensures AccruePosition(AccruePosition(p, m), m) == AccruePosition(p, m)
  {
  }

  // ---------- one restatement ----------

  /** Restating never overcharges, saturated or not. */
  lemma RestateUpper(borrowed: u64, snapshot: u128, index: u128)
    requires 0 < snapshot
    ensures Restate(borrowed, snapshot, index) * snapshot <= borrowed * index
  {
    if borrowed != 0 && snapshot != index {
      DivBounds(SatMul(borrowed, index), snapshot);
      MulNonNegative(borrowed, index);
      MulMonotone(Restate(borrowed, snapshot, index), SatMul(borrowed, index) / snapshot, snapshot);
    }
  }

  /** The product and the quotient of a restatement both fit. */
  ghost predicate Fits(borrowed: u64, snapshot: u128, index: u128) {
    0 < snapshot && borrowed * index <= U128_MAX && borrowed * index / snapshot <= U64_MAX
  }

  lemma RestateLower(borrowed: u64, snapshot: u128, index: u128)
    requires Fits(borrowed, snapshot, index)
    ensures borrowed * index < Restate(borrowed, snapshot, index) * snapshot + snapshot
  {
    if borrowed == 0 {
      assert borrowed * index == 0;
    } else if snapshot != index {
      MulNonNegative(borrowed, index);
      DivBounds(borrowed * index, snapshot);
    }
  }

  /** Interest can shrink a debt, and this is exactly when: the debt times its own
      snapshot no longer fits 128 bits. */
  lemma RestateShrinksIff(borrowed: u64, snapshot: u128, index: u128)
    requires 0 < snapshot <= index
    ensures Restate(borrowed, snapshot, index) < borrowed
       <==> snapshot < index && U128_MAX < borrowed * snapshot
  {
    if borrowed != 0 && snapshot != index {
      MulMonotone(snapshot, index, borrowed);
      var product := SatMul(borrowed, index);
      DivBounds(product, snapshot);
      if U128_MAX < borrowed * snapshot {
        assert product == U128_MAX;
        MulCancel(product / snapshot, borrowed, snapshot);
      } else {
        DivAtLeast(product, snapshot, borrowed);
      }
    } else if borrowed == 0 {
      assert borrowed * snapshot == 0;
    }
  }

  // The index of a market at the steepest rate after one slot, and its next, saturated, value;
  // and what a debt of 1.8e19 at the first is restated to at the second.
  const OVERGROWN_INDEX: u128 := RATE_SCALE_E18 + U64_MAX
  const SATURATED_INDEX: u128 := OVERGROWN_INDEX + 340_282_366_920_938_463_463
  const SHRUNKEN: u64 := 17_498_166_563_572_619_250

  /** Markets and debts do get there: the index passes 2^64 after one slot at the steepest rate,
      and a debt of 1.8e19 taken then is lower a slot later. */
  lemma RestateCanShrink()
    ensures forall m: Market | m.borrowRatePerSlotE18 == U64_MAX && m.borrowIndexE18 == RATE_SCALE_E18
            && m.lastUpdateSlot == 0 ::
              && AccrueMarket(m, 1).borrowIndexE18 == OVERGROWN_INDEX
              && AccrueMarket(AccrueMarket(m, 1), 2).borrowIndexE18 == SATURATED_INDEX
    ensures Restate(18_000_000_000_000_000_000, OVERGROWN_INDEX, SATURATED_INDEX) == SHRUNKEN
  {
    assert SatMul(OVERGROWN_INDEX, U64_MAX) == U128_MAX;
    DivUnique(U128_MAX, OVERGROWN_INDEX, SHRUNKEN);
  }

  // ---------- any chain of restatements ----------

  /** The markets a position meets, in order, have indices that never go down. */
  ghost predicate Rising(index: u128, markets: seq<Market>)
    decreases |markets|
  {
    markets == [] || (index <= markets[0].borrowIndexE18 && Rising(markets[0].borrowIndexE18, markets[1..]))
  }

  function AccrueThrough(p: Position, markets: seq<Market>): Position
    decreases |markets|
  {
    if markets == [] then p else AccrueThrough(AccruePosition(p, markets[0]), markets[1..])
  }

  ghost predicate AllFit(p: Position, markets: seq<Market>)
    decreases |markets|
  {
    markets == [] ||
    (Fits(p.borrowed, p.snapshotE18, markets[0].borrowIndexE18) && AllFit(AccruePosition(p, markets[0]), markets[1..]))
  }

  /** However a debt is restated on the way from one index to another, it ends at or
      below the one-shot restatement: debt' <= floor(debt * final / initial). */
  lemma {:induction false} StagedDebtUpper(p: Position, markets: seq<Market>)
    requires 0 < p.snapshotE18 && Rising(p.snapshotE18, markets)
    ensures var q := AccrueThrough(p, markets);
            && q.borrowed * p.snapshotE18 <= p.borrowed * q.snapshotE18
            && q.borrowed <= p.borrowed * q.snapshotE18 / p.snapshotE18
    decreases |markets|
  {
    var q := AccrueThrough(p, markets);
    if markets != [] {
      var r := AccruePosition(p, markets[0]);
      StagedDebtUpper(r, markets[1..]);
      RestateUpper(p.borrowed, p.snapshotE18, r.snapshotE18);
      ChainRatio(p.borrowed, p.snapshotE18, r.borrowed, r.snapshotE18, q.borrowed, q.snapshotE18);
    }
    MulNonNegative(p.borrowed, q.snapshotE18);
    DivAtLeast(p.borrowed * q.snapshotE18, p.snapshotE18, q.borrowed);
  }

  lemma ChainRatio(b0: nat, i0: nat, b1: nat, i1: nat, b2: nat, i2: nat)
    requires 0 < i1 && b1 * i0 <= b0 * i1 && b2 * i1 <= b1 * i2
    ensures b2 * i0 <= b0 * i2
  {
    MulMonotone(b2 * i1, b1 * i2, i0);
    MulMonotone(b1 * i0, b0 * i1, i2);
    assert (b2 * i0) * i1 == (b2 * i1) * i0;
    assert (b1 * i2) * i0 == (b1 * i0) * i2;
    assert (b0 * i2) * i1 == (b0 * i1) * i2;
    MulCancel(b2 * i0, b0 * i2, i1);
  }

  /** The sum of the reciprocals of the indices a debt was restated at. */
  ghost function Reciprocals(markets: seq<Market>): real {
    if markets == [] || markets[0].borrowIndexE18 == 0 then 0.0
    else 1.0 / markets[0].borrowIndexE18 as real + Reciprocals(markets[1..])
  }

  ghost function Ratio(debt: int, index: nat): real
    requires 0 < index
  {
    debt as real / index as real
  }

  /** Each restatement loses less than one unit, so, measured per unit of index, a chain
      loses less than the sum of the reciprocals of its indices. */
  lemma {:induction false} StagedDebtLower(p: Position, markets: seq<Market>)
    requires 0 < p.snapshotE18 && Rising(p.snapshotE18, markets) && AllFit(p, markets)
    ensures var q := AccrueThrough(p, markets);
            && 0 < q.snapshotE18
            && Ratio(p.borrowed, p.snapshotE18) - Reciprocals(markets) <= Ratio(q.borrowed, q.snapshotE18)
            && (markets != [] ==>
               Ratio(p.borrowed, p.snapshotE18) - Reciprocals(markets) < Ratio(q.borrowed, q.snapshotE18))
    decreases |markets|
  {
    if markets != [] {
      var r := AccruePosition(p, markets[0]);
      RestateLower(p.borrowed, p.snapshotE18, r.snapshotE18);
      RatioStep(p.borrowed, p.snapshotE18, r.borrowed, r.snapshotE18);
      StagedDebtLower(r, markets[1..]);
    }
  }

  /** The same in units of debt: debt' > debt * final / initial - sum of final / index_k. */
  lemma StagedDebtFloor(p: Position, markets: seq<Market>)
    requires markets != [] && 0 < p.snapshotE18 && Rising(p.snapshotE18, markets) && AllFit(p, markets)
    ensures var q := AccrueThrough(p, markets);
            (Ratio(p.borrowed, p.snapshotE18) - Reciprocals(markets)) * q.snapshotE18 as real < q.borrowed as real
  {
    hide Ratio, Rising, AllFit, AccrueThrough, Reciprocals;
    StagedDebtLower(p, markets);
    var q := AccrueThrough(p, markets);
    RatioTimes(q.borrowed, q.snapshotE18);
    RealScale(Ratio(p.borrowed, p.snapshotE18) - Reciprocals(markets), Ratio(q.borrowed, q.snapshotE18),
        q.snapshotE18 as real);
  }

  lemma RatioTimes(debt: int, index: nat)
    requires 0 < index
    ensures Ratio(debt, index) * index as real == debt as real
  {
  }

  lemma RealScale(u: real, v: real, k: real)
    requires 0.0 < k && u < v
    ensures u * k < v * k
  {
    assert 0.0 < (v - u) * k;
  }

  lemma RatioStep(b0: nat, i0: nat, b1: nat, i1: nat)
    requires 0 < i0 && 0 < i1 && b0 * i1 < b1 * i0 + i0
    ensures Ratio(b0, i0) < Ratio(b1, i1) + 1.0 / i1 as real
  {
    var x, y := i0 as real, i1 as real;
    var c, d := b0 as real, (b1 + 1) as real;
    assert (b0 * i1) as real == c * y;
    assert ((b1 + 1) * i0) as real == d * x;
    CrossDivide(c, x, d, y);
    assert d / y == b1 as real / y + 1.0 / y;
  }

  lemma CrossDivide(c: real, x: real, d: real, y: real)
    requires 0.0 < x && 0.0 < y && c * y < d * x
    ensures c / x < d / y
  {
    var u, v := c / x, d / y;
    assert u * x == c && v * y == d;
    assert (u * x) * y == u * (x * y);
    assert (v * y) * x == v * (x * y);
    RealCancel(u, v, x * y);
  }

  lemma RealCancel(u: real, v: real, k: real)
    requires 0.0 < k && u * k < v * k
    ensures u < v
  {
    assert u * k - v * k == (u - v) * k;
  }

  // ---------- any schedule of market accruals ----------

  /** `later` is where `earlier` can get by accruing alone: time and index only go
      forward, and the index stays inside the compound-interest envelope
      later.index / earlier.index <= (1 + rate)^slots. */
  ghost predicate Evolves(earlier: Market, later: Market) {
    && earlier.borrowRatePerSlotE18 == later.borrowRatePerSlotE18
    && earlier.lastUpdateSlot <= later.lastUpdateSlot
    && earlier.borrowIndexE18 <= later.borrowIndexE18
    && var slots := later.lastUpdateSlot - earlier.lastUpdateSlot;
       later.borrowIndexE18 * Pow(RATE_SCALE_E18, slots)
       <= earlier.borrowIndexE18 * Pow(RATE_SCALE_E18 + earlier.borrowRatePerSlotE18, slots)
  }

  lemma EvolvesStay(m: Market, n: Market)
    requires m.borrowRatePerSlotE18 == n.borrowRatePerSlotE18
    requires m.lastUpdateSlot == n.lastUpdateSlot && m.borrowIndexE18 == n.borrowIndexE18
    ensures Evolves(m, n)
  {
    assert Pow(RATE_SCALE_E18, 0) == 1;
  }

  /** What one accrual adds to the index, before any power is taken. */
  lemma AccrueGrowth(m: Market, slot: u64)
    requires m.lastUpdateSlot < slot
    ensures var n := AccrueMarket(m, slot);
            var slots := slot - m.lastUpdateSlot;
            && m.borrowIndexE18 <= n.borrowIndexE18
            && n.borrowIndexE18 * RATE_SCALE_E18 <= m.borrowIndexE18 * (RATE_SCALE_E18 + m.borrowRatePerSlotE18 * slots)
  {
    var n := AccrueMarket(m, slot);
    var index, rate: nat, slots: nat := m.borrowIndexE18, m.borrowRatePerSlotE18, slot - m.lastUpdateSlot;
    MulNonNegative(index, rate);
    MulNonNegative(index * rate, slots);
    MulMonotone(SatMul(index, rate), index * rate, slots);
    var product := SatMul(SatMul(index, rate), slots);
    assert product <= index * rate * slots;
    DivBounds(product, RATE_SCALE_E18);
    assert index * (RATE_SCALE_E18 + rate * slots) == index * RATE_SCALE_E18 + index * rate * slots;
  }

  lemma AccrueEvolves(m: Market, slot: u64)
    ensures Evolves(m, AccrueMarket(m, slot))
  {
    if slot <= m.lastUpdateSlot {
      EvolvesStay(m, m);
    } else {
      AccrueGrowth(m, slot);
      Compound(m.borrowIndexE18, AccrueMarket(m, slot).borrowIndexE18, RATE_SCALE_E18, m.borrowRatePerSlotE18,
          slot - m.lastUpdateSlot);
    }
  }

  lemma Compound(i0: nat, i1: nat, s: nat, r: nat, n: nat)
    requires 0 < s && i1 * s <= i0 * (s + r * n)
    ensures i1 * Pow(s, n) <= i0 * Pow(s + r, n)
  {
    MulNonNegative(r, n);
    Bernoulli(s, r, n);
    CompoundProduct(i0, i1, s, s + r * n, Pow(s, n), Pow(s + r, n));
  }

  lemma CompoundProduct(i0: nat, i1: nat, s: nat, a: nat, p: nat, q: nat)
    requires 0 < s && i1 * s <= i0 * a && a * p <= s * q
    ensures i1 * p <= i0 * q
  {
    MulMonotone(i1 * s, i0 * a, p);
    MulMonotone(a * p, s * q, i0);
    Exchange(i1, s, p);
    Exchange(i0, a, p);
    Exchange(i0, s, q);
    MulAssociates(i0, a, p);
    MulAssociates(i0, s, q);
    MulCancel(i1 * p, i0 * q, s);
  }

  lemma EvolvesThrough(a: Market, b: Market, c: Market)
    requires Evolves(a, b) && Evolves(b, c)
    ensures Evolves(a, c)
  {
    var s, t := RATE_SCALE_E18, RATE_SCALE_E18 + a.borrowRatePerSlotE18;
    var m, n := b.lastUpdateSlot - a.lastUpdateSlot, c.lastUpdateSlot - b.lastUpdateSlot;
    PowAdd(s, m, n);
    PowAdd(t, m, n);
    EnvelopeProduct(a.borrowIndexE18, b.borrowIndexE18, c.borrowIndexE18, Pow(s, m), Pow(t, m), Pow(s, n), Pow(t, n));
  }

  lemma EnvelopeProduct(i0: nat, i1: nat, i2: nat, sm: nat, tm: nat, sn: nat, tn: nat)
    requires i1 * sm <= i0 * tm && i2 * sn <= i1 * tn
    ensures i2 * (sm * sn) <= i0 * (tm * tn)
  {
    MulMonotone(i2 * sn, i1 * tn, sm);
    MulMonotone(i1 * sm, i0 * tm, tn);
    assert i2 * (sm * sn) == (i2 * sn) * sm;
    assert (i1 * tn) * sm == (i1 * sm) * tn;
    assert (i0 * tm) * tn == i0 * (tm * tn);
  }

  function AccrueAll(m: Market, slots: seq<u64>): Market
    decreases |slots|
  {
    if slots == [] then m else AccrueAll(AccrueMarket(m, slots[0]), slots[1..])
  }

  /** Compound-interest ceiling for every schedule of calls, unconditionally. */
  lemma {:induction false} IndexEnvelope(m: Market, slots: seq<u64>)
    ensures Evolves(m, AccrueAll(m, slots))
    decreases |slots|
  {
    if slots == [] {
      EvolvesStay(m, m);
    } else {
      var n := AccrueMarket(m, slots[0]);
      AccrueEvolves(m, slots[0]);
      IndexEnvelope(n, slots[1..]);
      EvolvesThrough(m, n, AccrueAll(n, slots[1..]));
    }
  }

  /** How many calls of a schedule find a new slot. */
  function GrowingCalls(m: Market, slots: seq<u64>): nat
    decreases |slots|
  {
    if slots == [] then 0
    else (if m.lastUpdateSlot < slots[0] then 1 else 0) + GrowingCalls(AccrueMarket(m, slots[0]), slots[1..])
  }

  ghost predicate Unsaturated(m: Market, slots: seq<u64>)
    decreases |slots|
  {
    slots != [] ==>
    && (m.lastUpdateSlot < slots[0] ==>
          var product := m.borrowIndexE18 * m.borrowRatePerSlotE18 * (slots[0] - m.lastUpdateSlot);
          && m.borrowIndexE18 * m.borrowRatePerSlotE18 <= U128_MAX
          && product <= U128_MAX
          && m.borrowIndexE18 + product / RATE_SCALE_E18 <= U128_MAX)
    && Unsaturated(AccrueMarket(m, slots[0]), slots[1..])
  }

  ghost function SimpleGrowth(m: Market, slots: nat): nat {
    m.borrowIndexE18 * m.borrowRatePerSlotE18 * slots / RATE_SCALE_E18
  }

  /** Simple-interest floor: k growing calls lose at most k - 1 units of index to
      rounding against one call over the whole span. */
  lemma {:induction false} IndexFloor(m: Market, slots: seq<u64>)
    requires Unsaturated(m, slots)
    ensures var n, k := AccrueAll(m, slots), GrowingCalls(m, slots);
            && m.lastUpdateSlot <= n.lastUpdateSlot
            && (k == 0 ==> n == m)
            && var growth := SimpleGrowth(m, n.lastUpdateSlot - m.lastUpdateSlot);
               m.borrowIndexE18 + growth - (if k == 0 then 0 else k - 1) <= n.borrowIndexE18
    decreases |slots|
  {
    if slots == [] {
    } else if slots[0] <= m.lastUpdateSlot {
      IndexFloor(m, slots[1..]);
    } else {
      var n := AccrueMarket(m, slots[0]);
      IndexFloor(n, slots[1..]);
      AccrueExact(m, slots[0]);
      var last := AccrueAll(n, slots[1..]);
      FloorStep(m, n, slots[0] - m.lastUpdateSlot, last.lastUpdateSlot - n.lastUpdateSlot);
    }
  }

  lemma AccrueExact(m: Market, slot: u64)
    requires Unsaturated(m, [slot]) && m.lastUpdateSlot < slot
    ensures AccrueMarket(m, slot).borrowIndexE18 == m.borrowIndexE18 + SimpleGrowth(m, slot - m.lastUpdateSlot)
  {
  }

  lemma FloorStep(m: Market, n: Market, first: nat, rest: nat)
    requires m.borrowRatePerSlotE18 == n.borrowRatePerSlotE18 && m.borrowIndexE18 <= n.borrowIndexE18
    ensures SimpleGrowth(m, first + rest) <= SimpleGrowth(m, first) + SimpleGrowth(n, rest)
            + (if rest == 0 then 0 else 1)
  {
    var i, j, rate: nat := m.borrowIndexE18, n.borrowIndexE18, m.borrowRatePerSlotE18;
    SplitGrowth(i * rate, j * rate, first, rest, i, j, rate);
  }

  lemma SplitGrowth(x: nat, y: nat, first: nat, rest: nat, i: nat, j: nat, rate: nat)
    requires x == i * rate && y == j * rate && i <= j
    ensures x * (first + rest) / RATE_SCALE_E18 <= x * first / RATE_SCALE_E18 + y * rest / RATE_SCALE_E18
            + (if rest == 0 then 0 else 1)
  {
    MulMonotone(i, j, rate);
    MulMonotone(x, y, rest);
    MulNonNegative(x, first);
    MulNonNegative(x, rest);
    assert x * (first + rest) == x * first + x * rest;
    DivSum(x * first, x * rest, RATE_SCALE_E18);
    DivMonotone(x * rest, y * rest, RATE_SCALE_E18);
    DivBounds(y * rest, RATE_SCALE_E18);
  }

  /** Staging and the envelope together: a debt restated after any schedule of market
      accruals is at most the compound-interest debt over the slots that passed,
      debt' * scale^n <= debt * (scale + rate)^n. */
  lemma DebtEnvelope(p: Position, earlier: Market, later: Market)
    requires Evolves(earlier, later) && 0 < earlier.borrowIndexE18 && p.snapshotE18 == earlier.borrowIndexE18
    ensures var n := later.lastUpdateSlot - earlier.lastUpdateSlot;
            AccruePosition(p, later).borrowed * Pow(RATE_SCALE_E18, n)
            <= p.borrowed * Pow(RATE_SCALE_E18 + earlier.borrowRatePerSlotE18, n)
  {
    var n := later.lastUpdateSlot - earlier.lastUpdateSlot;
    var i0, i1 := earlier.borrowIndexE18, later.borrowIndexE18;
    var s, t := Pow(RATE_SCALE_E18, n), Pow(RATE_SCALE_E18 + earlier.borrowRatePerSlotE18, n);
    RestateUpper(p.borrowed, i0, i1);
    RatioProduct(p.borrowed, AccruePosition(p, later).borrowed, i0, i1, s, t);
  }

  lemma RatioProduct(b0: nat, b1: nat, i0: nat, i1: nat, s: nat, t: nat)
    requires 0 < i0 && b1 * i0 <= b0 * i1 && i1 * s <= i0 * t
    ensures b1 * s <= b0 * t
  {
    MulMonotone(b1 * i0, b0 * i1, s);
    MulMonotone(i1 * s, i0 * t, b0);
    assert (b1 * i0) * s == (b1 * s) * i0;
    assert (b0 * i1) * s == b0 * (i1 * s);
    assert b0 * (i0 * t) == (b0 * t) * i0;
    MulCancel(b1 * s, b0 * t, i0);
  }
}
