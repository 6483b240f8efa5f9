/** The multiply-out checks of the planned circuits, against the divide-then-sum check the
    program makes on chain. */
module Circuits {
  import opened Arith
  import opened State
  import opened Health

  predicate CheckLtv(collateral: u64, borrow: u64, maxLtvBps: u16) {
    borrow * BPS_DENOMINATOR <= collateral * maxLtvBps
  }

  predicate CheckLiquidatable(collateral: u64, borrow: u64, factorBps: u16) {
    collateral * factorBps < borrow * BPS_DENOMINATOR
  }

  lemma AtLtvOfU64(collateral: u64, maxLtvBps: u16)
    ensures 0 <= collateral * maxLtvBps
    ensures AtLtv(collateral, maxLtvBps) == collateral * maxLtvBps / BPS_DENOMINATOR
  {
    MulNonNegative(collateral, maxLtvBps);
    MulMonotone(collateral, U64_MAX, maxLtvBps);
    MulMonotone(maxLtvBps, 0xFFFF, U64_MAX);
  }

  /** For one position the two forms are the same test, and the liquidation circuit at the
      same factor is exactly its negation. */
  lemma OnePositionAgrees(collateral: u64, borrow: u64, bps: u16)
    ensures borrow <= AtLtv(collateral, bps) <==> CheckLtv(collateral, borrow, bps)
    ensures !(borrow <= AtLtv(collateral, bps)) <==> CheckLiquidatable(collateral, borrow, bps)
  {
    AtLtvOfU64(collateral, bps);
    var product := collateral * bps;
    DivBounds(product, BPS_DENOMINATOR);
    if borrow * BPS_DENOMINATOR <= product {
      DivAtLeast(product, BPS_DENOMINATOR, borrow);
    }
  }

  datatype Holding = Holding(collateral: u64, debt: u64)

  function SumCollateral(hs: seq<Holding>): nat {
    if hs == [] then 0 else hs[0].collateral + SumCollateral(hs[1..])
  }

  function SumDebt(hs: seq<Holding>): nat {
    if hs == [] then 0 else hs[0].debt + SumDebt(hs[1..])
  }

  /** The on-chain limit: each position is floored before they are added. */
  function SumAtLtv(hs: seq<Holding>, bps: u16): nat {
    if hs == [] then 0 else AtLtv(hs[0].collateral, bps) + SumAtLtv(hs[1..], bps)
  }

  /** Flooring position by position costs less than one unit each. */
  lemma {:induction false} SumOfFloors(hs: seq<Holding>, bps: u16)
    ensures SumAtLtv(hs, bps) * BPS_DENOMINATOR <= SumCollateral(hs) * bps
    ensures hs != [] ==> SumCollateral(hs) * bps < (SumAtLtv(hs, bps) + |hs|) * BPS_DENOMINATOR
  {
    if hs != [] {
      SumOfFloors(hs[1..], bps);
      AtLtvOfU64(hs[0].collateral, bps);
      FloorOneMore(hs[0].collateral, SumCollateral(hs[1..]), SumAtLtv(hs[1..], bps), |hs| - 1, bps);
    }
  }

  lemma FloorOneMore(c: nat, rest: nat, floors: nat, n: nat, bps: nat)
    requires floors * BPS_DENOMINATOR <= rest * bps
    requires if n == 0 then rest == 0 else rest * bps < (floors + n) * BPS_DENOMINATOR
    ensures 0 <= c * bps
    ensures var floor := c * bps / BPS_DENOMINATOR;
            && (floor + floors) * BPS_DENOMINATOR <= (c + rest) * bps
            && (c + rest) * bps < (floor + floors + n + 1) * BPS_DENOMINATOR
  {
    MulNonNegative(c, bps);
    DivBounds(c * bps, BPS_DENOMINATOR);
    assert (c + rest) * bps == c * bps + rest * bps;
    if n == 0 {
      assert rest * bps == 0;
    }
  }

  /** Over n positions of one LTV, passing on chain implies passing the circuit on the totals;
      passing the circuit means exceeding the on-chain limit by at most n - 1. */
  lemma ManyPositionsAgree(hs: seq<Holding>, bps: u16)
    requires SumCollateral(hs) <= U64_MAX && SumDebt(hs) <= U64_MAX
    ensures SumDebt(hs) <= SumAtLtv(hs, bps) ==> CheckLtv(SumCollateral(hs), SumDebt(hs), bps)
    ensures CheckLtv(SumCollateral(hs), SumDebt(hs), bps) ==>
            SumDebt(hs) <= SumAtLtv(hs, bps) + (if hs == [] then 0 else |hs| - 1)
    ensures CheckLiquidatable(SumCollateral(hs), SumDebt(hs), bps) ==> SumAtLtv(hs, bps) < SumDebt(hs)
  {
    SumOfFloors(hs, bps);
  }

  /** The n - 1 is reached: n positions of one unit each, at 9999 bps. */
  lemma {:induction false} SlackIsReached(hs: seq<Holding>)
    requires 1 <= |hs| <= 10_000 && SumDebt(hs) == |hs| - 1
    requires forall i :: 0 <= i < |hs| ==> hs[i].collateral == 1
    ensures SumCollateral(hs) == |hs| && SumAtLtv(hs, 9999) == 0
    ensures CheckLtv(SumCollateral(hs), SumDebt(hs), 9999)
  {
    UnitHoldings(hs);
  }

  lemma {:induction false} UnitHoldings(hs: seq<Holding>)
    requires forall i :: 0 <= i < |hs| ==> hs[i].collateral == 1
    ensures SumCollateral(hs) == |hs| && SumAtLtv(hs, 9999) == 0
  {
    if hs != [] {
      UnitHoldings(hs[1..]);
      AtLtvOfU64(1, 9999);
    }
  }
}
