/** What a liquidation costs the borrower: the bonus is a true cap, and within the LTV
    limit the shortfall never deepens by more than one unit. */
module LiquidationBounds {
  import opened Arith
  import opened State
  import opened Interest
  import opened Valuation
  import opened Health
  import opened Instructions
  import opened Bookkeeping
  import opened LedgerRuns
  import opened HealthGuards

  /** Five percent, rounded down, saturated or not. */
  lemma BonusAtMost(value: u128)
    ensures WithBonus(value) * BPS_DENOMINATOR <= value * (BPS_DENOMINATOR + LIQUIDATION_BONUS_BPS)
  {
    DivBounds(SatMul(value, BPS_DENOMINATOR + LIQUIDATION_BONUS_BPS), BPS_DENOMINATOR);
  }

  /** Every successful liquidation, at any prices, exponents and amounts, seizes collateral
      worth at most 105% of what it repays, and never more than there is of either. */
  lemma BonusIsACap(l: Ledger, q: Liquidation)
    requires q.debtMint != q.collateralMint && Liquidate(l, q).Ok?
    ensures Present(l, q)
    ensures var dp, cp := DebtBook(l, q).positions[q.borrower], CollateralBook(l, q).positions[q.borrower];
            && 0 < Repaid(l, q) <= dp.borrowed && Repaid(l, q) <= q.repayAmount
            && 0 < Seized(l, q) <= cp.supplied
            && TokenUsd(Seized(l, q), q.collateralOracle.price, cp.decimals) * BPS_DENOMINATOR
               <= TokenUsd(Repaid(l, q), q.debtOracle.price, dp.decimals) * (BPS_DENOMINATOR + LIQUIDATION_BONUS_BPS)
  {
    hide TokenUsd, UsdToToken, WithBonus, Touch, TwoMain;
    LiquidateDid(l, q);
    SeizedWithinBonus(l, q);
    BonusAtMost(TokenUsd(Repaid(l, q), q.debtOracle.price, DebtBook(l, q).positions[q.borrower].decimals));
  }

  lemma SeizedWithinBonus(l: Ledger, q: Liquidation)
    requires Present(l, q)
    ensures var dp, cp := DebtBook(l, q).positions[q.borrower], CollateralBook(l, q).positions[q.borrower];
            TokenUsd(Seized(l, q), q.collateralOracle.price, cp.decimals)
            <= WithBonus(TokenUsd(Repaid(l, q), q.debtOracle.price, dp.decimals))
  {
    hide TokenUsd, UsdToToken, WithBonus, Touch;
    var dp, cp := DebtBook(l, q).positions[q.borrower], CollateralBook(l, q).positions[q.borrower];
    var value := WithBonus(TokenUsd(Repaid(l, q), q.debtOracle.price, dp.decimals));
    var price := q.collateralOracle.price;
    UsdRoundTrip(value, price, cp.decimals);
    TokenUsdMonotone(Seized(l, q), UsdToToken(value, price, cp.decimals), price, cp.decimals);
  }

  // ---------- the shortfall ----------

  /** The borrowing power that `seized` out of `supplied` costs. */
  function PowerLost(supplied: u64, seized: u64, price: Price, decimals: u8, ltv: u16): int
    requires seized <= supplied
  {
    AtLtv(TokenUsd(supplied, price, decimals), ltv) - AtLtv(TokenUsd(supplied - seized, price, decimals), ltv)
  }

  lemma PowerLostBound(supplied: u64, seized: u64, price: Price, decimals: u8, ltv: u16, repaidValue: u128)
    requires seized <= supplied && ltv <= 9523
    requires TokenUsd(seized, price, decimals) <= WithBonus(repaidValue)
    ensures PowerLost(supplied, seized, price, decimals, ltv) <= repaidValue + 1
  {
    hide TokenUsd, WithBonus;
    TokenUsdSum(supplied - seized, seized, price, decimals);
    BonusAtMost(repaidValue);
    LtvFloors(TokenUsd(supplied, price, decimals), TokenUsd(supplied - seized, price, decimals),
        WithBonus(repaidValue), ltv, repaidValue);
  }

  lemma LtvFloors(before: u128, after: u128, bonus: u128, ltv: u16, repaidValue: u128)
    requires before <= after + bonus + 1 && ltv <= 9523
    requires bonus * BPS_DENOMINATOR <= repaidValue * (BPS_DENOMINATOR + LIQUIDATION_BONUS_BPS)
    ensures AtLtv(before, ltv) <= AtLtv(after, ltv) + repaidValue + 1
  {
    var extra := (bonus + 1) * ltv;
    MulMonotone(before, after + bonus + 1, ltv);
    assert (after + bonus + 1) * ltv == after * ltv + extra;
    MulNonNegative(after, ltv);
    MulMonotone(ltv, 9523, bonus + 1);
    MulNonNegative(bonus + 1, ltv);
    DivBelow(extra, BPS_DENOMINATOR, repaidValue + 1);
    DivSum(SatMul(after, ltv), extra, BPS_DENOMINATOR);
    DivMonotone(SatMul(before, ltv), SatMul(after, ltv) + extra, BPS_DENOMINATOR);
  }

  function Shortfall(t: Totals): int {
    t.debt - t.collatAtLtv
  }

  /** How much the value of the debt goes down by the repayment. */
  function DebtRelieved(l: Ledger, q: Liquidation): int
    requires Present(l, q)
  {
    var debt, repaid: u64 := DebtBook(l, q).positions[q.borrower].borrowed, Repaid(l, q);
    TokenUsd(debt, q.debtOracle.price, MINT_DECIMALS) - TokenUsd(debt - repaid, q.debtOracle.price, MINT_DECIMALS)
  }

  /** The debt's value goes down by no less than the value of what is repaid. It can fail only where
      that value saturates. */
  predicate RepaymentCounts(l: Ledger, q: Liquidation)
    requires Present(l, q)
  {
    TokenUsd(Repaid(l, q), q.debtOracle.price, MINT_DECIMALS) <= DebtRelieved(l, q)
  }

  lemma UnsaturatedRepaymentCounts(l: Ledger, q: Liquidation)
    requires Present(l, q)
    requires TokenUsd(DebtBook(l, q).positions[q.borrower].borrowed, q.debtOracle.price, MINT_DECIMALS) < U128_MAX
    ensures RepaymentCounts(l, q)
  {
    hide TokenUsd, Touch;
    var debt, repaid := DebtBook(l, q).positions[q.borrower].borrowed, Repaid(l, q);
    TokenUsdSum(debt - repaid, repaid, q.debtOracle.price, MINT_DECIMALS);
  }

  /** What a liquidation does to the shortfall over all markets, to the unit: it grows by the
      borrowing power seized and shrinks by the debt relieved. */
  lemma ShortfallChange(l: Ledger, q: Liquidation, quotes: Quotes)
    requires LedgerInv(l) && q.debtMint != q.collateralMint && Liquidate(l, q).Ok? && Present(l, q)
    requires AgreesWith(q.debtOracle, quotes) && AgreesWith(q.collateralOracle, quotes)
    ensures var before := Exposure(LiquidationAccrued(l, q), q.borrower, quotes);
            var after := Exposure(Liquidate(l, q).value, q.borrower, quotes);
            var cp := CollateralBook(l, q).positions[q.borrower];
            && Seized(l, q) <= cp.supplied
            && Shortfall(after) == Shortfall(before) - DebtRelieved(l, q)
               + PowerLost(cp.supplied, Seized(l, q), q.collateralOracle.price, MINT_DECIMALS, cp.maxLtvBps)
  {
    hide Exposure, TokenUsd, AtLtv, Touch, TwoMain, Liquidate, WithBonus, Seized, Inv, PayDown, Release, Valued,
         PowerLost;
    LiquidateDid(l, q);
    LiquidationFeeds(l, q, quotes);
    var user, repaid, seized := q.borrower, Repaid(l, q), Seized(l, q);
    var d, c := DebtBook(l, q), CollateralBook(l, q);
    var d', c' := PayDown(d, q.liquidator, user, repaid).value, Release(c, user, q.liquidator, seized).value;
    ExposureTwoUpdates(l, q.debtMint, d, q.collateralMint, c, user, quotes);
    ExposureTwoUpdates(l, q.debtMint, d', q.collateralMint, c', user, quotes);
    DebtSide(d, q.liquidator, user, repaid, quotes);
    CollateralSide(c, user, q.liquidator, seized, quotes);
  }

  /** Liquidation does not deepen the hole: with collateral LTV at most 9523 bps, and a repayment that
      counts, debt minus collateral-at-LTV over all markets grows by at most one 1e-8 USD unit,
      through every floor on the way. */
  lemma LiquidationDoesNotDeepen(l: Ledger, q: Liquidation, quotes: Quotes)
    requires LedgerInv(l) && q.debtMint != q.collateralMint && Liquidate(l, q).Ok?
    requires AgreesWith(q.debtOracle, quotes) && AgreesWith(q.collateralOracle, quotes)
    requires q.collateralMint in l && l[q.collateralMint].market.maxLtvBps <= 9523
    requires Present(l, q) && RepaymentCounts(l, q)
    ensures Shortfall(Exposure(Liquidate(l, q).value, q.borrower, quotes))
         <= Shortfall(Exposure(LiquidationAccrued(l, q), q.borrower, quotes)) + 1
  {
    hide Exposure, TokenUsd, AtLtv, Touch, Liquidate, WithBonus, Seized, Repaid, Inv, PowerLost;
    ShortfallChange(l, q, quotes);
    LiquidationFeeds(l, q, quotes);
    SeizedWithinBonus(l, q);
    var cp := CollateralBook(l, q).positions[q.borrower];
    PowerLostBound(cp.supplied, Seized(l, q), q.collateralOracle.price, MINT_DECIMALS, cp.maxLtvBps,
                   TokenUsd(Repaid(l, q), q.debtOracle.price, MINT_DECIMALS));
  }

  /** The prices a successful liquidation used are the prices of the positions it changed. */
  lemma LiquidationFeeds(l: Ledger, q: Liquidation, quotes: Quotes)
    requires LedgerInv(l) && q.debtMint != q.collateralMint && Liquidate(l, q).Ok? && Present(l, q)
    requires AgreesWith(q.debtOracle, quotes) && AgreesWith(q.collateralOracle, quotes)
    ensures var dp, cp := DebtBook(l, q).positions[q.borrower], CollateralBook(l, q).positions[q.borrower];
            && quotes(dp.feedId) == q.debtOracle.price && dp.decimals == MINT_DECIMALS
            && quotes(cp.feedId) == q.collateralOracle.price && cp.decimals == MINT_DECIMALS
            && cp.maxLtvBps == l[q.collateralMint].market.maxLtvBps
  {
    hide Assess, Seized, Repaid, PositionTotals, AccrueMarket;
    assert WellFormedPosition(l[q.debtMint].positions[q.borrower], q.borrower, l[q.debtMint].market);
    assert WellFormedPosition(l[q.collateralMint].positions[q.borrower], q.borrower, l[q.collateralMint].market);
  }

  lemma DebtSide(b: Book, payer: Pubkey, user: Pubkey, amount: u64, quotes: Quotes)
    requires user in b.positions && amount <= b.positions[user].borrowed && PayDown(b, payer, user, amount).Ok?
    ensures var p := b.positions[user];
            var before := BookTotals(b, user, quotes);
            var after := BookTotals(PayDown(b, payer, user, amount).value, user, quotes);
            && after.collatAtLtv == before.collatAtLtv
            && before.debt == TokenUsd(p.borrowed, quotes(p.feedId), p.decimals)
            && after.debt == TokenUsd(p.borrowed - amount, quotes(p.feedId), p.decimals)
  {
    hide TokenUsd, AtLtv;
  }

  lemma CollateralSide(b: Book, user: Pubkey, payee: Pubkey, amount: u64, quotes: Quotes)
    requires user in b.positions && amount <= b.positions[user].supplied && Release(b, user, payee, amount).Ok?
    ensures var p := b.positions[user];
            var before := BookTotals(b, user, quotes);
            var after := BookTotals(Release(b, user, payee, amount).value, user, quotes);
            && after.debt == before.debt
            && before.collatAtLtv - after.collatAtLtv
               == PowerLost(p.supplied, amount, quotes(p.feedId), p.decimals, p.maxLtvBps)
  {
    hide TokenUsd, AtLtv;
  }
}
