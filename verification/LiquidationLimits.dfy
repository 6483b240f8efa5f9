/** How far `LiquidationBounds` reaches, exactly: from which LTV on, and for which repayments, a
    liquidation the program carries out can deepen the borrower's shortfall. */
module LiquidationLimits {
  import opened Arith
  import opened State
  import opened Valuation
  import opened Health
  import opened Instructions
  import opened LedgerRuns
  import opened HealthGuards
  import opened Acceptance
  import opened Samples
  import opened LiquidationBounds

  /** A successful liquidation, at the prices of the moment, of collateral with this LTV. */
  ghost predicate Goes(l: Ledger, q: Liquidation, quotes: Quotes, ltv: u16) {
    && q.debtMint != q.collateralMint && Liquidate(l, q).Ok?
    && AgreesWith(q.debtOracle, quotes) && AgreesWith(q.collateralOracle, quotes)
    && Present(l, q) && l[q.collateralMint].market.maxLtvBps == ltv
  }

  ghost predicate DeepensByAtMostOne(l: Ledger, q: Liquidation, quotes: Quotes)
    requires q.debtMint != q.collateralMint && Present(l, q) && Liquidate(l, q).Ok?
  {
    Shortfall(Exposure(Liquidate(l, q).value, q.borrower, quotes))
    <= Shortfall(Exposure(LiquidationAccrued(l, q), q.borrower, quotes)) + 1
  }

  /** No liquidation the program ever carries out at this LTV, of those whose repayment counts (any
      whose debt is worth less than 2^128 - 1 units does), deepens a shortfall by two. */
  ghost predicate NeverDeepens(ltv: u16) {
    forall l: Ledger, q: Liquidation, quotes: Quotes ::
      Reachable(l) && Goes(l, q, quotes, ltv) && RepaymentCounts(l, q) ==> DeepensByAtMostOne(l, q, quotes)
  }

  /** The LTVs for which liquidation does not deepen the hole, of those a market can have: for
      repayments that count, exactly those up to 9523 bps, over every reachable ledger. For the
      other repayments there is no such LTV, see `SaturatedLiquidation`. */
  lemma LtvLimitIsExact(ltv: u16)
    requires 0 < ltv < BPS_DENOMINATOR
    ensures NeverDeepens(ltv) <==> ltv <= 9523
  {
    hide Reachable, Exposure, LiquidationAccrued, TokenUsd, LedgerInv, Liquidate, RepaymentCounts;
    if ltv <= 9523 {
      forall l: Ledger, q: Liquidation, quotes: Quotes
        | Reachable(l) && Goes(l, q, quotes, ltv) && RepaymentCounts(l, q)
        ensures DeepensByAtMostOne(l, q, quotes)
      {
        ReachableInv(l);
        LiquidationDoesNotDeepen(l, q, quotes);
      }
    } else {
      DeepeningLiquidation(ltv);
      assert !DeepensByAtMostOne(DeepLedger(ltv), DeepLiquidation(), UnitPrices());
    }
  }

  lemma BooksInSlotZero(x: Sample, amount: u64)
    requires Possible(x) && 0 < amount <= x.lent
    ensures var d, c := Indebted(x, 0, amount), Security(x);
            && Touch(d, BORROWER, 0) == d && BORROWER in c.positions && Touch(c, BORROWER, 0) == c
            && d.positions[BORROWER] == Position(BORROWER, 0, amount, 1, 8000, MINT_DECIMALS, RATE_SCALE_E18)
            && d.market.feedId == 1 && LENDER in d.wallets && d.wallets[LENDER] == x.spare
  {
    hide Indebted;
    IndebtedMeans(x, 0, amount);
    TouchedInSlotZero(Indebted(x, 0, amount));
    TouchedInSlotZero(Security(x));
  }

  // ---------- above the limit ----------

  // A borrower one unit beyond the limit, whose whole collateral a liquidation takes.

  function Deep(ltv: u16): Sample {
    Sample(0, 2_000_000, 1_000_000, 1_050_000, ltv)
  }

  function DeepDebt(ltv: u16): u64
    requires ltv < BPS_DENOMINATOR
  {
    105 * ltv + 1
  }

  function DeepLending(ltv: u16): (d: Book)
    requires 0 < ltv < BPS_DENOMINATOR
    ensures BORROWER in d.positions
  {
    Indebted(Deep(ltv), 0, DeepDebt(ltv))
  }

  function DeepLedger(ltv: u16): Ledger
    requires 0 < ltv < BPS_DENOMINATOR
  {
    Two(DeepLending(ltv), Security(Deep(ltv)))
  }

  function DeepLiquidation(): Liquidation {
    Liquidation(LENDER, BORROWER, LENT, SECURITY, 0, 1_000_000, Fresh(1, UNIT), Fresh(2, UNIT), [])
  }

  function UnitPrices(): Quotes {
    _ => UNIT
  }

  lemma DeepLedgerReachable(ltv: u16)
    requires 0 < ltv < BPS_DENOMINATOR
    ensures Reachable(DeepLedger(ltv)) && LedgerInv(DeepLedger(ltv))
  {
    hide Reachable, LedgerInv, Security, Indebted;
    LoanIsReachable(Deep(ltv), 0, DeepDebt(ltv));
    ReachableInv(DeepLedger(ltv));
  }

  lemma DeepBooks(ltv: u16)
    requires 0 < ltv < BPS_DENOMINATOR
    ensures var d, c := DeepLending(ltv), Security(Deep(ltv));
            && Touch(d, BORROWER, 0) == d && BORROWER in c.positions && Touch(c, BORROWER, 0) == c
            && d.positions[BORROWER] == Position(BORROWER, 0, DeepDebt(ltv), 1, 8000, MINT_DECIMALS, RATE_SCALE_E18)
            && d.market.feedId == 1 && LENDER in d.wallets && d.wallets[LENDER] == 1_000_000
  {
    hide Indebted, Security, Touch;
    BooksInSlotZero(Deep(ltv), DeepDebt(ltv));
  }

  lemma DeepTotals(ltv: u16)
    requires 0 < ltv < BPS_DENOMINATOR
    ensures BookTotals(DeepLending(ltv), BORROWER, UnitPrices()) == Totals(0, 105 * ltv + 1)
    ensures BookTotals(Security(Deep(ltv)), BORROWER, UnitPrices()) == Totals(105 * ltv, 0)
  {
    hide TokenUsd, DeepLending;
    DeepBooks(ltv);
    UnitValue(0);
    UnitValue(DeepDebt(ltv));
    UnitValue(1_050_000);
  }

  lemma DeepSeizure(ltv: u16)
    requires 9523 < ltv < BPS_DENOMINATOR
    ensures var l, q := DeepLedger(ltv), DeepLiquidation();
            && Present(l, q) && LiquidationRefusal(l, q).None?
            && DebtBook(l, q) == DeepLending(ltv) && CollateralBook(l, q) == Security(Deep(ltv))
            && Repaid(l, q) == 1_000_000 && Seized(l, q) == 1_050_000
  {
    hide TokenUsd, UsdToToken, Touch, DeepLending;
    DeepBooks(ltv);
    UnitValue(1_000_000);
    UnitValue(1_050_000);
    assert WithBonus(1_000_000) == 1_050_000;
  }

  lemma DeepLiquidationGoes(ltv: u16)
    requires 9523 < ltv < BPS_DENOMINATOR
    ensures Goes(DeepLedger(ltv), DeepLiquidation(), UnitPrices(), ltv)
    ensures RepaymentCounts(DeepLedger(ltv), DeepLiquidation())
    ensures Exposure(LiquidationAccrued(DeepLedger(ltv), DeepLiquidation()), BORROWER, UnitPrices())
            == Totals(105 * ltv, 105 * ltv + 1)
  {
    hide Exposure, BookTotals, Reachable, LedgerInv, Liquidate, LiquidationRefusal, Repaid, Seized, Touch, DeepLending,
         TokenUsd, RepaymentCounts, AccountsExist, OwedAndHeld, Listable;
    var l, q, quotes := DeepLedger(ltv), DeepLiquidation(), UnitPrices();
    DeepLedgerReachable(ltv);
    DeepSeizure(ltv);
    DeepBooks(ltv);
    DeepTotals(ltv);
    UnitValue(DeepDebt(ltv));
    UnsaturatedRepaymentCounts(l, q);
    assert LiquidationAccrued(l, q) == Two(DeepLending(ltv), Security(Deep(ltv)));
    TwoBookExposure(DeepLending(ltv), Security(Deep(ltv)), quotes);
    NothingListedIsListable(l, q.borrower, {q.debtMint, q.collateralMint});
    NotRefusedIff(l, q);
    LiquidateSucceedsIff(l, q, quotes);
  }

  /** At every LTV above the limit, a reachable ledger and a successful liquidation that takes the
      shortfall from one unit to 105 * ltv - 999,999, which is 21 or more. */
  lemma DeepeningLiquidation(ltv: u16)
    requires 9523 < ltv < BPS_DENOMINATOR
    ensures var l, q, quotes := DeepLedger(ltv), DeepLiquidation(), UnitPrices();
            && Reachable(l) && Goes(l, q, quotes, ltv) && RepaymentCounts(l, q)
            && Shortfall(Exposure(LiquidationAccrued(l, q), BORROWER, quotes)) == 1
            && 21 <= Shortfall(Exposure(Liquidate(l, q).value, BORROWER, quotes)) == 105 * ltv - 999_999
  {
    hide Exposure, BookTotals, Reachable, LedgerInv, Liquidate, DeepLending, Touch, Goes, PayDown, Release,
         RepaymentCounts;
    var l, q, quotes := DeepLedger(ltv), DeepLiquidation(), UnitPrices();
    DeepLedgerReachable(ltv);
    DeepLiquidationGoes(ltv);
    GoesMeans(l, q, quotes, ltv);
    LiquidateDid(l, q);
    DeepSeizure(ltv);
    var d := PayDown(DeepLending(ltv), LENDER, BORROWER, 1_000_000).value;
    var c := Release(Security(Deep(ltv)), BORROWER, LENDER, 1_050_000).value;
    assert Liquidate(l, q).value == Two(d, c);
    TwoBookExposure(d, c, quotes);
    DeepRemainder(ltv, d, c);
  }

  lemma GoesMeans(l: Ledger, q: Liquidation, quotes: Quotes, ltv: u16)
    requires Goes(l, q, quotes, ltv)
    ensures q.debtMint != q.collateralMint && Liquidate(l, q).Ok?
  {
  }

  lemma DeepRemainder(ltv: u16, d: Book, c: Book)
    requires 9523 < ltv < BPS_DENOMINATOR && BORROWER in Security(Deep(ltv)).positions
    requires PayDown(DeepLending(ltv), LENDER, BORROWER, 1_000_000) == Ok(d)
    requires Release(Security(Deep(ltv)), BORROWER, LENDER, 1_050_000) == Ok(c)
    ensures BookTotals(d, BORROWER, UnitPrices()) == Totals(0, 105 * ltv - 999_999)
    ensures BookTotals(c, BORROWER, UnitPrices()) == NOTHING
  {
    hide TokenUsd, DeepLending;
    DeepBooks(ltv);
    UnitValue(0);
    UnitValue(105 * ltv - 999_999);
  }

  // ---------- where the debt's value saturates ----------

  /** One unit of price at an exponent of forty: the power overflows, and an atom is worth all that
      128 bits can say. */
  const WILD: Price := Price(1, 40)

  function Wild(ltv: u16): Sample {
    Sample(0, 4000, 1000, 2_000_000, ltv)
  }

  function WildLending(ltv: u16): (d: Book)
    requires 0 < ltv < BPS_DENOMINATOR
    ensures BORROWER in d.positions
  {
    Indebted(Wild(ltv), 0, 1000)
  }

  function WildLedger(ltv: u16): Ledger
    requires 0 < ltv < BPS_DENOMINATOR
  {
    Two(WildLending(ltv), Security(Wild(ltv)))
  }

  function WildLiquidation(): Liquidation {
    Liquidation(LENDER, BORROWER, LENT, SECURITY, 0, 1, Fresh(1, WILD), Fresh(2, UNIT), [])
  }

  function WildPrices(): Quotes {
    feedId => if feedId == 1 then WILD else UNIT
  }

  lemma WildLedgerReachable(ltv: u16)
    requires 0 < ltv < BPS_DENOMINATOR
    ensures Reachable(WildLedger(ltv)) && LedgerInv(WildLedger(ltv))
  {
    hide Reachable, LedgerInv, Security, Indebted;
    LoanIsReachable(Wild(ltv), 0, 1000);
    ReachableInv(WildLedger(ltv));
  }

  lemma WildBooks(ltv: u16)
    requires 0 < ltv < BPS_DENOMINATOR
    ensures var d, c := WildLending(ltv), Security(Wild(ltv));
            && Touch(d, BORROWER, 0) == d && BORROWER in c.positions && Touch(c, BORROWER, 0) == c
            && d.positions[BORROWER] == Position(BORROWER, 0, 1000, 1, 8000, MINT_DECIMALS, RATE_SCALE_E18)
            && d.market.feedId == 1 && LENDER in d.wallets && d.wallets[LENDER] == 1000
  {
    hide Indebted, Security, Touch;
    BooksInSlotZero(Wild(ltv), 1000);
  }

  lemma WildValue(amount: u64)
    requires 0 < amount
    ensures TokenUsd(amount, WILD, MINT_DECIMALS) == U128_MAX
  {
    assert Shift(WILD, MINT_DECIMALS) == 39;
    Pow10Fits(39);
    MulMonotone(1, amount, U128_MAX);
  }

  lemma EverythingIsSeized()
    ensures UsdToToken(WithBonus(U128_MAX), UNIT, MINT_DECIMALS) == U64_MAX
  {
    assert Shift(UNIT, MINT_DECIMALS) == 0 && Pow(10, 0) == 1;
    assert WithBonus(U128_MAX) == U128_MAX / BPS_DENOMINATOR;
  }

  lemma WildTotals(ltv: u16)
    requires 0 < ltv < BPS_DENOMINATOR
    ensures BookTotals(WildLending(ltv), BORROWER, WildPrices()) == Totals(0, U128_MAX)
    ensures BookTotals(Security(Wild(ltv)), BORROWER, WildPrices()) == Totals(200 * ltv, 0)
  {
    hide TokenUsd, WildLending;
    WildBooks(ltv);
    WildValue(1000);
    TokenUsdWorthless(0, WILD, MINT_DECIMALS);
    UnitValue(0);
    UnitValue(2_000_000);
  }

  lemma WildSeizure(ltv: u16)
    requires 0 < ltv < BPS_DENOMINATOR
    ensures var l, q := WildLedger(ltv), WildLiquidation();
            && Present(l, q) && LiquidationRefusal(l, q).None?
            && DebtBook(l, q) == WildLending(ltv) && CollateralBook(l, q) == Security(Wild(ltv))
            && Repaid(l, q) == 1 && Seized(l, q) == 2_000_000
            && DebtRelieved(l, q) == 0 && !RepaymentCounts(l, q)
  {
    hide TokenUsd, UsdToToken, Touch, WildLending, WithBonus;
    WildBooks(ltv);
    WildValue(1);
    WildValue(999);
    WildValue(1000);
    EverythingIsSeized();
  }

  lemma WildLiquidationGoes(ltv: u16)
    requires 0 < ltv < BPS_DENOMINATOR
    ensures Goes(WildLedger(ltv), WildLiquidation(), WildPrices(), ltv)
  {
    hide Exposure, BookTotals, Reachable, LedgerInv, Liquidate, LiquidationRefusal, Repaid, Seized, Touch, WildLending,
         TokenUsd, RepaymentCounts, DebtRelieved, AccountsExist, OwedAndHeld, Listable;
    var l, q, quotes := WildLedger(ltv), WildLiquidation(), WildPrices();
    WildLedgerReachable(ltv);
    WildSeizure(ltv);
    WildBooks(ltv);
    WildTotals(ltv);
    assert LiquidationAccrued(l, q) == Two(WildLending(ltv), Security(Wild(ltv)));
    TwoBookExposure(WildLending(ltv), Security(Wild(ltv)), quotes);
    NothingListedIsListable(l, q.borrower, {q.debtMint, q.collateralMint});
    NotRefusedIff(l, q);
    LiquidateSucceedsIff(l, q, quotes);
  }

  /** At every LTV a market can have, a reachable ledger and a successful liquidation whose repayment
      does not count: one atom buys the whole collateral and relieves nothing, and the shortfall
      grows by 200 * ltv units, 200 or more. */
  lemma SaturatedLiquidation(ltv: u16)
    requires 0 < ltv < BPS_DENOMINATOR
    ensures var l, q, quotes := WildLedger(ltv), WildLiquidation(), WildPrices();
            && Reachable(l) && Goes(l, q, quotes, ltv) && !RepaymentCounts(l, q)
            && Shortfall(Exposure(Liquidate(l, q).value, BORROWER, quotes))
               == Shortfall(Exposure(LiquidationAccrued(l, q), BORROWER, quotes)) + 200 * ltv
  {
    hide Exposure, Reachable, LedgerInv, Liquidate, LiquidationAccrued, WildLending, Touch, TokenUsd, RepaymentCounts,
         DebtRelieved, Seized, Repaid;
    var l, q, quotes := WildLedger(ltv), WildLiquidation(), WildPrices();
    WildLedgerReachable(ltv);
    WildLiquidationGoes(ltv);
    WildSeizure(ltv);
    ShortfallChange(l, q, quotes);
    UnitValue(2_000_000);
    UnitValue(0);
    assert AtLtv(2_000_000, ltv) == 200 * ltv && AtLtv(0, ltv) == 0;
  }
}
