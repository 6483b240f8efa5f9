/** What the health check does not see, and that it matters: a ledger the program reaches, whose
    borrower passes a guard on stored debts and is liquidated on current ones. */
module StaleDebts {
  import opened State
  import opened Interest
  import opened Valuation
  import opened Health
  import opened Instructions
  import opened LedgerRuns
  import opened HealthGuards
  import opened CurrentDebts
  import opened HealthRuns
  import opened Acceptance
  import opened Samples

  /** A market whose debts double in a slot, and 2000 units of collateral against 1000 borrowed. */
  function Loan(): Sample {
    Sample(RATE_SCALE_E18, 4000, 1000, 2000, 8000)
  }

  function DebtMarket(): (d: Book)
    ensures BORROWER in d.positions
  {
    Indebted(Loan(), 0, 1000)
  }

  function CollateralMarket(): Book {
    Security(Loan())
  }

  function TwoMarkets(): Ledger {
    Two(DebtMarket(), CollateralMarket())
  }

  lemma TwoMarketsReachable()
    ensures Reachable(TwoMarkets()) && LedgerInv(TwoMarkets())
  {
    hide Reachable, LedgerInv, Security, Indebted;
    LoanIsReachable(Loan(), 0, 1000);
    ReachableInv(TwoMarkets());
  }

  lemma DebtDoubles()
    ensures AccrueMarket(DebtMarket().market, 1)
            == DebtMarket().market.(borrowIndexE18 := 2 * RATE_SCALE_E18, lastUpdateSlot := 1)
    ensures DebtMarket().market.feedId == 1
    ensures DebtMarket().positions[BORROWER] == Position(BORROWER, 0, 1000, 1, 8000, MINT_DECIMALS, RATE_SCALE_E18)
    ensures Touch(DebtMarket(), BORROWER, 1).positions[BORROWER]
         == Position(BORROWER, 0, 2000, 1, 8000, MINT_DECIMALS, 2 * RATE_SCALE_E18)
    ensures LENDER in DebtMarket().wallets && DebtMarket().wallets[LENDER] == 1000
  {
    hide Indebted;
    IndebtedMeans(Loan(), 0, 1000);
  }

  lemma CollateralStands()
    ensures Touch(CollateralMarket(), BORROWER, 1).positions[BORROWER] == CollateralMarket().positions[BORROWER]
    ensures Touch(CollateralMarket(), BORROWER, 1).market == CollateralMarket().market.(lastUpdateSlot := 1)
  {
  }

  lemma SampleTotals(quotes: Quotes)
    requires forall feed :: quotes(feed) == UNIT
    ensures BookTotals(DebtMarket(), BORROWER, quotes) == Totals(0, 1000)
    ensures BookTotals(CollateralMarket(), BORROWER, quotes) == Totals(1600, 0)
    ensures BookTotals(Touch(DebtMarket(), BORROWER, 1), BORROWER, quotes) == Totals(0, 2000)
    ensures BORROWER in CollateralMarket().positions
    ensures BookTotals(Touch(CollateralMarket(), BORROWER, 1), BORROWER, quotes) == Totals(1600, 0)
  {
    hide TokenUsd, DebtMarket, Touch;
    UnitValue(0);
    UnitValue(1000);
    UnitValue(2000);
    DebtDoubles();
    CollateralStands();
  }

  lemma SampleDebtsFit()
    ensures DebtsFit(TwoMarkets())
  {
    hide Indebted;
    IndebtedMeans(Loan(), 0, 1000);
  }

  /** On stored debts the sample borrower is within the limit (1000 against 1600); restated in
      slot 1, they owe 2000 and are not. */
  lemma StaleGuardCanPass()
    ensures var quotes: Quotes := _ => UNIT;
            && Reachable(TwoMarkets()) && DebtsFit(TwoMarkets())
            && Exposure(TwoMarkets(), BORROWER, quotes) == Totals(1600, 1000)
            && Exposure(Current(TwoMarkets(), BORROWER, 1), BORROWER, quotes) == Totals(1600, 2000)
  {
    hide Exposure, BookTotals, Touch, DebtMarket, CollateralMarket, Reachable, DebtsFit, LedgerInv;
    var quotes: Quotes := _ => UNIT;
    TwoMarketsReachable();
    SampleDebtsFit();
    SampleTotals(quotes);
    TwoBookExposure(DebtMarket(), CollateralMarket(), quotes);
    var d, c := Touch(DebtMarket(), BORROWER, 1), Touch(CollateralMarket(), BORROWER, 1);
    assert Current(TwoMarkets(), BORROWER, 1) == Two(d, c);
    TwoBookExposure(d, c, quotes);
  }

  // ---------- and it matters ----------

  /** The borrower takes 100 of the 2000 out in slot 1, listing the debt position once. */
  function SampleWithdrawal(): Step {
    DoWithdraw(BORROWER, SECURITY, 1, 100, Fresh(SECURITY, UNIT), [DebtPair().0, DebtPair().1])
  }

  /** In the same slot the lender repays 1000 of the debt for 1050 of the collateral. */
  function SampleLiquidation(): Liquidation {
    Liquidation(LENDER, BORROWER, LENT, SECURITY, 1, 1000, Fresh(1, UNIT), Fresh(2, UNIT), [])
  }

  function DebtPair(): RefPair {
    (PositionRef(BORROWER, LENT), PriceRef(Fresh(1, UNIT)))
  }

  lemma OnlyDebtPair()
    ensures Paired([DebtPair().0, DebtPair().1]) == [DebtPair()]
  {
  }

  lemma SampleComplete(quotes: Quotes)
    requires forall feed :: quotes(feed) == UNIT
    ensures CompleteOthers(TwoMarkets(), BORROWER, SampleWithdrawal().others, {SECURITY}, quotes)
  {
    hide DebtMarket, CollateralMarket;
    OnlyDebtPair();
    assert [DebtPair()][0].0 == PositionRef(BORROWER, LENT);
    assert Listed([DebtPair()], PositionRef(BORROWER, LENT));
  }

  lemma SampleListable()
    ensures Listable(TwoMarkets(), BORROWER, {SECURITY}, SampleWithdrawal().others)
  {
    hide PositionTotals, DebtMarket;
    var l, pair, skip := TwoMarkets(), DebtPair(), Addresses(BORROWER, {SECURITY});
    DebtDoubles();
    OnlyDebtPair();
    PairedLoads(l, SampleWithdrawal().others);
    assert PositionAddress(BORROWER, LENT) !in skip;
    assert PairTotals((Load(l, pair.0), Load(l, pair.1)), BORROWER, skip).Ok?;
    ScanUnfolds(l, [pair], BORROWER, skip);
    ListableScans(l, BORROWER, {SECURITY}, SampleWithdrawal().others);
  }

  /** The guard decides on 1900 left, worth 1520 of debt, against the stored 1000. */
  lemma SampleWithdrawalSucceeds(quotes: Quotes)
    requires forall feed :: quotes(feed) == UNIT
    ensures Execute(TwoMarkets(), SampleWithdrawal()).Ok?
  {
    hide Exposure, BookTotals, DebtMarket, Reachable, LedgerInv, CompleteOthers, Listable, Withdraw;
    var l, c := TwoMarkets(), CollateralMarket();
    var p := Touch(c, BORROWER, 1).positions[BORROWER];
    var after := WithPosition(Touch(c, BORROWER, 1), BORROWER, p.(supplied := 1900));
    TwoMarketsReachable();
    SampleComplete(quotes);
    SampleListable();
    CollateralStands();
    WithdrawSucceedsIff(l, BORROWER, SECURITY, 1, 100, Fresh(2, UNIT), SampleWithdrawal().others, quotes);
    SampleTotals(quotes);
    LessCollateral(after, quotes);
    assert l[SECURITY := after] == Two(DebtMarket(), after);
    TwoBookExposure(DebtMarket(), after, quotes);
  }

  lemma LessCollateral(b: Book, quotes: Quotes)
    requires forall feed :: quotes(feed) == UNIT
    requires BORROWER in b.positions
             && b.positions[BORROWER] == CollateralMarket().positions[BORROWER].(supplied := 1900)
    ensures BookTotals(b, BORROWER, quotes) == Totals(1520, 0)
  {
    hide TokenUsd;
    UnitValue(1900);
    UnitValue(0);
  }

  /** What is left of the collateral market after the withdrawal. */
  function Remaining(): Book {
    Book(CollateralMarket().market.(lastUpdateSlot := 1, totalSupplied := 1900), 2000, 1900,
         map[BORROWER := CollateralMarket().positions[BORROWER].(supplied := 1900)],
         map[BORROWER := 100, LENDER := 0], map[BORROWER := 2000])
  }

  lemma AfterWithdrawal(quotes: Quotes)
    requires forall feed :: quotes(feed) == UNIT
    ensures Next(TwoMarkets(), SampleWithdrawal()) == Two(DebtMarket(), Remaining())
  {
    hide DebtMarket, Withdraw, Release, Touch;
    SampleWithdrawalSucceeds(quotes);
    WithdrawDid(TwoMarkets(), BORROWER, SECURITY, 1, 100, Fresh(2, UNIT), SampleWithdrawal().others);
    ReleasedRemains();
  }

  lemma ReleasedRemains()
    ensures Release(Touch(CollateralMarket(), BORROWER, 1), BORROWER, BORROWER, 100) == Ok(Remaining())
  {
    CollateralStands();
    var released := Release(Touch(CollateralMarket(), BORROWER, 1), BORROWER, BORROWER, 100).value;
    assert released.positions == Remaining().positions;
    assert released.wallets == Remaining().wallets;
  }

  lemma RemainingStands()
    ensures Touch(Remaining(), BORROWER, 1) == Remaining()
  {
  }

  lemma SampleSeizure()
    ensures var k := Two(DebtMarket(), Remaining());
            && Present(k, SampleLiquidation()) && LiquidationRefusal(k, SampleLiquidation()).None?
            && Repaid(k, SampleLiquidation()) == 1000 && Seized(k, SampleLiquidation()) == 1050
  {
    hide TokenUsd, UsdToToken, Touch, DebtMarket;
    DebtDoubles();
    RemainingStands();
    UnitValue(1000);
    UnitValue(1050);
    assert WithBonus(1000) == 1050;
  }

  lemma SampleLiquidationSucceeds(quotes: Quotes)
    requires forall feed :: quotes(feed) == UNIT
    requires LedgerInv(Two(DebtMarket(), Remaining()))
    ensures CompleteOthers(Two(DebtMarket(), Remaining()), BORROWER, [], {LENT, SECURITY}, quotes)
    ensures Liquidate(Two(DebtMarket(), Remaining()), SampleLiquidation()).Ok?
  {
    hide Exposure, BookTotals, LedgerInv, Liquidate, LiquidationRefusal, Repaid, Seized, Touch, DebtMarket;
    var k, q := Two(DebtMarket(), Remaining()), SampleLiquidation();
    DebtDoubles();
    SampleSeizure();
    LiquidateSucceedsIff(k, q, quotes);
    SampleTotals(quotes);
    RemainingStands();
    LessCollateral(Remaining(), quotes);
    assert LiquidationAccrued(k, q) == Two(DebtBook(k, q), CollateralBook(k, q));
    TwoBookExposure(DebtBook(k, q), CollateralBook(k, q), quotes);
  }

  /** Passing a guard is not enough: this user passes that of `withdraw`, listing everything at
      current prices, and is liquidated in the same slot, on debt the guard did not see. */
  lemma GuardedUserCanBeLiquidated()
    ensures var l, k := TwoMarkets(), Next(TwoMarkets(), SampleWithdrawal());
            var quotes: Quotes := _ => UNIT;
            && Reachable(l) && Execute(l, SampleWithdrawal()).Ok?
               && Disciplined(l, SampleWithdrawal(), BORROWER, quotes)
            && Disciplined(k, DoLiquidate(SampleLiquidation()), BORROWER, quotes)
            && Liquidate(k, SampleLiquidation()).Ok?
  {
    hide TwoMarkets, Next, Execute, Liquidate, CompleteOthers, Reachable, LedgerInv, DebtMarket, Remaining;
    var quotes: Quotes := _ => UNIT;
    TwoMarketsReachable();
    SampleComplete(quotes);
    SampleWithdrawalSucceeds(quotes);
    StepInv(TwoMarkets(), SampleWithdrawal());
    AfterWithdrawal(quotes);
    SampleLiquidationSucceeds(quotes);
  }
}
