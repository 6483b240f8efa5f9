/** What shrinking debts do to the health check: a borrower within the limit on what they owe now is
    liquidated, on a listed debt still stored at what it was. */
module OverstatedDebts {
  import opened Arith
  import opened State
  import opened Interest
  import opened Valuation
  import opened Health
  import opened Instructions
  import opened LedgerRuns
  import opened HealthGuards
  import opened CurrentDebts
  import opened Acceptance
  import opened Samples
  import opened NegativeInterest

  /** A second lending market, at rate zero, in which the borrower owes 1e17. */
  const SECOND: Pubkey := 3
  const SMALL: u64 := 100_000_000_000_000_000

  function Flat(): Sample {
    Sample(0, 1_000_000_000_000_000_000, 1_000_000_000_000_000_000, 2000, 8000)
  }

  function SecondMarket(): (d: Book)
    ensures BORROWER in d.positions
  {
    Indebted(Flat(), 0, SMALL)
  }

  function Three(lent: Book, security: Book, second: Book): Ledger {
    map[LENT := lent, SECURITY := security, SECOND := second]
  }

  function Overstated(): Ledger {
    Three(Overgrown(), Security(Steep()), SecondMarket())
  }

  lemma ThreeBookExposure(a: Book, s: Book, b: Book, quotes: Quotes)
    ensures Exposure(Three(a, s, b), BORROWER, quotes)
         == BookTotals(a, BORROWER, quotes).Plus(BookTotals(s, BORROWER, quotes)).Plus(BookTotals(b, BORROWER, quotes))
  {
    hide BookTotals, Exposure;
    ExposureRemove(Three(a, s, b), SECOND, BORROWER, quotes);
    assert Three(a, s, b) - {SECOND} == Two(a, s);
    TwoBookExposure(a, s, quotes);
  }

  // ---------- the run that gets there ----------

  function SecondPair(): RefPair {
    (PositionRef(BORROWER, SECOND), PriceRef(Fresh(1, UNIT)))
  }

  function LentPair(): RefPair {
    (PositionRef(BORROWER, LENT), PriceRef(Fresh(1, UNIT)))
  }

  function TwoPairs(): seq<AccountRef> {
    [SecurityPair(RICH).0, SecurityPair(RICH).1, SecondPair().0, SecondPair().1]
  }

  /** Everything is in place, and nothing is borrowed. */
  function Before(): Ledger {
    Three(Lending(Steep()), Security(Steep()), Lending(Flat()))
  }

  lemma BeforeIsReachable()
    ensures Reachable(Before()) && LedgerInv(Before())
  {
    hide Reachable, LedgerInv, Lending, Security;
    var two := Two(Lending(Steep()), Security(Steep()));
    ReadyIsReachable(Steep());
    LendingIsReachable(Flat(), two, SECOND);
    assert two[SECOND := Lending(Flat())] == Before();
    ReachableInv(Before());
  }

  lemma FirstListing()
    ensures CompleteOthers(Before(), BORROWER, SecurityRefs(RICH), {SECOND}, BorrowPrices())
    ensures Listable(Before(), BORROWER, {SECOND}, SecurityRefs(RICH))
  {
    hide LedgerInv, Listable, Security;
    BeforeIsReachable();
    OnlyPair(RICH);
    SecurityIsThere();
    LendingFeed(Steep());
    BackedListable(Before(), BORROWER, {SECOND}, SecurityRefs(RICH), BorrowPrices());
    assert [SecurityPair(RICH)][0].0 == PositionRef(BORROWER, SECURITY);
    assert Listed([SecurityPair(RICH)], PositionRef(BORROWER, SECURITY));
  }

  lemma SecurityIsThere()
    ensures BORROWER in Security(Steep()).positions && Security(Steep()).market.feedId == 2
    ensures Security(Steep()).positions[BORROWER] == Deposited(BORROWER, 2000, 2, 8000)
    ensures Security(Steep()).vault == 2000 && LENDER in Security(Steep()).wallets
  {
  }

  /** The loan in the second market, in slot 0. */
  function Between(): Ledger {
    Three(Lending(Steep()), Security(Steep()), SecondMarket())
  }

  lemma NothingLent(quotes: Quotes)
    ensures BookTotals(Lending(Steep()), BORROWER, quotes) == NOTHING
  {
    hide BookTotals;
    InactiveIsNothing(Lending(Steep()), BORROWER, quotes);
  }

  lemma BetweenIsReachable()
    ensures Reachable(Between()) && LedgerInv(Between())
  {
    hide Reachable, LedgerInv, Lending, Security, Indebted, Exposure, BookTotals, CompleteOthers, Listable;
    BeforeIsReachable();
    FirstListing();
    NothingLent(BorrowPrices());
    SecurityWeighs(Steep());
    TwoBookExposure(Lending(Steep()), Security(Steep()), BorrowPrices());
    assert Before() - {SECOND} == Two(Lending(Steep()), Security(Steep()));
    LoanGranted(Flat(), Before(), SECOND, 0, SMALL, SecurityRefs(RICH), BorrowPrices());
    assert Before()[SECOND := SecondMarket()] == Between();
    ReachableInv(Between());
  }

  lemma SecondMeans()
    ensures SecondMarket().positions[BORROWER] == Position(BORROWER, 0, SMALL, 1, 8000, MINT_DECIMALS, RATE_SCALE_E18)
    ensures SecondMarket().market.feedId == 1
    ensures SecondMarket().wallets == map[LENDER := Flat().spare, BORROWER := SMALL + 1]
    ensures Touch(SecondMarket(), BORROWER, 2).positions[BORROWER] == SecondMarket().positions[BORROWER]
    ensures Touch(SecondMarket(), BORROWER, 2).market.feedId == 1
  {
    hide Indebted;
    IndebtedMeans(Flat(), 0, SMALL);
  }

  lemma SecondListing()
    ensures CompleteOthers(Between(), BORROWER, TwoPairs(), {LENT}, BorrowPrices())
    ensures Listable(Between(), BORROWER, {LENT}, TwoPairs())
  {
    hide LedgerInv, Listable, Security, Indebted, Lending;
    var pairs := [SecurityPair(RICH), SecondPair()];
    BetweenIsReachable();
    SecurityIsThere();
    SecondMeans();
    assert Paired(TwoPairs()) == pairs;
    BackedListable(Between(), BORROWER, {LENT}, TwoPairs(), BorrowPrices());
    assert pairs[0].0 == PositionRef(BORROWER, SECURITY) && pairs[1].0 == PositionRef(BORROWER, SECOND);
    assert Listed(pairs, PositionRef(BORROWER, SECURITY)) && Listed(pairs, PositionRef(BORROWER, SECOND));
  }

  lemma SecondWeighs(b: Book, debt: u64, quotes: Quotes)
    requires BORROWER in b.positions && quotes(1) == UNIT
    requires var p := b.positions[BORROWER];
             p.supplied == 0 && p.borrowed == debt && p.feedId == 1 && p.decimals == MINT_DECIMALS
    ensures BookTotals(b, BORROWER, quotes) == Totals(0, debt)
  {
    hide BookTotals;
    LoanWeighs(b, debt, quotes);
  }

  lemma OverstatedIsReachable()
    ensures Reachable(Overstated()) && LedgerInv(Overstated())
  {
    hide Reachable, LedgerInv, Lending, Security, Indebted, Exposure, BookTotals, CompleteOthers, Listable;
    BetweenIsReachable();
    SecondListing();
    SecurityWeighs(Steep());
    SecondMeans();
    SecondWeighs(SecondMarket(), SMALL, BorrowPrices());
    RestOfBetween();
    LoanGranted(Steep(), Between(), LENT, 1, AMOUNT, TwoPairs(), BorrowPrices());
    assert Between()[LENT := Overgrown()] == Overstated();
    ReachableInv(Overstated());
  }

  lemma RestOfBetween()
    ensures Exposure(Between() - {LENT}, BORROWER, BorrowPrices())
         == BookTotals(Security(Steep()), BORROWER, BorrowPrices())
            .Plus(BookTotals(SecondMarket(), BORROWER, BorrowPrices()))
  {
    hide Exposure, BookTotals, Security, Indebted, Lending;
    var rest := Between() - {LENT};
    ExposureRemove(rest, SECURITY, BORROWER, BorrowPrices());
    ExposureRemove(rest - {SECURITY}, SECOND, BORROWER, BorrowPrices());
    assert rest - {SECURITY} - {SECOND} == map[];
    NothingExposed(BorrowPrices());
  }

  // ---------- the liquidation ----------

  /** The collateral is now worth 2.2e19, and carries 1.76e19 of debt. */
  const DEAR: Price := Price(11_000_000_000_000_000, 1)

  function Prices(): Quotes {
    feedId => if feedId == 2 then DEAR else UNIT
  }

  /** In slot 2, through the second market and the collateral, the first market listed. */
  function SecondLiquidation(): Liquidation {
    Liquidation(LENDER, BORROWER, SECOND, SECURITY, 2, SMALL, Fresh(1, UNIT), Fresh(2, DEAR),
                [LentPair().0, LentPair().1])
  }

  lemma DearValue(amount: u64)
    requires amount <= 2000
    ensures TokenUsd(amount, DEAR, MINT_DECIMALS) == amount * 11_000_000_000_000_000
  {
    assert Shift(DEAR, MINT_DECIMALS) == 0 && Pow(10, 0) == 1;
  }

  lemma DearTokens()
    ensures UsdToToken(WithBonus(SMALL), DEAR, MINT_DECIMALS) == 9
  {
    assert Shift(DEAR, MINT_DECIMALS) == 0 && Pow(10, 0) == 1;
    assert WithBonus(SMALL) == 105_000_000_000_000_000;
  }

  lemma SecurityStands()
    ensures BORROWER in Security(Steep()).positions
    ensures Touch(Security(Steep()), BORROWER, 2).positions[BORROWER] == Deposited(BORROWER, 2000, 2, 8000)
  {
  }

  lemma DearCollateral(b: Book)
    requires BORROWER in b.positions && b.positions[BORROWER] == Deposited(BORROWER, 2000, 2, 8000)
    ensures BookTotals(b, BORROWER, Prices()) == Totals(17_600_000_000_000_000_000, 0)
  {
    hide TokenUsd;
    DearValue(2000);
    DearValue(0);
  }

  lemma ThirdListing()
    ensures CompleteOthers(Overstated(), BORROWER, SecondLiquidation().others, {SECOND, SECURITY}, Prices())
    ensures Listable(Overstated(), BORROWER, {SECOND, SECURITY}, SecondLiquidation().others)
  {
    hide LedgerInv, Listable, Security, Indebted;
    OverstatedIsReachable();
    OvergrownMeans();
    assert Paired(SecondLiquidation().others) == [LentPair()];
    BackedListable(Overstated(), BORROWER, {SECOND, SECURITY}, SecondLiquidation().others, Prices());
    assert [LentPair()][0].0 == PositionRef(BORROWER, LENT);
    assert Listed([LentPair()], PositionRef(BORROWER, LENT));
  }

  lemma CurrentOverstated()
    ensures BORROWER in Security(Steep()).positions
    ensures Current(Overstated(), BORROWER, 2)
         == Three(Touch(Overgrown(), BORROWER, 2), Touch(Security(Steep()), BORROWER, 2),
                  Touch(SecondMarket(), BORROWER, 2))
  {
    hide Overgrown, Security, SecondMarket, Touch;
    SecurityStands();
  }

  /** Currently 1.76e19 of borrowing power stands against 1.7598e19 of debt. */
  lemma CurrentlyWithin()
    ensures Exposure(Current(Overstated(), BORROWER, 2), BORROWER, Prices())
         == Totals(17_600_000_000_000_000_000, SHRUNKEN + SMALL)
  {
    hide Exposure, BookTotals, Overgrown, Security, SecondMarket, Touch, Current, Overstated;
    OvergrownAccrues();
    SecondMeans();
    SecurityStands();
    var a, b := Touch(Overgrown(), BORROWER, 2), Touch(SecondMarket(), BORROWER, 2);
    var s := Touch(Security(Steep()), BORROWER, 2);
    CurrentOverstated();
    ThreeBookExposure(a, s, b, Prices());
    SecondWeighs(a, SHRUNKEN, Prices());
    SecondWeighs(b, SMALL, Prices());
    DearCollateral(s);
  }

  /** Weighed with the first market's debt as stored: 1.81e19. */
  lemma WeighedBeyond()
    ensures Present(Overstated(), SecondLiquidation())
    ensures Exposure(LiquidationAccrued(Overstated(), SecondLiquidation()), BORROWER, Prices())
         == Totals(17_600_000_000_000_000_000, AMOUNT + SMALL)
  {
    hide Exposure, BookTotals, Overgrown, Security, SecondMarket, Touch;
    OvergrownMeans();
    SecondMeans();
    SecurityStands();
    var s, b := Touch(Security(Steep()), BORROWER, 2), Touch(SecondMarket(), BORROWER, 2);
    assert LiquidationAccrued(Overstated(), SecondLiquidation()) == Three(Overgrown(), s, b);
    ThreeBookExposure(Overgrown(), s, b, Prices());
    SecondWeighs(Overgrown(), AMOUNT, Prices());
    SecondWeighs(b, SMALL, Prices());
    DearCollateral(s);
  }

  lemma SecondSeizure()
    ensures var l, q := Overstated(), SecondLiquidation();
            && LiquidationRefusal(l, q).None? && Repaid(l, q) == SMALL && Seized(l, q) == 9
            && Repaid(l, q) <= Balance(l[SECOND], LENDER)
  {
    hide TokenUsd, UsdToToken, WithBonus, Overgrown, Security, SecondMarket, Touch;
    OvergrownMeans();
    SecondMeans();
    SecurityIsThere();
    SecurityStands();
    UnitValue(SMALL);
    DearTokens();
  }

  /** A reachable ledger and a liquidation that goes through, everything listed at current prices,
      although the borrower is within the limit on current debts: the listed debt shrinks on
      restating, and is weighed unrestated. */
  lemma WithinLimitCanBeLiquidated()
    ensures var l, q := Overstated(), SecondLiquidation();
            && Reachable(l) && Exposure(Current(l, BORROWER, 2), BORROWER, Prices()).WithinLimit()
            && AgreesWith(q.debtOracle, Prices()) && AgreesWith(q.collateralOracle, Prices())
            && CompleteOthers(l, BORROWER, q.others, {SECOND, SECURITY}, Prices())
            && Liquidate(l, q).Ok?
  {
    hide Exposure, Reachable, LedgerInv, Overgrown, Security, SecondMarket, Liquidate, LiquidationAccrued, Current,
         Listable, CompleteOthers, LiquidationRefusal, Repaid, Seized, Balance, AccountsExist, OwedAndHeld;
    OverstatedIsReachable();
    OverstatedFeeds();
    ThirdListing();
    CurrentlyWithin();
    WeighedBeyond();
    SecondSeizure();
    NotRefusedIff(Overstated(), SecondLiquidation());
    LiquidateSucceedsIff(Overstated(), SecondLiquidation(), Prices());
  }

  lemma OverstatedFeeds()
    ensures var l := Overstated();
            l[SECOND].market.feedId == 1 && l[SECURITY].market.feedId == 2 && l[SECURITY].vault == 2000
  {
    hide Security, Indebted;
    SecondMeans();
    SecurityIsThere();
  }
}
