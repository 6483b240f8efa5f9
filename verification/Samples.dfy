/** Ledgers that the program does reach, step by step from the empty one, for the results that
    need an example: a lender, a borrower, a lending market and a market with collateral. */
module Samples {
  import opened Arith
  import opened State
  import opened Interest
  import opened Valuation
  import opened Health
  import opened Instructions
  import opened LedgerRuns
  import opened HealthGuards
  import opened Acceptance

  const BORROWER: Pubkey := 7
  const LENDER: Pubkey := 8
  const LENT: Pubkey := 1
  const SECURITY: Pubkey := 2

  /** One 1e-8 USD an atom, and 1e20 times as much. */
  const UNIT: Price := Price(1, 1)
  const RICH: Price := Price(1, 21)

  /** The lending market's rate, what the lender deposits and what the lender keeps, the
      collateral the borrower deposits and its LTV. */
  datatype Sample = Sample(rate: u64, lent: u64, spare: u64, collateral: u64, ltv: u16)

  predicate Possible(x: Sample) {
    0 < x.lent && x.lent + x.spare + 1 <= U64_MAX && 0 < x.collateral <= 2_000_000 && 0 < x.ltv < BPS_DENOMINATOR
  }

  function Fresh(feedId: FeedId, price: Price): PriceUpdate {
    PriceUpdate(feedId, price, true)
  }

  function Two(lending: Book, security: Book): Ledger {
    map[LENT := lending, SECURITY := security]
  }

  // ---------- runs, one step at a time ----------

  lemma {:induction false} RunAppend(l: Ledger, steps: seq<Step>, s: Step)
    ensures Run(l, steps + [s]) == Next(Run(l, steps), s)
    decreases |steps|
  {
    hide Next;
    if steps == [] {
      assert [] + [s] == [s];
      assert Run(l, [s]) == Run(Next(l, s), [s][1..]);
    } else {
      assert (steps + [s])[0] == steps[0] && (steps + [s])[1..] == steps[1..] + [s];
      RunAppend(Next(l, steps[0]), steps[1..], s);
    }
  }

  lemma ReachableNext(l: Ledger, s: Step)
    requires Reachable(l)
    ensures Reachable(Next(l, s))
  {
    hide Run, Next;
    var steps: seq<Step> :| l == Run(map[], steps);
    RunAppend(map[], steps, s);
  }

  /** A step that replaces one market's book by another. */
  lemma ThenBook(l: Ledger, mint: Pubkey, b: Book, s: Step, c: Book)
    requires Reachable(l[mint := b]) && Execute(l[mint := b], s) == Ok(l[mint := b][mint := c])
    ensures Reachable(l[mint := c])
  {
    hide Execute, Reachable;
    ReachableNext(l[mint := b], s);
    assert l[mint := b][mint := c] == l[mint := c];
  }

  // ---------- two kinds of market ----------

  function Claim(x: Sample): u64
    requires Possible(x)
  {
    x.lent + x.spare + 1
  }

  function LendingMarket(x: Sample, supplied: u64, claims: u64): Market
    requires Possible(x)
  {
    Market(0, Claim(x), 8000, 1, x.rate, RATE_SCALE_E18, 0, supplied, 0, claims)
  }

  function SecurityMarket(x: Sample, supplied: u64, claims: u64): Market {
    Market(0, x.collateral, x.ltv, 2, 0, RATE_SCALE_E18, 0, supplied, 0, claims)
  }

  function Deposited(user: Pubkey, supplied: u64, feedId: FeedId, ltv: u16): Position {
    Position(user, supplied, 0, feedId, ltv, MINT_DECIMALS, RATE_SCALE_E18)
  }

  function Opened(m: Market): Book {
    Book(m, 0, 0, map[], map[], map[])
  }

  lemma LendingOpens(x: Sample, l: Ledger, mint: Pubkey)
    requires Possible(x) && Reachable(l) && mint !in l
    ensures Reachable(l[mint := Opened(LendingMarket(x, 0, 0))])
  {
    hide Reachable;
    ReachableNext(l, DoInitializeMarket(0, mint, 0, Claim(x), 8000, 1, x.rate));
  }

  lemma SecurityOpens(x: Sample, l: Ledger, mint: Pubkey)
    requires Possible(x) && Reachable(l) && mint !in l
    ensures Reachable(l[mint := Opened(SecurityMarket(x, 0, 0))])
  {
    hide Reachable;
    ReachableNext(l, DoInitializeMarket(0, mint, 0, x.collateral, x.ltv, 2, 0));
  }

  lemma NoSteps()
    ensures Reachable(map[])
  {
    assert Run(map[], []) == map[];
  }

  // ---------- the lender deposits, and gives the borrower one token ----------

  function LenderClaimed(x: Sample): Book
    requires Possible(x)
  {
    Book(LendingMarket(x, 0, 1), Claim(x), 0, map[], map[LENDER := Claim(x)], map[LENDER := Claim(x)])
  }

  function LenderSupplied(x: Sample): Book
    requires Possible(x)
  {
    Book(LendingMarket(x, x.lent, 1), Claim(x), x.lent, map[LENDER := Deposited(LENDER, x.lent, 1, 8000)],
         map[LENDER := x.spare + 1], map[LENDER := Claim(x)])
  }

  function BorrowerMet(x: Sample): Book
    requires Possible(x)
  {
    LenderSupplied(x).(wallets := map[LENDER := x.spare, BORROWER := 1])
  }

  lemma LenderDeposits(x: Sample, l: Ledger, mint: Pubkey)
    requires Possible(x) && Reachable(l[mint := Opened(LendingMarket(x, 0, 0))])
    ensures Reachable(l[mint := BorrowerMet(x)])
  {
    hide Reachable;
    var d0, d1, d2 := Opened(LendingMarket(x, 0, 0)), LenderClaimed(x), LenderSupplied(x);
    LenderClaims(x);
    ThenBook(l, mint, d0, DoClaimFaucet(LENDER, mint), d1);
    LenderSupplies(x);
    ThenBook(l, mint, d1, DoSupply(LENDER, mint, 0, x.lent), d2);
    var d3 := d2.(wallets := d2.wallets[BORROWER := 0]);
    ThenBook(l, mint, d2, DoOpenWallet(BORROWER, mint), d3);
    LenderGives(x, d3);
    ThenBook(l, mint, d3, DoTransfer(LENDER, BORROWER, mint, 1), BorrowerMet(x));
  }

  lemma LenderClaims(x: Sample)
    requires Possible(x)
    ensures Mint(Opened(LendingMarket(x, 0, 0)), LENDER, Claim(x)) == Ok(LenderClaimed(x))
  {
  }

  lemma LenderSupplies(x: Sample)
    requires Possible(x)
    ensures Deposit(Open(LenderClaimed(x), LENDER, 0), LENDER, x.lent) == Ok(LenderSupplied(x))
  {
    var r := Deposit(Open(LenderClaimed(x), LENDER, 0), LENDER, x.lent).value;
    assert r.positions == LenderSupplied(x).positions;
    assert r.wallets == LenderSupplied(x).wallets;
  }

  lemma LenderGives(x: Sample, d: Book)
    requires Possible(x) && d == LenderSupplied(x).(wallets := LenderSupplied(x).wallets[BORROWER := 0])
    ensures BetweenWallets(d, LENDER, BORROWER, 1) == Ok(BorrowerMet(x))
  {
    assert BetweenWallets(d, LENDER, BORROWER, 1).value.wallets == BorrowerMet(x).wallets;
  }

  // ---------- the borrower opens a position, and deposits collateral elsewhere ----------

  function BorrowerSupplied(x: Sample): Book
    requires Possible(x)
  {
    Book(LendingMarket(x, x.lent + 1, 1), Claim(x), x.lent + 1,
         map[LENDER := Deposited(LENDER, x.lent, 1, 8000), BORROWER := Deposited(BORROWER, 1, 1, 8000)],
         map[LENDER := x.spare, BORROWER := 0], map[LENDER := Claim(x)])
  }

  /** The lending market with everything in place. */
  function Lending(x: Sample): Book
    requires Possible(x)
  {
    Book(LendingMarket(x, x.lent, 1), Claim(x), x.lent,
         map[LENDER := Deposited(LENDER, x.lent, 1, 8000), BORROWER := Deposited(BORROWER, 0, 1, 8000)],
         map[LENDER := x.spare, BORROWER := 1], map[LENDER := Claim(x)])
  }

  lemma BorrowerOpens(x: Sample, l: Ledger, mint: Pubkey)
    requires Possible(x) && Reachable(l[mint := BorrowerMet(x)])
    ensures Reachable(l[mint := Lending(x)])
  {
    hide Reachable, Withdraw;
    BorrowerSupplies(x);
    ThenBook(l, mint, BorrowerMet(x), DoSupply(BORROWER, mint, 0, 1), BorrowerSupplied(x));
    BorrowerWithdraws(x, l[mint := BorrowerSupplied(x)], mint);
    ThenBook(l, mint, BorrowerSupplied(x), DoWithdraw(BORROWER, mint, 0, 1, Fresh(1, UNIT), []), Lending(x));
  }

  lemma BorrowerSupplies(x: Sample)
    requires Possible(x)
    ensures Deposit(Open(BorrowerMet(x), BORROWER, 0), BORROWER, 1) == Ok(BorrowerSupplied(x))
  {
    var r := Deposit(Open(BorrowerMet(x), BORROWER, 0), BORROWER, 1).value;
    assert r.positions == BorrowerSupplied(x).positions;
    assert r.wallets == BorrowerSupplied(x).wallets;
  }

  lemma BorrowerWithdraws(x: Sample, l: Ledger, mint: Pubkey)
    requires Possible(x) && mint in l && l[mint] == BorrowerSupplied(x)
    ensures Withdraw(l, BORROWER, mint, 0, 1, Fresh(1, UNIT), []) == Ok(l[mint := Lending(x)])
  {
    hide OneMain, TokenUsd, Release, Touch;
    var d := BorrowerSupplied(x);
    TouchedInSlotZero(d);
    NothingOwed(l, mint, d.positions[BORROWER].(supplied := 0));
    BorrowerReleases(x);
  }

  lemma TouchedInSlotZero(d: Book)
    requires BORROWER in d.positions && d.positions[BORROWER].snapshotE18 == d.market.borrowIndexE18
    ensures Touch(d, BORROWER, 0) == d
  {
    assert d.positions[BORROWER := d.positions[BORROWER]] == d.positions;
  }

  lemma NothingOwed(l: Ledger, mint: Pubkey, p: Position)
    requires p.supplied == 0 && p.borrowed == 0
    ensures var r := OneMain(l, BORROWER, mint, p, Fresh(1, UNIT), 1, []); r.Ok? && r.value.WithinLimit()
  {
    hide TokenUsd;
    TokenUsdWorthless(0, UNIT, p.decimals);
    assert LoadAll(l, []) == [];
    assert Paired<AccountInfo>([]) == [];
  }

  lemma BorrowerReleases(x: Sample)
    requires Possible(x)
    ensures Release(BorrowerSupplied(x), BORROWER, BORROWER, 1) == Ok(Lending(x))
  {
    var r := Release(BorrowerSupplied(x), BORROWER, BORROWER, 1).value;
    assert r.positions == Lending(x).positions;
    assert r.wallets == Lending(x).wallets;
  }

  function SecurityClaimed(x: Sample): Book {
    Book(SecurityMarket(x, 0, 1), x.collateral, 0, map[], map[BORROWER := x.collateral], map[BORROWER := x.collateral])
  }

  /** The collateral market with everything in place. */
  function Security(x: Sample): Book {
    Book(SecurityMarket(x, x.collateral, 1), x.collateral, x.collateral,
         map[BORROWER := Deposited(BORROWER, x.collateral, 2, x.ltv)],
         map[BORROWER := 0, LENDER := 0], map[BORROWER := x.collateral])
  }

  lemma BorrowerSecures(x: Sample, l: Ledger, mint: Pubkey)
    requires Possible(x) && Reachable(l[mint := Opened(SecurityMarket(x, 0, 0))])
    ensures Reachable(l[mint := Security(x)])
  {
    hide Reachable;
    var c0, c1 := Opened(SecurityMarket(x, 0, 0)), SecurityClaimed(x);
    ThenBook(l, mint, c0, DoClaimFaucet(BORROWER, mint), c1);
    var c2 := Security(x).(wallets := map[BORROWER := 0]);
    BorrowerDeposits(x);
    ThenBook(l, mint, c1, DoSupply(BORROWER, mint, 0, x.collateral), c2);
    assert c2.(wallets := c2.wallets[LENDER := 0]) == Security(x);
    ThenBook(l, mint, c2, DoOpenWallet(LENDER, mint), Security(x));
  }

  lemma BorrowerDeposits(x: Sample)
    requires Possible(x)
    ensures Deposit(Open(SecurityClaimed(x), BORROWER, 0), BORROWER, x.collateral)
            == Ok(Security(x).(wallets := map[BORROWER := 0]))
  {
    var r := Deposit(Open(SecurityClaimed(x), BORROWER, 0), BORROWER, x.collateral).value;
    assert r.positions == Security(x).positions;
    assert r.wallets == map[BORROWER := 0];
  }

  lemma LendingIsReachable(x: Sample, l: Ledger, mint: Pubkey)
    requires Possible(x) && Reachable(l) && mint !in l
    ensures Reachable(l[mint := Lending(x)])
  {
    hide Reachable, Lending, Opened, BorrowerMet;
    LendingOpens(x, l, mint);
    LenderDeposits(x, l, mint);
    BorrowerOpens(x, l, mint);
  }

  lemma SecurityIsReachable(x: Sample, l: Ledger, mint: Pubkey)
    requires Possible(x) && Reachable(l) && mint !in l
    ensures Reachable(l[mint := Security(x)])
  {
    hide Reachable, Security, Opened;
    SecurityOpens(x, l, mint);
    BorrowerSecures(x, l, mint);
  }

  /** Both markets are in place. */
  lemma ReadyIsReachable(x: Sample)
    requires Possible(x)
    ensures Reachable(Two(Lending(x), Security(x)))
  {
    hide Reachable, Lending, Security;
    var none: Ledger := map[];
    NoSteps();
    LendingIsReachable(x, none, LENT);
    SecurityIsReachable(x, none[LENT := Lending(x)], SECURITY);
    assert none[LENT := Lending(x)][SECURITY := Security(x)] == Two(Lending(x), Security(x));
  }

  // ---------- the borrower borrows, while the collateral is dear ----------

  function BorrowPrices(): Quotes {
    feedId => if feedId == SECURITY then RICH else UNIT
  }

  function SecurityPair(price: Price): RefPair {
    (PositionRef(BORROWER, SECURITY), PriceRef(Fresh(SECURITY, price)))
  }

  function SecurityRefs(price: Price): seq<AccountRef> {
    [SecurityPair(price).0, SecurityPair(price).1]
  }

  /** The lending market after the loan. */
  function Indebted(x: Sample, slot: u64, amount: u64): (d: Book)
    requires Possible(x) && 0 < amount <= x.lent
    ensures BORROWER in d.positions
  {
    var touched := Touch(Lending(x), BORROWER, slot);
    LoanFits(x, slot, amount);
    Lend(touched, BORROWER, amount).value
  }

  lemma LoanFits(x: Sample, slot: u64, amount: u64)
    requires Possible(x) && 0 < amount <= x.lent
    ensures var d := Touch(Lending(x), BORROWER, slot);
            && d.positions[BORROWER]
               == Lending(x).positions[BORROWER].(snapshotE18 := AccrueMarket(Lending(x).market, slot).borrowIndexE18)
            && d.vault == x.lent && d.market.totalBorrowed == 0
            && Lend(d, BORROWER, amount).Ok?
  {
    hide SatMul, SatAdd;
  }

  /** What the rest of the project needs to know of the indebted market. */
  lemma IndebtedMeans(x: Sample, slot: u64, amount: u64)
    requires Possible(x) && 0 < amount <= x.lent
    ensures var d, index := Indebted(x, slot, amount), AccrueMarket(Lending(x).market, slot).borrowIndexE18;
            && d.positions.Keys == {LENDER, BORROWER}
            && d.positions[LENDER] == Deposited(LENDER, x.lent, 1, 8000)
            && d.positions[BORROWER] == Position(BORROWER, 0, amount, 1, 8000, MINT_DECIMALS, index)
            && d.market == AccrueMarket(Lending(x).market, slot).(totalBorrowed := amount)
            && d.vault == x.lent - amount
            && d.wallets == map[LENDER := x.spare, BORROWER := amount + 1]
  {
    hide SatMul, SatAdd;
    assert Indebted(x, slot, amount).wallets == map[LENDER := x.spare, BORROWER := amount + 1];
  }

  lemma OnlyPair(price: Price)
    ensures Paired(SecurityRefs(price)) == [SecurityPair(price)]
  {
  }

  lemma SecurityListed(d: Book, x: Sample, price: Price, quotes: Quotes)
    requires quotes(SECURITY) == price
    ensures CompleteOthers(Two(d, Security(x)), BORROWER, SecurityRefs(price), {LENT}, quotes)
  {
    hide Security;
    OnlyPair(price);
    assert [SecurityPair(price)][0].0 == PositionRef(BORROWER, SECURITY);
    assert Listed([SecurityPair(price)], PositionRef(BORROWER, SECURITY));
  }

  lemma SecurityListable(d: Book, x: Sample, price: Price)
    requires 0 < x.collateral
    ensures Listable(Two(d, Security(x)), BORROWER, {LENT}, SecurityRefs(price))
  {
    hide PositionTotals;
    var l, pair, skip := Two(d, Security(x)), SecurityPair(price), Addresses(BORROWER, {LENT});
    OnlyPair(price);
    PairedLoads(l, SecurityRefs(price));
    assert PositionAddress(BORROWER, SECURITY) !in skip;
    assert PairTotals((Load(l, pair.0), Load(l, pair.1)), BORROWER, skip).Ok?;
    ScanUnfolds(l, [pair], BORROWER, skip);
    ListableScans(l, BORROWER, {LENT}, SecurityRefs(price));
  }

  lemma TwoBookExposure(d: Book, c: Book, quotes: Quotes)
    ensures Exposure(Two(d, c), BORROWER, quotes)
            == BookTotals(d, BORROWER, quotes).Plus(BookTotals(c, BORROWER, quotes))
  {
    hide BookTotals, Exposure;
    var l := Two(d, c);
    ExposureRemove(l, LENT, BORROWER, quotes);
    ExposureRemove(l - {LENT}, SECURITY, BORROWER, quotes);
    assert l - {LENT} - {SECURITY} == map[];
    NothingExposed(quotes);
  }

  lemma NothingExposed(quotes: Quotes)
    ensures Exposure(map[], BORROWER, quotes) == NOTHING
  {
  }

  lemma UnitValue(amount: u64)
    ensures TokenUsd(amount, UNIT, MINT_DECIMALS) == amount
    ensures UsdToToken(amount, UNIT, MINT_DECIMALS) == amount
  {
    assert Shift(UNIT, MINT_DECIMALS) == 0 && Pow(10, 0) == 1;
  }

  lemma RichValue(amount: u64)
    requires amount <= 2_000_000
    ensures TokenUsd(amount, RICH, MINT_DECIMALS) == amount * 100_000_000_000_000_000_000
  {
    PowAdd(10, 10, 10);
    assert Pow(10, 10) == 10_000_000_000 by {
      PowAdd(10, 5, 5);
      assert Pow(10, 5) == 100_000;
    }
    assert Shift(RICH, MINT_DECIMALS) == 20;
  }

  lemma RichCollateral(x: Sample)
    requires Possible(x)
    ensures x.collateral * 10_000_000_000_000_000 <= AtLtv(TokenUsd(x.collateral, RICH, MINT_DECIMALS), x.ltv)
  {
    RichValue(x.collateral);
    var value: u128 := x.collateral * 100_000_000_000_000_000_000;
    MulMonotone(1, x.ltv, value);
    MulMonotone(x.ltv, BPS_DENOMINATOR, value);
    DivAtLeast(value * x.ltv, BPS_DENOMINATOR, x.collateral * 10_000_000_000_000_000);
  }

  /** A loan the lender's deposit covers is granted, over a complete and acceptable listing, to a
      borrower whose other positions carry it; and so the indebted market is reached. */
  lemma LoanGranted(x: Sample, l: Ledger, mint: Pubkey, slot: u64, amount: u64, others: seq<AccountRef>, quotes: Quotes)
    requires Possible(x) && 0 < amount <= x.lent && mint in l && l[mint] == Lending(x) && Reachable(l) && LedgerInv(l)
    requires quotes(1) == UNIT && CompleteOthers(l, BORROWER, others, {mint}, quotes)
    requires Listable(l, BORROWER, {mint}, others)
    requires var rest := Exposure(l - {mint}, BORROWER, quotes); amount + rest.debt <= rest.collatAtLtv
    ensures Reachable(l[mint := Indebted(x, slot, amount)])
  {
    hide Exposure, BookTotals, LedgerInv, Reachable, CompleteOthers, Listable, Borrow, Touch, Lend;
    LoanFits(x, slot, amount);
    LendingFeed(x);
    BorrowSucceedsIff(l, BORROWER, mint, slot, amount, Fresh(1, UNIT), others, quotes);
    var b := Touch(Lending(x), BORROWER, slot);
    var after := WithPosition(b, BORROWER, b.positions[BORROWER].(borrowed := amount));
    LoanWeighs(after, amount, quotes);
    ExposureUpdate(l, mint, after, BORROWER, quotes);
    BorrowDid(l, BORROWER, mint, slot, amount, Fresh(1, UNIT), others);
    ReachableNext(l, DoBorrow(BORROWER, mint, slot, amount, Fresh(1, UNIT), others));
  }

  lemma LendingFeed(x: Sample)
    requires Possible(x)
    ensures BORROWER in Lending(x).positions && Lending(x).market.feedId == 1 && Lending(x).market.totalBorrowed == 0
    ensures Lending(x).positions[BORROWER] == Deposited(BORROWER, 0, 1, 8000) && Lending(x).vault == x.lent
  {
  }

  lemma LoanWeighs(d: Book, amount: u64, quotes: Quotes)
    requires quotes(1) == UNIT && BORROWER in d.positions
    requires var p := d.positions[BORROWER];
             p.supplied == 0 && p.borrowed == amount && p.feedId == 1 && p.decimals == MINT_DECIMALS
    ensures BookTotals(d, BORROWER, quotes) == Totals(0, amount)
  {
    hide TokenUsd;
    UnitValue(amount);
    UnitValue(0);
  }

  /** What the collateral is worth while it is dear: 1e16 of debt, at least, for each unit. */
  lemma SecurityWeighs(x: Sample)
    requires Possible(x)
    ensures var t := BookTotals(Security(x), BORROWER, BorrowPrices());
            t.debt == 0 && x.collateral * 10_000_000_000_000_000 <= t.collatAtLtv
  {
    hide TokenUsd, AtLtv;
    TokenUsdWorthless(0, RICH, MINT_DECIMALS);
    RichCollateral(x);
  }

  lemma SecurityAlone(x: Sample)
    ensures Exposure(map[SECURITY := Security(x)], BORROWER, BorrowPrices())
            == BookTotals(Security(x), BORROWER, BorrowPrices())
  {
    hide BookTotals, Exposure, Security;
    ExposureRemove(map[SECURITY := Security(x)], SECURITY, BORROWER, BorrowPrices());
    assert map[SECURITY := Security(x)] - {SECURITY} == map[];
    NothingExposed(BorrowPrices());
  }

  lemma LoanIsReachable(x: Sample, slot: u64, amount: u64)
    requires Possible(x) && 0 < amount <= x.lent && amount <= x.collateral * 10_000_000_000_000_000
    ensures Reachable(Two(Indebted(x, slot, amount), Security(x)))
  {
    hide Reachable, Lending, Security, LedgerInv, Indebted, Exposure, BookTotals, CompleteOthers, Listable;
    var l := Two(Lending(x), Security(x));
    ReadyIsReachable(x);
    ReachableInv(l);
    SecurityListed(Lending(x), x, RICH, BorrowPrices());
    SecurityListable(Lending(x), x, RICH);
    SecurityWeighs(x);
    SecurityAlone(x);
    assert l - {LENT} == map[SECURITY := Security(x)];
    LoanGranted(x, l, LENT, slot, amount, SecurityRefs(RICH), BorrowPrices());
    assert l[LENT := Indebted(x, slot, amount)] == Two(Indebted(x, slot, amount), Security(x));
  }
}
