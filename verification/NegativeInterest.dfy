/** Interest that takes a debt down: a ledger the program reaches in which it happens, and what it
    does to the market's stored total, to the health check and to the depositors. */
module NegativeInterest {
  import opened Arith
  import opened State
  import opened Sums
  import opened Interest
  import opened Valuation
  import opened Health
  import opened Instructions
  import opened Bookkeeping
  import opened LedgerRuns
  import opened CurrentDebts
  import opened BankRun
  import opened Acceptance
  import opened Samples

  const AMOUNT: u64 := 18_000_000_000_000_000_000

  /** At the steepest rate there is, the index passes 2^64 after one slot. */
  function Steep(): Sample {
    Sample(U64_MAX, AMOUNT, 0, 2000, 8000)
  }

  /** The debt is taken in slot 1. */
  function Overgrown(): (d: Book)
    ensures BORROWER in d.positions
  {
    Indebted(Steep(), 1, AMOUNT)
  }

  function Ledgers(): Ledger {
    Two(Overgrown(), Security(Steep()))
  }

  lemma LedgersReachable()
    ensures Reachable(Ledgers()) && LedgerInv(Ledgers())
  {
    hide Reachable, LedgerInv, Security, Indebted;
    LoanIsReachable(Steep(), 1, AMOUNT);
    ReachableInv(Ledgers());
  }

  lemma OvergrownMeans()
    ensures Overgrown().market.borrowIndexE18 == OVERGROWN_INDEX && Overgrown().market.lastUpdateSlot == 1
    ensures Overgrown().market.borrowRatePerSlotE18 == U64_MAX && Overgrown().market.totalBorrowed == AMOUNT
    ensures Overgrown().positions[BORROWER] == Position(BORROWER, 0, AMOUNT, 1, 8000, MINT_DECIMALS, OVERGROWN_INDEX)
    ensures Overgrown().wallets == map[LENDER := 0, BORROWER := AMOUNT + 1] && Overgrown().vault == 0
    ensures Overgrown().positions.Keys == {LENDER, BORROWER}
    ensures Overgrown().positions[LENDER] == Deposited(LENDER, AMOUNT, 1, 8000) && Overgrown().market.feedId == 1
  {
    hide Indebted;
    IndebtedMeans(Steep(), 1, AMOUNT);
  }

  lemma OvergrownAccrues()
    ensures AccrueMarket(Overgrown().market, 2).borrowIndexE18 == SATURATED_INDEX
    ensures Touch(Overgrown(), BORROWER, 2).positions[BORROWER]
            == Position(BORROWER, 0, SHRUNKEN, 1, 8000, MINT_DECIMALS, SATURATED_INDEX)
    ensures Touch(Overgrown(), BORROWER, 2).market.totalBorrowed == AMOUNT
    ensures Touch(Overgrown(), BORROWER, 2).positions.Keys == {LENDER, BORROWER}
    ensures Touch(Overgrown(), BORROWER, 2).positions[LENDER] == Overgrown().positions[LENDER]
    ensures Touch(Overgrown(), BORROWER, 2).vault == 0 && Touch(Overgrown(), BORROWER, 2).market.feedId == 1
  {
    hide Overgrown, Restate;
    OvergrownMeans();
    RestateCanShrink();
  }

  lemma OneDebt(b: Book)
    requires b.positions.Keys == {LENDER, BORROWER} && b.positions[LENDER].borrowed == 0
    ensures SumBorrowed(b) == b.positions[BORROWER].borrowed
  {
    TotalRemove(b.positions, Borrowed, BORROWER);
    TotalZero(b.positions - {BORROWER}, Borrowed);
  }

  lemma OneUnitRepaid(b: Book)
    requires BORROWER in b.positions && PayDown(b, BORROWER, BORROWER, 1).Ok? && 0 < b.market.totalBorrowed
    requires b.positions.Keys == {LENDER, BORROWER} && b.positions[LENDER].borrowed == 0
             && 0 < b.positions[BORROWER].borrowed
    ensures var c := PayDown(b, BORROWER, BORROWER, 1).value;
            && c.market.totalBorrowed == b.market.totalBorrowed - 1
            && SumBorrowed(c) == b.positions[BORROWER].borrowed - 1
  {
    hide SumBorrowed;
    OneDebt(PayDown(b, BORROWER, BORROWER, 1).value);
  }

  /** A reachable ledger in which restating a debt in the next slot takes more than two percent
      off it; repaying one unit then leaves the market's stored total of debts above their sum. */
  lemma InterestCanBeNegative()
    ensures var l, repay := Ledgers(), DoRepay(BORROWER, LENT, 2, 1);
            var k := Next(l, repay);
            && Reachable(l) && Reachable(k) && Execute(l, repay).Ok?
            && InterestOn(l[LENT], BORROWER, 2) == SHRUNKEN - AMOUNT < 0
            && l[LENT].market.totalBorrowed == SumBorrowed(l[LENT])
            && LENT in k && SumBorrowed(k[LENT]) < k[LENT].market.totalBorrowed
  {
    hide Overgrown, Touch, Reachable, Security, Repay, PayDown, SumBorrowed, LedgerInv;
    var l := Ledgers();
    LedgersReachable();
    ReachableNext(l, DoRepay(BORROWER, LENT, 2, 1));
    OvergrownMeans();
    OvergrownAccrues();
    OneDebt(Overgrown());
    RepaySucceedsIff(l, BORROWER, LENT, 2, 1);
    RepayDid(l, BORROWER, LENT, 2, 1);
    OneUnitRepaid(Touch(Overgrown(), BORROWER, 2));
  }

  // ---------- the depositor left short ----------

  function RepayAll(): Step {
    DoRepay(BORROWER, LENT, 2, U64_MAX)
  }

  /** The debt is paid to the last unit, and the vault holds what it had shrunk to. */
  lemma AllRepaid()
    ensures Execute(Ledgers(), RepayAll()).Ok?
    ensures var k := Next(Ledgers(), RepayAll());
            && k.Keys == {LENT, SECURITY} && k[SECURITY] == Security(Steep())
            && k[LENT].positions.Keys == {LENDER, BORROWER} && k[LENT].vault == SHRUNKEN
            && k[LENT].positions[BORROWER].borrowed == 0 && k[LENT].positions[BORROWER].supplied == 0
            && k[LENT].market.feedId == 1
            && k[LENT].positions[LENDER].borrowed == 0 && k[LENT].positions[LENDER].supplied == AMOUNT
  {
    hide Overgrown, Touch, Security, Repay, PayDown, Reachable, LedgerInv;
    LedgersReachable();
    OvergrownMeans();
    OvergrownAccrues();
    RepaySucceedsIff(Ledgers(), BORROWER, LENT, 2, U64_MAX);
    RepayDid(Ledgers(), BORROWER, LENT, 2, U64_MAX);
    PaidToTheEnd(Touch(Overgrown(), BORROWER, 2));
  }

  lemma PaidToTheEnd(b: Book)
    requires BORROWER in b.positions && LENDER in b.positions && b.vault == 0
    requires PayDown(b, BORROWER, BORROWER, b.positions[BORROWER].borrowed).Ok?
    ensures var c := PayDown(b, BORROWER, BORROWER, b.positions[BORROWER].borrowed).value;
            && c.positions.Keys == b.positions.Keys && c.positions[LENDER] == b.positions[LENDER]
            && c.positions[BORROWER].supplied == b.positions[BORROWER].supplied
            && c.positions[BORROWER].borrowed == 0 && c.vault == b.positions[BORROWER].borrowed
            && c.market.feedId == b.market.feedId
  {
  }

  function LenderExit(): Exit {
    Exit(LENDER, 2, Fresh(1, UNIT), [])
  }

  /** A reachable ledger in which nobody owes the market anything, and its one depositor, who owes
      nothing anywhere and asks with a fresh price and no further accounts, cannot get out. */
  lemma DebtFreeMarketCanBeShort()
    ensures var k := Next(Ledgers(), RepayAll());
            && Reachable(k) && LENT in k
            && (forall user :: user in k[LENT].positions ==> k[LENT].positions[user].borrowed == 0)
            && Entitled(k, LENT, LenderExit()) && Everybody(k, LENT, [LenderExit()])
            && Leave(k, LENT, LenderExit()).Err?
  {
    hide Ledgers, RepayAll, Next, Reachable, Entitled, Leave, LedgerInv, Security, Execute;
    LedgersReachable();
    ReachableNext(Ledgers(), RepayAll());
    var k := Next(Ledgers(), RepayAll());
    ReachableInv(k);
    AllRepaid();
    LenderEntitled(k);
    assert [LenderExit()][0].user == LENDER && Queued([LenderExit()], LENDER);
    DepositorLeavesIff(k, LENT, LenderExit());
  }

  lemma LenderEntitled(k: Ledger)
    requires k.Keys == {LENT, SECURITY} && k[SECURITY] == Security(Steep())
    requires k[LENT].positions.Keys == {LENDER, BORROWER} && k[LENT].market.feedId == 1
    requires k[LENT].positions[LENDER].borrowed == 0 && k[LENT].positions[LENDER].supplied == AMOUNT
    ensures Entitled(k, LENT, LenderExit())
  {
    assert Paired<AccountRef>([]) == [];
  }

  // ---------- the borrower whom stored debts overstate ----------

  /** At the same ledger, stored debts overstate: what a guard would weigh is more than is owed. */
  lemma StoredDebtCanOverstate()
    ensures var l := Ledgers();
            var quotes: Quotes := _ => UNIT;
            && Reachable(l) && !Growing(l, BORROWER, 2)
            && Exposure(Current(l, BORROWER, 2), BORROWER, quotes).debt == SHRUNKEN
            && SHRUNKEN < Exposure(l, BORROWER, quotes).debt == AMOUNT
  {
    hide Overgrown, Touch, Reachable, LedgerInv, Exposure, BookTotals;
    var l := Ledgers();
    var quotes: Quotes := _ => UNIT;
    LedgersReachable();
    OvergrownMeans();
    OvergrownAccrues();
    var d, c := Touch(Overgrown(), BORROWER, 2), Touch(Security(Steep()), BORROWER, 2);
    assert Current(l, BORROWER, 2) == Two(d, c);
    TwoBookExposure(Overgrown(), Security(Steep()), quotes);
    TwoBookExposure(d, c, quotes);
    DebtsAtUnit(Overgrown(), AMOUNT, quotes);
    DebtsAtUnit(d, SHRUNKEN, quotes);
    DebtsAtUnit(Security(Steep()), 0, quotes);
    SecurityOwesNothing(quotes);
    assert InterestOn(l[LENT], BORROWER, 2) < 0;
  }

  lemma DebtsAtUnit(b: Book, debt: u64, quotes: Quotes)
    requires BORROWER in b.positions && b.positions[BORROWER].borrowed == debt
    requires b.positions[BORROWER].decimals == MINT_DECIMALS && forall feed :: quotes(feed) == UNIT
    ensures BookTotals(b, BORROWER, quotes).debt == debt
  {
    hide TokenUsd, AtLtv;
    UnitValue(debt);
  }

  lemma SecurityOwesNothing(quotes: Quotes)
    requires forall feed :: quotes(feed) == UNIT
    ensures BORROWER in Security(Steep()).positions
    ensures BookTotals(Touch(Security(Steep()), BORROWER, 2), BORROWER, quotes).debt == 0
  {
    hide TokenUsd, AtLtv;
    UnitValue(0);
  }
}
