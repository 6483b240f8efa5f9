/** The guards of `withdraw`, `borrow` and `liquidate` make one and the same test: over a complete
    listing each decides the user's exposure over all markets, from one or two main positions. */
module HealthGuards {
  import opened Arith
  import opened State
  import opened Interest
  import opened Valuation
  import opened Health
  import opened Instructions
  import opened Bookkeeping
  import opened LedgerRuns

  /** The user's debt in this market is already stated at the index of `slot`. */
  ghost predicate RestatedIn(b: Book, user: Pubkey, slot: u64) {
    user in b.positions ==>
      b.positions[user].borrowed == 0 || b.positions[user].snapshotE18 == AccrueMarket(b.market, slot).borrowIndexE18
  }

  ghost predicate Restated(l: Ledger, user: Pubkey, slot: u64, except: set<Pubkey>) {
    forall mint :: mint in l && mint !in except ==> RestatedIn(l[mint], user, slot)
  }

  // ---------- how a step moves one user's exposure ----------

  lemma ClampPlus(x: Totals, y: Totals)
    ensures x.Clamp().Plus(y).Clamp() == x.Plus(y).Clamp()
    ensures x.Clamp().Clamp() == x.Clamp()
  {
  }

  lemma InvOwned(l: Ledger)
    requires LedgerInv(l)
    ensures Owned(l)
  {
    forall mint, user | mint in l && user in l[mint].positions
      ensures l[mint].positions[user].user == user
    {
      assert WellFormedPosition(l[mint].positions[user], user, l[mint].market);
    }
  }

  lemma ExposureUpdate(l: Ledger, mint: Pubkey, b: Book, user: Pubkey, quotes: Quotes)
    ensures Exposure(l[mint := b], user, quotes) == BookTotals(b, user, quotes).Plus(Exposure(l - {mint}, user, quotes))
  {
    hide Exposure, BookTotals;
    ExposureRemove(l[mint := b], mint, user, quotes);
    assert l[mint := b] - {mint} == l - {mint};
  }

  /** The accruals inside an instruction leave an up-to-date position as it was. */
  lemma TouchRestated(b: Book, user: Pubkey, slot: u64, quotes: Quotes)
    requires user in b.positions && RestatedIn(b, user, slot)
    ensures Touch(b, user, slot).positions[user].borrowed == b.positions[user].borrowed
    ensures BookTotals(Touch(b, user, slot), user, quotes) == BookTotals(b, user, quotes)
  {
    hide AccrueMarket, PositionTotals;
  }

  /** Depositing never lowers collateral at LTV and leaves debt alone, at any prices. */
  lemma DepositImproves(b: Book, user: Pubkey, amount: u64, quotes: Quotes)
    requires user in b.positions && Deposit(b, user, amount).Ok?
    ensures var c := Deposit(b, user, amount).value;
            && BookTotals(b, user, quotes).collatAtLtv <= BookTotals(c, user, quotes).collatAtLtv
            && BookTotals(b, user, quotes).debt == BookTotals(c, user, quotes).debt
  {
    hide TokenUsd, AtLtv;
    var p := b.positions[user];
    CollateralMonotone(p.supplied, p.supplied + amount, quotes(p.feedId), p.decimals, p.maxLtvBps);
  }

  lemma CollateralMonotone(a: u64, b: u64, price: Price, decimals: u8, ltv: u16)
    requires a <= b
    ensures AtLtv(TokenUsd(a, price, decimals), ltv) <= AtLtv(TokenUsd(b, price, decimals), ltv)
  {
    hide TokenUsd;
    TokenUsdMonotone(a, b, price, decimals);
    var x, y := TokenUsd(a, price, decimals), TokenUsd(b, price, decimals);
    MulMonotone(x, y, ltv);
    DivMonotone(SatMul(x, ltv), SatMul(y, ltv), BPS_DENOMINATOR);
  }

  /** Paying down never raises debt and leaves collateral alone, at any prices. */
  lemma PayDownImproves(b: Book, payer: Pubkey, user: Pubkey, amount: u64, quotes: Quotes)
    requires user in b.positions && PayDown(b, payer, user, amount).Ok?
    ensures var c := PayDown(b, payer, user, amount).value;
            && BookTotals(b, user, quotes).collatAtLtv == BookTotals(c, user, quotes).collatAtLtv
            && BookTotals(c, user, quotes).debt <= BookTotals(b, user, quotes).debt
  {
    hide TokenUsd, AtLtv;
    var p := b.positions[user];
    TokenUsdMonotone(SatSub(p.borrowed, amount), p.borrowed, quotes(p.feedId), p.decimals);
  }

  ghost predicate AtLeastAsHealthy(worse: Totals, better: Totals) {
    worse.collatAtLtv <= better.collatAtLtv && better.debt <= worse.debt
  }

  /** `supply` needs no health check: against the ledger its own accruals produce, it never
      lowers the user's collateral and never raises the user's debt, whatever the prices. */
  lemma SupplyImproves(l: Ledger, user: Pubkey, mint: Pubkey, slot: u64, amount: u64, quotes: Quotes)
    requires Supply(l, user, mint, slot, amount).Ok?
    ensures AtLeastAsHealthy(Exposure(l[mint := Open(l[mint], user, slot)], user, quotes),
                             Exposure(Supply(l, user, mint, slot, amount).value, user, quotes))
  {
    hide Open, Deposit, Exposure, BookTotals;
    var b := Open(l[mint], user, slot);
    var c := Deposit(b, user, amount).value;
    ExposureUpdate(l, mint, b, user, quotes);
    ExposureUpdate(l, mint, c, user, quotes);
    DepositImproves(b, user, amount, quotes);
  }

  /** Nor does `repay`. */
  lemma RepayImproves(l: Ledger, user: Pubkey, mint: Pubkey, slot: u64, amount: u64, quotes: Quotes)
    requires Repay(l, user, mint, slot, amount).Ok?
    ensures mint in l && user in l[mint].positions
    ensures AtLeastAsHealthy(Exposure(l[mint := Touch(l[mint], user, slot)], user, quotes),
                             Exposure(Repay(l, user, mint, slot, amount).value, user, quotes))
  {
    hide Touch, PayDown, Exposure, BookTotals;
    RepayDid(l, user, mint, slot, amount);
    var b := Touch(l[mint], user, slot);
    var pay := Min(amount, b.positions[user].borrowed);
    var c := PayDown(b, user, user, pay).value;
    ExposureUpdate(l, mint, b, user, quotes);
    ExposureUpdate(l, mint, c, user, quotes);
    PayDownImproves(b, user, user, pay, quotes);
  }

  lemma HealthierStaysWithin(worse: Totals, better: Totals)
    requires AtLeastAsHealthy(worse, better) && worse.WithinLimit()
    ensures better.WithinLimit()
  {
  }

  // ---------- the one-main guards decide the exposure of the ledger they leave ----------

  ghost predicate CompleteOthers(l: Ledger, user: Pubkey, others: seq<AccountRef>, mains: set<Pubkey>, quotes: Quotes) {
    RefsAgree(others, quotes) && (|others| % 2 == 0 ==> Complete(l, user, Paired(others), mains))
  }

  lemma OneMainDecides(l: Ledger, user: Pubkey, mint: Pubkey, p: Position, oracle: PriceUpdate,
                       others: seq<AccountRef>, b: Book, quotes: Quotes)
    requires LedgerInv(l) && mint in l
    requires AgreesWith(oracle, quotes) && CompleteOthers(l, user, others, {mint}, quotes)
    requires user in b.positions && b.positions[user] == p
    requires OneMain(l, user, mint, p, oracle, p.feedId, others).Ok?
    ensures OneMain(l, user, mint, p, oracle, p.feedId, others).value.WithinLimit()
       <==> Exposure(l[mint := b], user, quotes).WithinLimit()
  {
    hide Exposure, PositionTotals, Complete, LoadAll, Scan;
    InvOwned(l);
    var start := PositionTotals(p.supplied, p.borrowed, oracle.price, p.decimals, p.maxLtvBps);
    OneMainIsExposure(l, mint, others, user, quotes, start);
    ExposureUpdate(l, mint, b, user, quotes);
    ClampPlus(start.Plus(Exposure(l - {mint}, user, quotes)), NOTHING);
  }

  /** A successful `borrow` leaves its user within the limit over all markets. */
  lemma BorrowLeavesWithin(l: Ledger, user: Pubkey, mint: Pubkey, slot: u64, amount: u64, oracle: PriceUpdate,
                           others: seq<AccountRef>, quotes: Quotes)
    requires LedgerInv(l) && Borrow(l, user, mint, slot, amount, oracle, others).Ok?
    requires AgreesWith(oracle, quotes) && CompleteOthers(l, user, others, {mint}, quotes)
    ensures Exposure(Borrow(l, user, mint, slot, amount, oracle, others).value, user, quotes).WithinLimit()
  {
    hide Exposure, Touch, OneMain, Inv, CompleteOthers;
    BorrowDid(l, user, mint, slot, amount, oracle, others);
    var b := Touch(l[mint], user, slot);
    var p := b.positions[user].(borrowed := b.positions[user].borrowed + amount);
    TouchFeed(l[mint], user, slot);
    OneMainDecides(l, user, mint, p, oracle, others, Lend(b, user, amount).value, quotes);
  }

  /** A successful `withdraw` does, too. */
  lemma WithdrawLeavesWithin(l: Ledger, user: Pubkey, mint: Pubkey, slot: u64, amount: u64, oracle: PriceUpdate,
                             others: seq<AccountRef>, quotes: Quotes)
    requires LedgerInv(l) && Withdraw(l, user, mint, slot, amount, oracle, others).Ok?
    requires AgreesWith(oracle, quotes) && CompleteOthers(l, user, others, {mint}, quotes)
    ensures Exposure(Withdraw(l, user, mint, slot, amount, oracle, others).value, user, quotes).WithinLimit()
  {
    hide Exposure, Touch, OneMain, Inv, CompleteOthers;
    WithdrawDid(l, user, mint, slot, amount, oracle, others);
    var b := Touch(l[mint], user, slot);
    var p := b.positions[user].(supplied := b.positions[user].supplied - amount);
    TouchFeed(l[mint], user, slot);
    OneMainDecides(l, user, mint, p, oracle, others, Release(b, user, user, amount).value, quotes);
  }

  lemma TouchFeed(b: Book, user: Pubkey, slot: u64)
    requires Inv(b) && user in b.positions
    ensures Touch(b, user, slot).positions[user].feedId == Touch(b, user, slot).market.feedId == b.market.feedId
  {
    assert WellFormedPosition(b.positions[user], user, b.market);
  }

  // ---------- the two-main guard sees the same exposure ----------

  lemma ExposureTwoUpdates(l: Ledger, m1: Pubkey, b1: Book, m2: Pubkey, b2: Book, user: Pubkey, quotes: Quotes)
    requires m1 != m2
    ensures Exposure(l[m1 := b1][m2 := b2], user, quotes)
         == BookTotals(b1, user, quotes)
            .Plus(BookTotals(b2, user, quotes))
            .Plus(Exposure(l - {m1} - {m2}, user, quotes))
  {
    hide Exposure, BookTotals;
    ExposureUpdate(l[m1 := b1], m2, b2, user, quotes);
    assert l[m1 := b1] - {m2} == (l - {m2})[m1 := b1];
    ExposureUpdate(l - {m2}, m1, b1, user, quotes);
    assert l - {m2} - {m1} == l - {m1} - {m2};
  }

  /** The ledger with the accruals a liquidation starts with, and nothing else. */
  function LiquidationAccrued(l: Ledger, q: Liquidation): Ledger
    requires Present(l, q)
  {
    l[q.debtMint := DebtBook(l, q)][q.collateralMint := CollateralBook(l, q)]
  }

  /** Over a complete listing, `liquidate` weighs exactly the exposure of the ledger its own
      accruals produce, whichever two positions are its main ones. */
  lemma TwoMainSeesExposure(l: Ledger, q: Liquidation, quotes: Quotes)
    requires LedgerInv(l) && q.debtMint != q.collateralMint && Present(l, q) && TwoMain(l, q).Ok?
    requires AgreesWith(q.debtOracle, quotes) && AgreesWith(q.collateralOracle, quotes)
    requires CompleteOthers(l, q.borrower, q.others, {q.debtMint, q.collateralMint}, quotes)
    ensures TwoMain(l, q).value == Exposure(LiquidationAccrued(l, q), q.borrower, quotes).Clamp()
  {
    hide Exposure, PositionTotals, Complete, LoadAll, Scan, Touch, Inv;
    InvOwned(l);
    var user := q.borrower;
    var d, c := BookTotals(DebtBook(l, q), user, quotes), BookTotals(CollateralBook(l, q), user, quotes);
    TouchFeed(l[q.debtMint], user, q.slot);
    TouchFeed(l[q.collateralMint], user, q.slot);
    TwoMainIsExposure(l, q.debtMint, q.collateralMint, q.others, user, quotes, d.Plus(c).Clamp());
    ClampPlus(d.Plus(c), Exposure(l - {q.debtMint} - {q.collateralMint}, user, quotes));
    ExposureTwoUpdates(l, q.debtMint, DebtBook(l, q), q.collateralMint, CollateralBook(l, q), user, quotes);
  }

  /** A liquidation that gets as far as weighing health is refused by the health guard exactly
      when the borrower's whole exposure, its two main debts restated, is within the limit:
      the very test `borrow` and `withdraw` make of the ledger they leave. */
  lemma LiquidateRefusedIffWithin(l: Ledger, q: Liquidation, quotes: Quotes)
    requires LedgerInv(l) && q.debtMint != q.collateralMint
    requires LiquidationRefusal(l, q).None? && TwoMain(l, q).Ok?
    requires AgreesWith(q.debtOracle, quotes) && AgreesWith(q.collateralOracle, quotes)
    requires CompleteOthers(l, q.borrower, q.others, {q.debtMint, q.collateralMint}, quotes)
    ensures Liquidate(l, q) == Err(PositionHealthy)
            <==> Exposure(LiquidationAccrued(l, q), q.borrower, quotes).WithinLimit()
  {
    hide Exposure, Touch, TwoMain, RestatedIn, CompleteOthers, Inv, LiquidationAccrued;
    TwoMainSeesExposure(l, q, quotes);
  }
}
