/** Stored against current debts: the loops value listed positions at their stored debts, so the
    guards weigh something that may be healthier than the truth, and is never worse unless a debt
    shrinks on restating. Short of that, a user who is within the limit on current debts cannot be
    liquidated, restated or not. */
module CurrentDebts {
  import opened Arith
  import opened State
  import opened Sums
  import opened Interest
  import opened Valuation
  import opened Health
  import opened Instructions
  import opened Bookkeeping
  import opened LedgerRuns
  import opened HealthGuards

  function TouchIfThere(b: Book, user: Pubkey, slot: u64): Book {
    if user in b.positions then Touch(b, user, slot) else b
  }

  /** The ledger with every position of the user restated at `slot`. */
  function Current(l: Ledger, user: Pubkey, slot: u64): Ledger {
    map mint | mint in l :: TouchIfThere(l[mint], user, slot)
  }

  /** No debt of the user shrinks when restated at `slot`. */
  ghost predicate Growing(l: Ledger, user: Pubkey, slot: u64) {
    forall mint :: mint in l ==> 0 <= InterestOn(l[mint], user, slot)
  }

  /** The user's debts, all of them current, are within the collateral limit, and none shrinks. */
  ghost predicate Safe(l: Ledger, user: Pubkey, slot: u64, quotes: Quotes) {
    Growing(l, user, slot) && Exposure(Current(l, user, slot), user, quotes).WithinLimit()
  }

  // ---------- which debts do not shrink ----------

  lemma FittingDebtsGrow(l: Ledger, user: Pubkey, slot: u64)
    requires LedgerInv(l) && DebtsFit(l)
    ensures Growing(l, user, slot)
  {
    hide Inv, InterestOn;
    forall mint | mint in l
      ensures 0 <= InterestOn(l[mint], user, slot)
    {
      FitsIn(l, mint);
      InterestNeverNegative(l[mint], user, slot);
    }
  }

  lemma FitsIn(l: Ledger, mint: Pubkey)
    requires DebtsFit(l) && mint in l
    ensures DebtsFitIn(l[mint])
  {
  }

  lemma RestatedDebtStands(b: Book, user: Pubkey, slot: u64)
    requires RestatedIn(b, user, slot)
    ensures InterestOn(b, user, slot) == 0
  {
    hide AccrueMarket;
  }

  // ---------- stored against current exposure ----------

  lemma RestatingKeepsCollateral(b: Book, user: Pubkey, slot: u64, quotes: Quotes)
    ensures BookTotals(TouchIfThere(b, user, slot), user, quotes).collatAtLtv == BookTotals(b, user, quotes).collatAtLtv
  {
    hide AccrueMarket, Restate, TokenUsd, AtLtv;
  }

  lemma RestatingAddsDebt(b: Book, user: Pubkey, slot: u64, quotes: Quotes)
    requires 0 <= InterestOn(b, user, slot)
    ensures BookTotals(b, user, quotes).debt <= BookTotals(TouchIfThere(b, user, slot), user, quotes).debt
  {
    hide AccrueMarket, Restate, TokenUsd, AtLtv;
    if user in b.positions {
      var p := b.positions[user];
      TokenUsdMonotone(p.borrowed, Touch(b, user, slot).positions[user].borrowed, quotes(p.feedId), p.decimals);
    }
  }

  lemma CurrentCollateral(l: Ledger, user: Pubkey, slot: u64, quotes: Quotes)
    ensures Total(Current(l, user, slot), CollatOf(user, quotes)) == Total(l, CollatOf(user, quotes))
  {
    hide BookTotals, TouchIfThere;
    var k := Current(l, user, slot);
    forall mint | mint in l
      ensures BookTotals(k[mint], user, quotes).collatAtLtv == BookTotals(l[mint], user, quotes).collatAtLtv
    {
      RestatingKeepsCollateral(l[mint], user, slot, quotes);
    }
    TotalExtend(l, k, CollatOf(user, quotes));
  }

  /** Where no debt shrinks on restating, stored debts do not overstate: what a guard weighs is at
      least as healthy as the truth, so whoever is within the limit on current debts passes it. */
  lemma StoredNoWorseThanCurrent(l: Ledger, user: Pubkey, slot: u64, quotes: Quotes)
    requires Growing(l, user, slot)
    ensures AtLeastAsHealthy(Exposure(Current(l, user, slot), user, quotes), Exposure(l, user, quotes))
    ensures Exposure(Current(l, user, slot), user, quotes).WithinLimit() ==> Exposure(l, user, quotes).WithinLimit()
  {
    hide BookTotals, TouchIfThere, InterestOn;
    var k := Current(l, user, slot);
    forall mint | mint in l
      ensures BookTotals(l[mint], user, quotes).debt <= BookTotals(k[mint], user, quotes).debt
    {
      RestatingAddsDebt(l[mint], user, slot, quotes);
    }
    TotalMonotone(l, k, DebtOf(user, quotes));
    CurrentCollateral(l, user, slot, quotes);
  }

  /** Restating changes the value of none of the user's debts. */
  ghost predicate ValuesCurrent(l: Ledger, user: Pubkey, slot: u64, quotes: Quotes) {
    forall mint :: mint in l ==>
      BookTotals(TouchIfThere(l[mint], user, slot), user, quotes).debt == BookTotals(l[mint], user, quotes).debt
  }

  lemma RestatedValuesCurrent(l: Ledger, user: Pubkey, slot: u64, quotes: Quotes)
    requires Restated(l, user, slot, {})
    ensures Growing(l, user, slot) && ValuesCurrent(l, user, slot, quotes)
  {
    hide BookTotals, RestatedIn, Touch;
    forall mint | mint in l
      ensures 0 <= InterestOn(l[mint], user, slot)
      ensures BookTotals(TouchIfThere(l[mint], user, slot), user, quotes).debt == BookTotals(l[mint], user, quotes).debt
    {
      RestatedDebtStands(l[mint], user, slot);
      if user in l[mint].positions {
        TouchRestated(l[mint], user, slot, quotes);
      }
    }
  }

  /** The guards weigh the current exposure when restating moves the value of no debt. */
  lemma ValuesCurrentSame(l: Ledger, user: Pubkey, slot: u64, quotes: Quotes)
    requires ValuesCurrent(l, user, slot, quotes)
    ensures Exposure(Current(l, user, slot), user, quotes) == Exposure(l, user, quotes)
  {
    hide BookTotals, TouchIfThere;
    TotalExtend(l, Current(l, user, slot), DebtOf(user, quotes));
    CurrentCollateral(l, user, slot, quotes);
  }

  /** Where no debt shrinks, only then: a shortfall in one market is never made up for in another. */
  lemma StoredIsCurrentIff(l: Ledger, user: Pubkey, slot: u64, quotes: Quotes)
    requires Growing(l, user, slot)
    ensures Exposure(Current(l, user, slot), user, quotes) == Exposure(l, user, quotes)
       <==> ValuesCurrent(l, user, slot, quotes)
  {
    hide BookTotals, TouchIfThere, InterestOn;
    var k := Current(l, user, slot);
    forall mint | mint in l
      ensures BookTotals(l[mint], user, quotes).debt <= BookTotals(k[mint], user, quotes).debt
    {
      RestatingAddsDebt(l[mint], user, slot, quotes);
    }
    TotalSameIff(l, k, DebtOf(user, quotes));
    CurrentCollateral(l, user, slot, quotes);
  }

  // ---------- liquidation against current exposure ----------

  lemma CurrentWithout(l: Ledger, user: Pubkey, slot: u64, m1: Pubkey, m2: Pubkey)
    ensures Current(l, user, slot) - {m1} - {m2} == Current(l - {m1} - {m2}, user, slot)
  {
  }

  /** Against the current exposure, that of the two main markets alone brought up to date. */
  lemma CurrentSplits(l: Ledger, q: Liquidation, quotes: Quotes)
    requires Present(l, q) && q.debtMint != q.collateralMint
    ensures var rest := l - {q.debtMint} - {q.collateralMint};
            var lent := BookTotals(DebtBook(l, q), q.borrower, quotes);
            var mains := lent.Plus(BookTotals(CollateralBook(l, q), q.borrower, quotes));
            && Exposure(LiquidationAccrued(l, q), q.borrower, quotes) == mains.Plus(Exposure(rest, q.borrower, quotes))
            && Exposure(Current(l, q.borrower, q.slot), q.borrower, quotes)
               == mains.Plus(Exposure(Current(rest, q.borrower, q.slot), q.borrower, quotes))
  {
    hide Exposure, BookTotals, Touch;
    var user, d: Pubkey, c: Pubkey := q.borrower, q.debtMint, q.collateralMint;
    var k: Ledger := Current(l, user, q.slot);
    ExposureTwoUpdates(l, d, DebtBook(l, q), c, CollateralBook(l, q), user, quotes);
    ExposureTwoUpdates(k, d, DebtBook(l, q), c, CollateralBook(l, q), user, quotes);
    assert k[d := DebtBook(l, q)][c := CollateralBook(l, q)] == k;
    CurrentWithout(l, user, q.slot, d, c);
  }

  /** What a liquidation weighs is at least as healthy as the current exposure when no debt outside
      its two main markets shrinks on restating, and the same when none there changes value. */
  lemma WeighedAgainstCurrent(l: Ledger, q: Liquidation, quotes: Quotes)
    requires Present(l, q) && q.debtMint != q.collateralMint
    ensures Growing(l - {q.debtMint} - {q.collateralMint}, q.borrower, q.slot) ==>
              AtLeastAsHealthy(Exposure(Current(l, q.borrower, q.slot), q.borrower, quotes),
                               Exposure(LiquidationAccrued(l, q), q.borrower, quotes))
    ensures ValuesCurrent(l - {q.debtMint} - {q.collateralMint}, q.borrower, q.slot, quotes) ==>
              Exposure(LiquidationAccrued(l, q), q.borrower, quotes)
              == Exposure(Current(l, q.borrower, q.slot), q.borrower, quotes)
  {
    hide Exposure, BookTotals, LiquidationAccrued, InterestOn, Growing, ValuesCurrent;
    var rest := l - {q.debtMint} - {q.collateralMint};
    CurrentSplits(l, q, quotes);
    if Growing(rest, q.borrower, q.slot) {
      StoredNoWorseThanCurrent(rest, q.borrower, q.slot, quotes);
    }
    if ValuesCurrent(rest, q.borrower, q.slot, quotes) {
      ValuesCurrentSame(rest, q.borrower, q.slot, quotes);
    }
  }

  /** Nobody can liquidate a user who is within the limit on current debts, restated or not, through
      two markets outside which no debt shrinks on restating: the call fails, and with
      `PositionHealthy` whenever it gets as far as measuring health. */
  lemma SafeMeansUnliquidatable(l: Ledger, q: Liquidation, quotes: Quotes)
    requires LedgerInv(l) && q.debtMint != q.collateralMint
    requires Growing(l - {q.debtMint} - {q.collateralMint}, q.borrower, q.slot)
    requires Exposure(Current(l, q.borrower, q.slot), q.borrower, quotes).WithinLimit()
    requires AgreesWith(q.debtOracle, quotes) && AgreesWith(q.collateralOracle, quotes)
    requires CompleteOthers(l, q.borrower, q.others, {q.debtMint, q.collateralMint}, quotes)
    ensures Liquidate(l, q).Err?
    ensures LiquidationRefusal(l, q).None? && TwoMain(l, q).Ok? ==> Liquidate(l, q) == Err(PositionHealthy)
  {
    hide Exposure, Touch, TwoMain, CompleteOthers, Inv, LiquidationAccrued, Current, Growing;
    if LiquidationRefusal(l, q).None? && TwoMain(l, q).Ok? {
      WeighedAgainstCurrent(l, q, quotes);
      HealthierStaysWithin(Exposure(Current(l, q.borrower, q.slot), q.borrower, quotes),
                           Exposure(LiquidationAccrued(l, q), q.borrower, quotes));
      LiquidateRefusedIffWithin(l, q, quotes);
    }
  }

  /** What does not shrink in all markets does not shrink in some. */
  lemma GrowingElsewhere(l: Ledger, user: Pubkey, slot: u64, mains: set<Pubkey>)
    requires Growing(l, user, slot)
    ensures Growing(l - mains, user, slot)
  {
    hide InterestOn;
  }

  /** A liquidation through two markets that hold all debts whose value is out of date is refused
      by the health guard exactly when the borrower is within the limit on current debts. */
  lemma RefusedIffCurrentlyWithin(l: Ledger, q: Liquidation, quotes: Quotes)
    requires LedgerInv(l) && q.debtMint != q.collateralMint
    requires LiquidationRefusal(l, q).None? && TwoMain(l, q).Ok?
    requires AgreesWith(q.debtOracle, quotes) && AgreesWith(q.collateralOracle, quotes)
    requires CompleteOthers(l, q.borrower, q.others, {q.debtMint, q.collateralMint}, quotes)
    requires ValuesCurrent(l - {q.debtMint} - {q.collateralMint}, q.borrower, q.slot, quotes)
    ensures Liquidate(l, q) == Err(PositionHealthy)
       <==> Exposure(Current(l, q.borrower, q.slot), q.borrower, quotes).WithinLimit()
  {
    hide Exposure, Touch, TwoMain, CompleteOthers, Inv, LiquidationAccrued, Current, ValuesCurrent;
    WeighedAgainstCurrent(l, q, quotes);
    LiquidateRefusedIffWithin(l, q, quotes);
  }
}
