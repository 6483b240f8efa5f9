/** Which error each instruction returns when it does not go through: that of the first check, in the
    program's order, that fails; the checks being those of `Acceptance`. */
module Refusals {
  import opened Arith
  import opened State
  import opened Interest
  import opened Health
  import opened Instructions
  import opened Bookkeeping
  import opened LedgerRuns
  import opened HealthGuards
  import opened Acceptance

  /** The error is what is wrong with the list: its length, or its first pair that is not acceptable. */
  ghost predicate ListError(l: Ledger, user: Pubkey, mains: set<Pubkey>, others: seq<AccountRef>, e: Error) {
    if |others| % 2 != 0 then e == BadRemainingAccounts
    else
      var pairs, skip := Paired(LoadAll(l, others)), Addresses(user, mains);
      exists i :: IsFirstRefused(pairs, i, user, skip) && e == RefusedFor(pairs[i].0, pairs[i].1, user)
  }

  lemma UnlistableIsAnError(l: Ledger, user: Pubkey, mains: set<Pubkey>, others: seq<AccountRef>, start: Totals)
    requires !Listable(l, user, mains, others)
    ensures var r := Assess(LoadAll(l, others), user, Addresses(user, mains), start);
            r.Err? && ListError(l, user, mains, others, r.error)
  {
    hide Assess, Accepted, RefusedFor, IsFirstRefused, Addresses, SumOf;
    AssessDecides(LoadAll(l, others), user, Addresses(user, mains), start);
  }

  lemma ClaimRefusal(l: Ledger, user: Pubkey, mint: Pubkey)
    requires LedgerInv(l) && ClaimFaucet(l, user, mint).Err?
    ensures ClaimFaucet(l, user, mint).error ==
            if mint !in l then AccountNotInitialized
            else if user in l[mint].receipts then AccountInUse
            else if U64_MAX < l[mint].mintSupply + l[mint].market.amountPerClaim then TokenOverflow
            else Overflow
  {
    if mint in l {
      BalanceBound(l[mint], user);
    }
  }

  lemma SupplyRefusal(l: Ledger, user: Pubkey, mint: Pubkey, slot: u64, amount: u64)
    requires LedgerInv(l) && Supply(l, user, mint, slot, amount).Err?
    ensures Supply(l, user, mint, slot, amount).error ==
            if mint !in l then AccountNotInitialized
            else if amount == 0 then ZeroAmount
            else if Balance(l[mint], user) < amount then InsufficientFunds
            else Overflow
  {
    hide AccrueMarket, AccruePosition, Inv;
    if mint in l {
      OpenKeepsBalances(l[mint], user, slot);
      TokensFit(l[mint], user, amount);
    }
  }

  lemma RepayRefusal(l: Ledger, user: Pubkey, mint: Pubkey, slot: u64, amount: u64)
    requires LedgerInv(l) && Repay(l, user, mint, slot, amount).Err?
    ensures Repay(l, user, mint, slot, amount).error ==
            if mint !in l then AccountNotInitialized
            else if amount == 0 then ZeroAmount
            else if user !in l[mint].positions then NothingToRepay
            else if Touch(l[mint], user, slot).positions[user].borrowed == 0 then NothingToRepay
            else InsufficientFunds
  {
    hide AccrueMarket, AccruePosition, Inv;
    if mint in l && user in l[mint].positions {
      var pay := Min(amount, Touch(l[mint], user, slot).positions[user].borrowed);
      TouchConserves(l[mint], user, slot);
      TokensFit(Touch(l[mint], user, slot), user, pay);
    }
  }

  lemma WithdrawRefusal(l: Ledger, user: Pubkey, mint: Pubkey, slot: u64, amount: u64, oracle: PriceUpdate,
                        others: seq<AccountRef>, quotes: Quotes)
    requires LedgerInv(l) && Withdraw(l, user, mint, slot, amount, oracle, others).Err?
    requires AgreesWith(oracle, quotes) && CompleteOthers(l, user, others, {mint}, quotes)
    ensures var e := Withdraw(l, user, mint, slot, amount, oracle, others).error;
            if mint !in l || user !in l[mint].positions then e == AccountNotInitialized
            else
              var b := Touch(l[mint], user, slot);
              var p := b.positions[user];
              if amount == 0 then e == ZeroAmount
              else if p.supplied < amount then e == InsufficientCollateral
              else if !Usable(oracle, l[mint].market.feedId) then e == StalePrice
              else if !Listable(l, user, {mint}, others) then ListError(l, user, {mint}, others, e)
              else
                var after := WithPosition(b, user, p.(supplied := p.supplied - amount));
                if !Exposure(l[mint := after], user, quotes).WithinLimit() then e == WouldBeUnhealthy
                else e == InsufficientFunds
  {
    hide Exposure, OneMain, Inv, CompleteOthers, Listable, ListError, AccrueMarket, AccruePosition,
         Totals.WithinLimit, Scan;
    if mint in l && user in l[mint].positions {
      var b := Touch(l[mint], user, slot);
      var p := b.positions[user];
      TouchFeed(l[mint], user, slot);
      TouchConserves(l[mint], user, slot);
      TokensFit(b, user, amount);
      SuppliedWithinTotal(l[mint], user, slot);
      if amount <= p.supplied {
        var after := p.(supplied := p.supplied - amount);
        OneMainOutcome(l, user, mint, after, oracle, others, WithPosition(b, user, after), quotes);
      }
    }
  }

  /** What a guard with one main position comes to, error included. */
  lemma OneMainOutcome(l: Ledger, user: Pubkey, mint: Pubkey, p: Position, oracle: PriceUpdate, others: seq<AccountRef>,
                       b: Book, quotes: Quotes)
    requires LedgerInv(l) && mint in l
    requires AgreesWith(oracle, quotes) && CompleteOthers(l, user, others, {mint}, quotes)
    requires user in b.positions && b.positions[user] == p
    ensures var r := OneMain(l, user, mint, p, oracle, p.feedId, others);
            && (r.Ok? <==> Usable(oracle, p.feedId) && Listable(l, user, {mint}, others))
            && (!Usable(oracle, p.feedId) ==> r == Err(StalePrice))
            && (Usable(oracle, p.feedId) && r.Err? ==> ListError(l, user, {mint}, others, r.error))
            && (r.Ok? ==> (r.value.WithinLimit() <==> Exposure(l[mint := b], user, quotes).WithinLimit()))
  {
    hide Exposure, Inv, CompleteOthers, Listable, ListError, Assess, PositionTotals, LoadAll, LedgerInv;
    OneMainAccepts(l, user, mint, p, oracle, p.feedId, others);
    if OneMain(l, user, mint, p, oracle, p.feedId, others).Ok? {
      OneMainDecides(l, user, mint, p, oracle, others, b, quotes);
    } else if Usable(oracle, p.feedId) {
      var start := PositionTotals(p.supplied, p.borrowed, oracle.price, p.decimals, p.maxLtvBps);
      UnlistableIsAnError(l, user, {mint}, others, start);
    }
  }

  lemma BorrowRefusal(l: Ledger, user: Pubkey, mint: Pubkey, slot: u64, amount: u64, oracle: PriceUpdate,
                      others: seq<AccountRef>, quotes: Quotes)
    requires LedgerInv(l) && Borrow(l, user, mint, slot, amount, oracle, others).Err?
    requires AgreesWith(oracle, quotes) && CompleteOthers(l, user, others, {mint}, quotes)
    ensures var e := Borrow(l, user, mint, slot, amount, oracle, others).error;
            if mint !in l || user !in l[mint].positions then e == AccountNotInitialized
            else
              var b := Touch(l[mint], user, slot);
              var p := b.positions[user];
              if amount == 0 then e == ZeroAmount
              else if p.supplied != 0 then e == SameMintBorrow
              else if U64_MAX < p.borrowed + amount then e == Overflow
              else if l[mint].vault < amount then e == InsufficientLiquidity
              else if !Usable(oracle, l[mint].market.feedId) then e == StalePrice
              else if !Listable(l, user, {mint}, others) then ListError(l, user, {mint}, others, e)
              else
                var after := WithPosition(b, user, p.(borrowed := p.borrowed + amount));
                if !Exposure(l[mint := after], user, quotes).WithinLimit() then e == ExceedsLtv
                else e == Overflow
  {
    hide Exposure, OneMain, Inv, CompleteOthers, Listable, ListError, AccrueMarket, AccruePosition,
         Totals.WithinLimit, Scan;
    if mint in l && user in l[mint].positions {
      var b := Touch(l[mint], user, slot);
      var p := b.positions[user];
      TouchFeed(l[mint], user, slot);
      TouchConserves(l[mint], user, slot);
      TouchKeepsTotals(l[mint], user, slot);
      TokensFit(b, user, amount);
      if p.borrowed + amount <= U64_MAX {
        var after := p.(borrowed := p.borrowed + amount);
        OneMainOutcome(l, user, mint, after, oracle, others, WithPosition(b, user, after), quotes);
      }
    }
  }

  lemma LiquidateRefusal(l: Ledger, q: Liquidation, quotes: Quotes)
    requires LedgerInv(l) && q.debtMint != q.collateralMint && Liquidate(l, q).Err?
    requires AgreesWith(q.debtOracle, quotes) && AgreesWith(q.collateralOracle, quotes)
    requires CompleteOthers(l, q.borrower, q.others, {q.debtMint, q.collateralMint}, quotes)
    ensures var e, mains := Liquidate(l, q).error, {q.debtMint, q.collateralMint};
            if !AccountsExist(l, q) then e == AccountNotInitialized
            else if q.repayAmount == 0 then e == ZeroAmount
            else if q.liquidator == q.borrower then e == SelfLiquidation
            else if OwedAndHeld(l, q).0 == 0 || OwedAndHeld(l, q).1 == 0 then e == NothingToLiquidate
            else if !Usable(q.debtOracle, l[q.debtMint].market.feedId) then e == StalePrice
            else if !Usable(q.collateralOracle, l[q.collateralMint].market.feedId) then e == StalePrice
            else if !Listable(l, q.borrower, mains, q.others) then ListError(l, q.borrower, mains, q.others, e)
            else
              e == if Exposure(LiquidationAccrued(l, q), q.borrower, quotes).WithinLimit() then PositionHealthy
                   else if Seized(l, q) == 0 then NothingToLiquidate
                   else if l[q.collateralMint].vault < Seized(l, q) then InsufficientLiquidity
                   else InsufficientFunds
  {
    hide Exposure, TwoMain, CompleteOthers, LedgerInv, Inv, LiquidationAccrued, LiquidationRefusal, Seized, Repaid,
         PayDown, Release, WithBonus, Listable, ListError, OwedAndHeld, Touch, AccountsExist;
    NotRefusedIff(l, q);
    if LiquidationRefusal(l, q).Some? {
      RefusedFirst(l, q);
    } else {
      NotRefusedIsPresent(l, q);
      TwoMainOutcome(l, q, quotes);
      SettlementFits(l[q.debtMint], l[q.collateralMint], q, Repaid(l, q), Seized(l, q));
      VaultStands(l[q.collateralMint], q.borrower, q.slot);
    }
  }

  lemma VaultStands(b: Book, user: Pubkey, slot: u64)
    requires user in b.positions
    ensures Touch(b, user, slot).vault == b.vault
  {
  }

  lemma RefusedFirst(l: Ledger, q: Liquidation)
    requires LedgerInv(l) && LiquidationRefusal(l, q).Some?
    ensures LiquidationRefusal(l, q).value ==
            if !AccountsExist(l, q) then AccountNotInitialized
            else if q.repayAmount == 0 then ZeroAmount
            else if q.liquidator == q.borrower then SelfLiquidation
            else NothingToLiquidate
  {
    hide AccrueMarket, Restate;
    if AccountsExist(l, q) {
      assert WellFormedPosition(l[q.debtMint].positions[q.borrower], q.borrower, l[q.debtMint].market);
      assert WellFormedPosition(l[q.collateralMint].positions[q.borrower], q.borrower, l[q.collateralMint].market);
    }
  }

  /** What the guard with two main positions comes to, error included. */
  lemma TwoMainOutcome(l: Ledger, q: Liquidation, quotes: Quotes)
    requires LedgerInv(l) && q.debtMint != q.collateralMint && Present(l, q)
    requires AgreesWith(q.debtOracle, quotes) && AgreesWith(q.collateralOracle, quotes)
    requires CompleteOthers(l, q.borrower, q.others, {q.debtMint, q.collateralMint}, quotes)
    ensures var r, mains := TwoMain(l, q), {q.debtMint, q.collateralMint};
            var usable := Usable(q.debtOracle, l[q.debtMint].market.feedId)
                          && Usable(q.collateralOracle, l[q.collateralMint].market.feedId);
            && (r.Ok? <==> usable && Listable(l, q.borrower, mains, q.others))
            && (!usable ==> r == Err(StalePrice))
            && (usable && r.Err? ==> ListError(l, q.borrower, mains, q.others, r.error))
            && (r.Ok? ==> (r.value.WithinLimit()
                           <==> Exposure(LiquidationAccrued(l, q), q.borrower, quotes).WithinLimit()))
  {
    hide Exposure, Inv, CompleteOthers, Listable, ListError, Assess, PositionTotals, LoadAll, LedgerInv, Touch,
         LiquidationAccrued;
    TwoMainAccepts(l, q);
    if TwoMain(l, q).Ok? {
      TwoMainSeesExposure(l, q, quotes);
    } else {
      TwoMainListed(l, q);
    }
  }

  lemma TwoMainListed(l: Ledger, q: Liquidation)
    requires Present(l, q) && TwoMain(l, q).Err?
    requires Usable(q.debtOracle, l[q.debtMint].market.feedId)
             && Usable(q.collateralOracle, l[q.collateralMint].market.feedId) ==>
               !Listable(l, q.borrower, {q.debtMint, q.collateralMint}, q.others)
    ensures if Usable(q.debtOracle, l[q.debtMint].market.feedId)
               && Usable(q.collateralOracle, l[q.collateralMint].market.feedId)
            then ListError(l, q.borrower, {q.debtMint, q.collateralMint}, q.others, TwoMain(l, q).error)
            else TwoMain(l, q).error == StalePrice
  {
    hide Listable, ListError, Assess, PositionTotals, LoadAll, Touch;
    if Usable(q.debtOracle, l[q.debtMint].market.feedId)
       && Usable(q.collateralOracle, l[q.collateralMint].market.feedId) {
      var dp, cp := DebtBook(l, q).positions[q.borrower], CollateralBook(l, q).positions[q.borrower];
      var debtSide := PositionTotals(dp.supplied, dp.borrowed, q.debtOracle.price, dp.decimals, dp.maxLtvBps);
      var otherSide := PositionTotals(cp.supplied, cp.borrowed, q.collateralOracle.price, cp.decimals, cp.maxLtvBps);
      UnlistableIsAnError(l, q.borrower, {q.debtMint, q.collateralMint}, q.others, debtSide.Plus(otherSide).Clamp());
    }
  }
}
