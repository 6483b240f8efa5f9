/** Exactly when each instruction goes through: which of its checks can fail in a ledger that
    keeps its invariants, and what the health guards amount to over a complete listing. */
module Acceptance {
  import opened Arith
  import opened State
  import opened Sums
  import opened Interest
  import opened Health
  import opened Instructions
  import opened Bookkeeping
  import opened LedgerRuns
  import opened HealthGuards

  // ---------- calls without a health check ----------

  /** A claim goes through exactly once per wallet, while the mint's supply still fits. */
  lemma ClaimSucceedsIff(l: Ledger, user: Pubkey, mint: Pubkey)
    requires LedgerInv(l) && mint in l
    ensures ClaimFaucet(l, user, mint).Ok? <==>
            && user !in l[mint].receipts
            && l[mint].mintSupply + l[mint].market.amountPerClaim <= U64_MAX
            && |l[mint].receipts| < U64_MAX
  {
    BalanceBound(l[mint], user);
  }

  /** Of the two overflow checks of `supply` only the market's can fail. */
  lemma SupplySucceedsIff(l: Ledger, user: Pubkey, mint: Pubkey, slot: u64, amount: u64)
    requires LedgerInv(l) && mint in l
    ensures Supply(l, user, mint, slot, amount).Ok? <==>
            0 < amount <= Balance(l[mint], user) && l[mint].market.totalSupplied + amount <= U64_MAX
  {
    hide AccrueMarket, AccruePosition, Inv;
    var b := Open(l[mint], user, slot);
    OpenKeepsBalances(l[mint], user, slot);
    TokensFit(l[mint], user, amount);
  }

  lemma OpenKeepsBalances(b: Book, user: Pubkey, slot: u64)
    requires Inv(b)
    ensures var c := Open(b, user, slot);
            && c.wallets == b.wallets && c.vault == b.vault && c.market.totalSupplied == b.market.totalSupplied
            && c.positions[user].supplied <= c.market.totalSupplied && Conserved(b)
  {
    hide AccrueMarket, AccruePosition;
    OpenAccrues(b, user, slot);
    TotalAtLeast(Open(b, user, slot).positions, Supplied, user);
  }

  /** `repay` goes through exactly when there is something to repay and the payer can pay it. */
  lemma RepaySucceedsIff(l: Ledger, user: Pubkey, mint: Pubkey, slot: u64, amount: u64)
    requires LedgerInv(l) && mint in l
    ensures Repay(l, user, mint, slot, amount).Ok? <==>
            && 0 < amount && user in l[mint].positions
            && var debt := Touch(l[mint], user, slot).positions[user].borrowed;
               0 < debt && Min(amount, debt) <= Balance(l[mint], user)
  {
    hide AccrueMarket, AccruePosition, Inv;
    if user in l[mint].positions {
      TouchConserves(l[mint], user, slot);
      TokensFit(Touch(l[mint], user, slot), user, Min(amount, Touch(l[mint], user, slot).positions[user].borrowed));
    }
  }

  // ---------- calls with one main position ----------

  /** The listed accounts come in pairs, each acceptable in itself. */
  predicate Listable(l: Ledger, user: Pubkey, mains: set<Pubkey>, others: seq<AccountRef>) {
    var accounts := LoadAll(l, others);
    && |others| % 2 == 0
    && forall i :: 0 <= i < |others| / 2 ==>
         Accepted(accounts[2 * i], accounts[2 * i + 1], user, Addresses(user, mains))
  }

  /** A recent update for this feed. */
  predicate Usable(oracle: PriceUpdate, feedId: FeedId) {
    oracle.recent && oracle.feedId == feedId
  }

  lemma ListableScans(l: Ledger, user: Pubkey, mains: set<Pubkey>, others: seq<AccountRef>)
    ensures Listable(l, user, mains, others)
       <==> |others| % 2 == 0 && Scan(Paired(LoadAll(l, others)), user, Addresses(user, mains)).Ok?
  {
    hide Accepted, Scan, Addresses;
    if |others| % 2 == 0 {
      AssessDecides(LoadAll(l, others), user, Addresses(user, mains), NOTHING);
    }
  }

  lemma NothingListedIsListable(l: Ledger, user: Pubkey, mains: set<Pubkey>)
    ensures Listable(l, user, mains, [])
  {
  }

  lemma OneMainAccepts(l: Ledger, user: Pubkey, mint: Pubkey, p: Position, oracle: PriceUpdate, feedId: FeedId,
                       others: seq<AccountRef>)
    ensures OneMain(l, user, mint, p, oracle, feedId, others).Ok?
       <==> Usable(oracle, feedId) && Listable(l, user, {mint}, others)
  {
    hide Scan, PositionTotals, Listable;
    ListableScans(l, user, {mint}, others);
  }

  /** The book with one position replaced. */
  function WithPosition(b: Book, user: Pubkey, p: Position): Book {
    b.(positions := b.positions[user := p])
  }

  lemma TouchKeepsTotals(b: Book, user: Pubkey, slot: u64)
    requires user in b.positions
    ensures Touch(b, user, slot).market.totalBorrowed == b.market.totalBorrowed && Touch(b, user, slot).vault == b.vault
  {
  }

  /** Over a complete listing at the prices of the moment, `borrow` goes through exactly when
      the vault has the tokens, the user supplies none of them, and the user's exposure over all
      markets, with the new debt in it, is within the limit. */
  lemma BorrowSucceedsIff(l: Ledger, user: Pubkey, mint: Pubkey, slot: u64, amount: u64, oracle: PriceUpdate,
                          others: seq<AccountRef>, quotes: Quotes)
    requires LedgerInv(l) && mint in l && user in l[mint].positions
    requires AgreesWith(oracle, quotes) && CompleteOthers(l, user, others, {mint}, quotes)
    ensures var b := Touch(l[mint], user, slot);
            var p := b.positions[user];
            Borrow(l, user, mint, slot, amount, oracle, others).Ok? <==>
            && 0 < amount <= l[mint].vault && p.supplied == 0
            && p.borrowed + amount <= U64_MAX && l[mint].market.totalBorrowed + amount <= U64_MAX
            && Usable(oracle, l[mint].market.feedId) && Listable(l, user, {mint}, others)
            && var after := WithPosition(b, user, p.(borrowed := p.borrowed + amount));
               Exposure(l[mint := after], user, quotes).WithinLimit()
  {
    hide Exposure, OneMain, Inv, CompleteOthers, Listable, AccrueMarket, AccruePosition, Totals.WithinLimit, Scan;
    var b := Touch(l[mint], user, slot);
    var p := b.positions[user];
    TouchFeed(l[mint], user, slot);
    TouchConserves(l[mint], user, slot);
    TouchKeepsTotals(l[mint], user, slot);
    TokensFit(b, user, amount);
    if p.borrowed + amount <= U64_MAX {
      var after := p.(borrowed := p.borrowed + amount);
      OneMainAccepts(l, user, mint, after, oracle, b.market.feedId, others);
      if OneMain(l, user, mint, after, oracle, after.feedId, others).Ok? {
        OneMainDecides(l, user, mint, after, oracle, others, WithPosition(b, user, after), quotes);
      }
    }
  }

  /** Likewise `withdraw`: what the user has, what the vault has, and the exposure left behind. */
  lemma WithdrawSucceedsIff(l: Ledger, user: Pubkey, mint: Pubkey, slot: u64, amount: u64, oracle: PriceUpdate,
                            others: seq<AccountRef>, quotes: Quotes)
    requires LedgerInv(l) && mint in l && user in l[mint].positions
    requires AgreesWith(oracle, quotes) && CompleteOthers(l, user, others, {mint}, quotes)
    ensures var b := Touch(l[mint], user, slot);
            var p := b.positions[user];
            Withdraw(l, user, mint, slot, amount, oracle, others).Ok? <==>
            && 0 < amount <= l[mint].vault && amount <= p.supplied
            && Usable(oracle, l[mint].market.feedId) && Listable(l, user, {mint}, others)
            && var after := WithPosition(b, user, p.(supplied := p.supplied - amount));
               Exposure(l[mint := after], user, quotes).WithinLimit()
  {
    hide Exposure, OneMain, Inv, CompleteOthers, Listable, AccrueMarket, AccruePosition, Totals.WithinLimit, Scan;
    var b := Touch(l[mint], user, slot);
    var p := b.positions[user];
    TouchFeed(l[mint], user, slot);
    TouchConserves(l[mint], user, slot);
    TokensFit(b, user, amount);
    SuppliedWithinTotal(l[mint], user, slot);
    if amount <= p.supplied {
      var after := p.(supplied := p.supplied - amount);
      OneMainAccepts(l, user, mint, after, oracle, b.market.feedId, others);
      if OneMain(l, user, mint, after, oracle, after.feedId, others).Ok? {
        OneMainDecides(l, user, mint, after, oracle, others, WithPosition(b, user, after), quotes);
      }
    }
  }

  // ---------- lists that are never refused ----------

  /** The pair names a position of the user outside the main ones, with a recent update for its
      market's feed at the price of the moment. */
  predicate Backed(l: Ledger, user: Pubkey, mains: set<Pubkey>, pair: RefPair, quotes: Quotes) {
    && pair.0.PositionRef? && pair.0.user == user && pair.0.mint in l && pair.0.mint !in mains
    && user in l[pair.0.mint].positions
    && var feedId := l[pair.0.mint].market.feedId;
       pair.1 == PriceRef(PriceUpdate(feedId, quotes(feedId), true))
  }

  lemma RefInPair(refs: seq<AccountRef>, i: nat)
    requires |refs| % 2 == 0 && i < |refs|
    ensures var pair := Paired(refs)[i / 2]; pair in Paired(refs) && refs[i] == if i % 2 == 0 then pair.0 else pair.1
  {
  }

  lemma BackedAccepted(l: Ledger, user: Pubkey, mains: set<Pubkey>, pair: RefPair, quotes: Quotes)
    requires LedgerInv(l) && Backed(l, user, mains, pair, quotes)
    ensures PairTotals((Load(l, pair.0), Load(l, pair.1)), user, Addresses(user, mains)).Ok?
  {
    hide PositionTotals;
    var mint := pair.0.mint;
    assert WellFormedPosition(l[mint].positions[user], user, l[mint].market);
    assert PositionAddress(user, mint) !in Addresses(user, mains);
  }

  lemma {:induction false} AcceptedPairsScan(l: Ledger, user: Pubkey, skip: set<Address>, pairs: seq<RefPair>)
    requires forall pair :: pair in pairs ==> PairTotals((Load(l, pair.0), Load(l, pair.1)), user, skip).Ok?
    ensures Scan(LoadPairs(l, pairs), user, skip).Ok?
  {
    hide PairTotals, Scan, LoadPairs, Load;
    ScanUnfolds(l, pairs, user, skip);
    if pairs != [] {
      assert pairs[0] in pairs;
      AcceptedPairsScan(l, user, skip, pairs[1..]);
    }
  }

  /** A list of such pairs is at current prices and accepted as a whole. */
  lemma BackedListable(l: Ledger, user: Pubkey, mains: set<Pubkey>, refs: seq<AccountRef>, quotes: Quotes)
    requires LedgerInv(l) && |refs| % 2 == 0
    requires forall pair :: pair in Paired(refs) ==> Backed(l, user, mains, pair, quotes)
    ensures RefsAgree(refs, quotes) && Listable(l, user, mains, refs)
  {
    hide LedgerInv, PairTotals, Scan, LoadAll, Paired, Listable;
    forall i | 0 <= i < |refs| && refs[i].PriceRef?
      ensures AgreesWith(refs[i].update, quotes)
    {
      RefInPair(refs, i);
    }
    forall pair | pair in Paired(refs)
      ensures PairTotals((Load(l, pair.0), Load(l, pair.1)), user, Addresses(user, mains)).Ok?
    {
      BackedAccepted(l, user, mains, pair, quotes);
    }
    AcceptedPairsScan(l, user, Addresses(user, mains), Paired(refs));
    PairedLoads(l, refs);
    ListableScans(l, user, mains, refs);
  }

  // ---------- liquidation ----------

  lemma TwoMainAccepts(l: Ledger, q: Liquidation)
    requires Present(l, q)
    ensures TwoMain(l, q).Ok? <==>
            && Usable(q.debtOracle, l[q.debtMint].market.feedId)
            && Usable(q.collateralOracle, l[q.collateralMint].market.feedId)
            && Listable(l, q.borrower, {q.debtMint, q.collateralMint}, q.others)
  {
    hide Scan, PositionTotals, Touch, Listable;
    ListableScans(l, q.borrower, {q.debtMint, q.collateralMint}, q.others);
  }

  /** The two markets, the borrower's position in each and the liquidator's two wallets exist. */
  predicate AccountsExist(l: Ledger, q: Liquidation) {
    && q.debtMint in l && q.borrower in l[q.debtMint].positions && q.liquidator in l[q.debtMint].wallets
    && q.collateralMint in l && q.borrower in l[q.collateralMint].positions
    && q.liquidator in l[q.collateralMint].wallets
  }

  /** What the borrower owes in the debt market, interest included, and has in the other. */
  function OwedAndHeld(l: Ledger, q: Liquidation): (u64, u64)
    requires AccountsExist(l, q)
  {
    (AccruePosition(l[q.debtMint].positions[q.borrower], AccrueMarket(l[q.debtMint].market, q.slot)).borrowed,
     l[q.collateralMint].positions[q.borrower].supplied)
  }

  lemma NotRefusedIff(l: Ledger, q: Liquidation)
    requires LedgerInv(l)
    ensures LiquidationRefusal(l, q).None? <==>
            && AccountsExist(l, q) && 0 < q.repayAmount && q.liquidator != q.borrower
            && 0 < OwedAndHeld(l, q).0 && 0 < OwedAndHeld(l, q).1
  {
    hide AccrueMarket, Restate;
    if AccountsExist(l, q) {
      assert WellFormedPosition(l[q.debtMint].positions[q.borrower], q.borrower, l[q.debtMint].market);
      assert WellFormedPosition(l[q.collateralMint].positions[q.borrower], q.borrower, l[q.collateralMint].market);
    }
  }

  /** Over a complete listing, a liquidation by anyone but the borrower goes through exactly when its
      accounts exist, something is asked for, owed and held, the prices are usable, the borrower's
      exposure over all markets is beyond the limit, something can be seized, the vault holds it and
      the liquidator holds the repayment. */
  lemma LiquidateSucceedsIff(l: Ledger, q: Liquidation, quotes: Quotes)
    requires LedgerInv(l) && q.debtMint != q.collateralMint
    requires AgreesWith(q.debtOracle, quotes) && AgreesWith(q.collateralOracle, quotes)
    requires CompleteOthers(l, q.borrower, q.others, {q.debtMint, q.collateralMint}, quotes)
    ensures Liquidate(l, q).Ok? <==>
            && AccountsExist(l, q) && 0 < q.repayAmount && q.liquidator != q.borrower
            && 0 < OwedAndHeld(l, q).0 && 0 < OwedAndHeld(l, q).1
            && Usable(q.debtOracle, l[q.debtMint].market.feedId)
            && Usable(q.collateralOracle, l[q.collateralMint].market.feedId)
            && Listable(l, q.borrower, {q.debtMint, q.collateralMint}, q.others)
            && !Exposure(LiquidationAccrued(l, q), q.borrower, quotes).WithinLimit()
            && 0 < Seized(l, q) <= l[q.collateralMint].vault
            && Repaid(l, q) <= Balance(l[q.debtMint], q.liquidator)
  {
    hide Exposure, Touch, TwoMain, CompleteOthers, LedgerInv, Inv, LiquidationAccrued, LiquidationRefusal, Seized,
         Repaid, PayDown, Release, WithBonus, Listable, OwedAndHeld;
    NotRefusedIff(l, q);
    if LiquidationRefusal(l, q).None? {
      NotRefusedIsPresent(l, q);
      TwoMainAccepts(l, q);
      if TwoMain(l, q).Ok? {
        TwoMainSeesExposure(l, q, quotes);
      }
      SettlementFits(l[q.debtMint], l[q.collateralMint], q, Repaid(l, q), Seized(l, q));
    }
  }

  lemma NotRefusedIsPresent(l: Ledger, q: Liquidation)
    requires LedgerInv(l) && LiquidationRefusal(l, q).None?
    ensures Present(l, q) && Inv(l[q.debtMint]) && Inv(l[q.collateralMint])
  {
    hide Inv, Touch;
  }

  /** Neither token transfer of a liquidation overflows; only the payer and the vault can be short. */
  lemma SettlementFits(d: Book, c: Book, q: Liquidation, repaid: u64, seized: u64)
    requires Inv(d) && Inv(c) && q.borrower in d.positions && q.borrower in c.positions
    ensures PayDown(Touch(d, q.borrower, q.slot), q.liquidator, q.borrower, repaid).Ok?
            <==> repaid <= Balance(d, q.liquidator)
    ensures Release(Touch(c, q.borrower, q.slot), q.borrower, q.liquidator, seized).Ok? <==> seized <= c.vault
    ensures var r := PayDown(Touch(d, q.borrower, q.slot), q.liquidator, q.borrower, repaid);
            r.Err? ==> r.error == InsufficientFunds
  {
    hide AccrueMarket, AccruePosition, Inv;
    TouchConserves(d, q.borrower, q.slot);
    TouchConserves(c, q.borrower, q.slot);
    TokensFit(Touch(d, q.borrower, q.slot), q.liquidator, repaid);
    TokensFit(Touch(c, q.borrower, q.slot), q.liquidator, seized);
  }
}
