/** The program as it runs: accounts are read into objects, updated in place, and written
    back only if nothing failed. Every method is proved to do what its specification says. */
module Program {
  import opened Arith
  import opened State
  import opened Interest
  import opened Valuation
  import opened Health
  import Spec = Instructions

  type Outcome = Result<()>

  class MarketAccount {
    const admin: Pubkey
    const maxLtvBps: u16
    const feedId: FeedId
    const borrowRatePerSlotE18: u64
    var amountPerClaim: u64
    var borrowIndexE18: u128
    var lastUpdateSlot: u64
    var totalSupplied: u64
    var totalBorrowed: u64
    var claimCount: u64

    constructor (m: Market)
      ensures Value() == m
    {
      admin, maxLtvBps, feedId, borrowRatePerSlotE18 := m.admin, m.maxLtvBps, m.feedId, m.borrowRatePerSlotE18;
      amountPerClaim, borrowIndexE18, lastUpdateSlot := m.amountPerClaim, m.borrowIndexE18, m.lastUpdateSlot;
      totalSupplied, totalBorrowed, claimCount := m.totalSupplied, m.totalBorrowed, m.claimCount;
    }

    function Value(): Market
      reads this
    {
      Market(admin, amountPerClaim, maxLtvBps, feedId, borrowRatePerSlotE18, borrowIndexE18, lastUpdateSlot,
             totalSupplied, totalBorrowed, claimCount)
    }

    /** Advances the index by the slots that passed. */
    method Accrue(slot: u64)
      modifies this`borrowIndexE18, this`lastUpdateSlot
      ensures Value() == AccrueMarket(old(Value()), slot)
    {
      if slot <= lastUpdateSlot {
        return;
      }
      var slots: u128 := slot - lastUpdateSlot;
      var growth := SatMul(SatMul(borrowIndexE18, borrowRatePerSlotE18), slots) / RATE_SCALE_E18;
      borrowIndexE18 := SatAdd(borrowIndexE18, growth);
      lastUpdateSlot := slot;
    }
  }

  class PositionAccount {
    var user: Pubkey
    var supplied: u64
    var borrowed: u64
    var feedId: FeedId
    var maxLtvBps: u16
    var decimals: u8
    var snapshotE18: u128

    constructor (p: Position)
      ensures Value() == p
    {
      user, supplied, borrowed, feedId := p.user, p.supplied, p.borrowed, p.feedId;
      maxLtvBps, decimals, snapshotE18 := p.maxLtvBps, p.decimals, p.snapshotE18;
    }

    function Value(): Position
      reads this
    {
      Position(user, supplied, borrowed, feedId, maxLtvBps, decimals, snapshotE18)
    }

    /** Restates the debt at the market's index. */
    method Accrue(market: MarketAccount)
      modifies this`borrowed, this`snapshotE18
      ensures Value() == AccruePosition(old(Value()), market.Value())
    {
      if snapshotE18 == 0 || borrowed == 0 || snapshotE18 == market.borrowIndexE18 {
        snapshotE18 := market.borrowIndexE18;
        return;
      }
      var product := SatMul(borrowed, market.borrowIndexE18);
      DivBounds(product, snapshotE18);
      var current: u128 := product / snapshotE18;
      borrowed := if current <= U64_MAX then current else U64_MAX;
      snapshotE18 := market.borrowIndexE18;
    }
  }

  class TokenAccount {
    var amount: u64

    constructor (amount: u64)
      ensures this.amount == amount
    {
      this.amount := amount;
    }
  }

  method TokenTransfer(from: TokenAccount, to: TokenAccount, amount: u64) returns (r: Outcome)
    requires from != to
    modifies from, to
    ensures r.Ok? <==> amount <= old(from.amount) && old(to.amount) + amount <= U64_MAX
    ensures r.Ok? ==> from.amount == old(from.amount) - amount && to.amount == old(to.amount) + amount
    ensures r.Err? ==> from.amount == old(from.amount) && to.amount == old(to.amount)
    ensures r.Err? ==> r.error == if old(from.amount) < amount then InsufficientFunds else TokenOverflow
  {
    if from.amount < amount {
      return Err(InsufficientFunds);
    }
    if U64_MAX < to.amount + amount {
      return Err(TokenOverflow);
    }
    from.amount := from.amount - amount;
    to.amount := to.amount + amount;
    return Ok(());
  }

  // ---------- the health loops ----------

  method AccumulatePosition(supplied: u64, borrowed: u64, price: Price, decimals: u8, maxLtvBps: u16, collat: u128,
                            debt: u128)
    returns (totalCollat: u128, totalDebt: u128)
    ensures Totals(totalCollat, totalDebt)
            == Totals(collat, debt).Plus(PositionTotals(supplied, borrowed, price, decimals, maxLtvBps)).Clamp()
    ensures var value := TokenUsd(supplied, price, decimals);
            totalCollat == Min(collat + Min(value * maxLtvBps, U128_MAX) / 10_000, U128_MAX)
    ensures totalDebt == Min(debt + TokenUsd(borrowed, price, decimals), U128_MAX)
  {
    var value := TokenUsd(supplied, price, decimals);
    var atLtv := AtLtv(value, maxLtvBps);
    totalCollat := SatAdd(collat, atLtv);
    totalDebt := SatAdd(debt, TokenUsd(borrowed, price, decimals));
  }

  lemma StartIsMain(supplied: u64, borrowed: u64, price: Price, decimals: u8, maxLtvBps: u16)
    ensures var main := PositionTotals(supplied, borrowed, price, decimals, maxLtvBps);
            NOTHING.Plus(main).Clamp() == main
  {
  }

  /** What is still to be said of a walk that has reached these totals. */
  function Continue(rest: Result<Totals>, soFar: Totals): Result<Totals> {
    if rest.Err? then rest else Ok(soFar.Plus(rest.value).Clamp())
  }

  lemma WalkOne(pairs: seq<Pair>, k: nat, user: Pubkey, skip: set<Address>, soFar: Totals)
    requires k < |pairs|
    ensures Continue(Scan(pairs[k..], user, skip), soFar) ==
            var first := PairTotals(pairs[k], user, skip);
            if first.Err? then first else Continue(Scan(pairs[k + 1..], user, skip), soFar.Plus(first.value).Clamp())
  {
    hide PairTotals;
    assert pairs[k..][1..] == pairs[k + 1..];
  }

  lemma WalkStart(accounts: seq<AccountInfo>, user: Pubkey, skip: set<Address>, start: Totals)
    requires |accounts| % 2 == 0
    ensures Assess(accounts, user, skip, start) == Continue(Scan(Paired(accounts)[0..], user, skip), start)
  {
    assert Paired(accounts)[0..] == Paired(accounts);
  }

  lemma WalkDone(pairs: seq<Pair>, user: Pubkey, skip: set<Address>, totals: Totals)
    requires totals == totals.Clamp()
    ensures Continue(Scan(pairs[|pairs|..], user, skip), totals) == Ok(totals)
  {
  }

  method AccumulateRemainingSkip(accounts: seq<AccountInfo>, user: Pubkey, skipKeys: seq<Address>, collat: u128,
                                 debt: u128)
    returns (r: Result<Totals>)
    ensures r == Assess(accounts, user, (set key | key in skipKeys), Totals(collat, debt))
    ensures Verdict(accounts, user, (set key | key in skipKeys), Totals(collat, debt), r)
  {
    hide PositionTotals, Scan, Continue, Verdict;
    AssessDecides(accounts, user, (set key | key in skipKeys), Totals(collat, debt));
    if |accounts| % 2 != 0 {
      return Err(BadRemainingAccounts);
    }
    ghost var skip, pairs := (set key | key in skipKeys), Paired(accounts);
    WalkStart(accounts, user, skip, Totals(collat, debt));
    var totalCollat, totalDebt := collat, debt;
    var i := 0;
    while i < |accounts|
      invariant 0 <= i <= |accounts| && i % 2 == 0
      invariant Assess(accounts, user, skip, Totals(collat, debt))
          == Continue(Scan(pairs[i / 2..], user, skip), Totals(totalCollat, totalDebt))
    {
      var account, oracle := accounts[i], accounts[i + 1];
      WalkOne(pairs, i / 2, user, skip, Totals(totalCollat, totalDebt));
      i := i + 2;
      if account.key in skipKeys {
        continue;
      }
      if !account.owner.LendingProgram? || !account.data.PositionData? {
        return Err(BadPositionAccount);
      }
      var position := account.data.position;
      if position.user != user {
        return Err(BadPositionAccount);
      }
      if position.supplied == 0 && position.borrowed == 0 {
        continue;
      }
      if !oracle.owner.OracleProgram? || !oracle.data.PriceData? {
        return Err(BadPriceFeed);
      }
      var price := Quote(oracle.data.update, position.feedId);
      if price.Err? {
        return Err(StalePrice);
      }
      totalCollat, totalDebt := AccumulatePosition(position.supplied, position.borrowed, price.value, position.decimals,
                                                   position.maxLtvBps, totalCollat, totalDebt);
    }
    WalkDone(pairs, user, skip, Totals(totalCollat, totalDebt));
    return Ok(Totals(totalCollat, totalDebt));
  }

  method AccumulateRemaining(accounts: seq<AccountInfo>, user: Pubkey, skip: Address, collat: u128, debt: u128)
    returns (r: Result<Totals>)
    ensures r == Assess(accounts, user, {skip}, Totals(collat, debt))
    ensures Verdict(accounts, user, {skip}, Totals(collat, debt), r)
  {
    hide PositionTotals, Scan, Continue, Verdict;
    AssessDecides(accounts, user, {skip}, Totals(collat, debt));
    if |accounts| % 2 != 0 {
      return Err(BadRemainingAccounts);
    }
    ghost var pairs := Paired(accounts);
    WalkStart(accounts, user, {skip}, Totals(collat, debt));
    var totalCollat, totalDebt := collat, debt;
    var i := 0;
    while i < |accounts|
      invariant 0 <= i <= |accounts| && i % 2 == 0
      invariant Assess(accounts, user, {skip}, Totals(collat, debt))
          == Continue(Scan(pairs[i / 2..], user, {skip}), Totals(totalCollat, totalDebt))
    {
      var account, oracle := accounts[i], accounts[i + 1];
      WalkOne(pairs, i / 2, user, {skip}, Totals(totalCollat, totalDebt));
      i := i + 2;
      if account.key == skip {
        continue;
      }
      if !account.owner.LendingProgram? || !account.data.PositionData? {
        return Err(BadPositionAccount);
      }
      var position := account.data.position;
      if position.user != user {
        return Err(BadPositionAccount);
      }
      if position.supplied == 0 && position.borrowed == 0 {
        continue;
      }
      if !oracle.owner.OracleProgram? || !oracle.data.PriceData? {
        return Err(BadPriceFeed);
      }
      var price := Quote(oracle.data.update, position.feedId);
      if price.Err? {
        return Err(StalePrice);
      }
      totalCollat, totalDebt := AccumulatePosition(position.supplied, position.borrowed, price.value, position.decimals,
                                                   position.maxLtvBps, totalCollat, totalDebt);
    }
    WalkDone(pairs, user, {skip}, Totals(totalCollat, totalDebt));
    return Ok(Totals(totalCollat, totalDebt));
  }

  // ---------- the instructions ----------

  lemma Overwrite<K, V>(m: map<K, V>, k: K, v: V, w: V)
    ensures m[k := v][k := w] == m[k := w]
  {
  }

  /** The method did what the specification says: the new ledger, or the error and no change. */
  ghost predicate Settles(before: Ledger, specified: Result<Ledger>, after: Ledger, r: Outcome) {
    match specified
    case Ok(l) => r.Ok? && after == l
    case Err(e) => r == Err(e) && after == before
  }

  class LendingProgram {
    var books: Ledger

    constructor ()
      ensures books == map[]
    {
      books := map[];
    }

    method InitializeMarket(admin: Pubkey, mint: Pubkey, slot: u64, amountPerClaim: u64, maxLtvBps: u16,
                            feedId: FeedId, rate: u64)
      returns (r: Outcome)
      modifies this
      ensures var specified :=
                Spec.InitializeMarket(old(books), admin, mint, slot, amountPerClaim, maxLtvBps, feedId, rate);
              Settles(old(books), specified, books, r)
    {
      if mint in books {
        return Err(AccountInUse);
      }
      if !(maxLtvBps > 0 && maxLtvBps < BPS_DENOMINATOR) {
        return Err(BadLtv);
      }
      var market := Market(admin, amountPerClaim, maxLtvBps, feedId, rate, RATE_SCALE_E18, slot, 0, 0, 0);
      books := books[mint := Book(market, 0, 0, map[], map[], map[])];
      return Ok(());
    }

    method SetClaimAmount(admin: Pubkey, mint: Pubkey, amount: u64) returns (r: Outcome)
      modifies this
      ensures Settles(old(books), Spec.SetClaimAmount(old(books), admin, mint, amount), books, r)
    {
      if mint !in books {
        return Err(AccountNotInitialized);
      }
      var b := books[mint];
      var market := new MarketAccount(b.market);
      if market.admin != admin {
        return Err(NotAdmin);
      }
      market.amountPerClaim := amount;
      books := books[mint := b.(market := market.Value())];
      return Ok(());
    }

    method ClaimFaucet(user: Pubkey, mint: Pubkey) returns (r: Outcome)
      modifies this
      ensures Settles(old(books), Spec.ClaimFaucet(old(books), user, mint), books, r)
    {
      if mint !in books {
        return Err(AccountNotInitialized);
      }
      var b := books[mint];
      if user in b.receipts {
        return Err(AccountInUse);
      }
      var market := new MarketAccount(b.market);
      var wallet := new TokenAccount(Spec.Balance(b, user));
      var amount := market.amountPerClaim;
      if U64_MAX < b.mintSupply + amount || U64_MAX < wallet.amount + amount {
        return Err(TokenOverflow);
      }
      wallet.amount := wallet.amount + amount;
      if U64_MAX < market.claimCount + 1 {
        return Err(Overflow);
      }
      market.claimCount := market.claimCount + 1;
      books := books[mint := b.(market := market.Value(), mintSupply := b.mintSupply + amount,
                                wallets := b.wallets[user := wallet.amount], receipts := b.receipts[user := amount])];
      return Ok(());
    }

    method Supply(user: Pubkey, mint: Pubkey, slot: u64, amount: u64) returns (r: Outcome)
      modifies this
      ensures Settles(old(books), Spec.Supply(old(books), user, mint, slot, amount), books, r)
    {
      hide AccrueMarket, AccruePosition, Spec.Deposit, Spec.PayDown;
      if mint !in books {
        return Err(AccountNotInitialized);
      }
      var b := books[mint];
      if amount == 0 {
        return Err(ZeroAmount);
      }
      var market := new MarketAccount(b.market);
      market.Accrue(slot);
      var position: PositionAccount;
      if user !in b.positions {
        position := new PositionAccount(Position(user, 0, 0, market.feedId, market.maxLtvBps, MINT_DECIMALS,
            market.borrowIndexE18));
      } else {
        position := new PositionAccount(b.positions[user]);
        position.Accrue(market);
      }
      var paid := DepositTokens(b, Spec.Open(b, user, slot), market, position, user, amount);
      if paid.Err? {
        return Err(paid.error);
      }
      books := books[mint := paid.value];
      return Ok(());
    }

    /** A user's totals: the main position as it would become, and the others listed. */
    method WeighUser(user: Pubkey, mint: Pubkey, p: Position, oracle: PriceUpdate, feedId: FeedId,
                     others: seq<AccountRef>)
      returns (totals: Result<Totals>)
      ensures totals == Spec.OneMain(books, user, mint, p, oracle, feedId, others)
      ensures totals.Ok? ==> totals.value.Clamp() == totals.value
    {
      hide Assess, PositionTotals, LoadAll;
      var price := Quote(oracle, feedId);
      if price.Err? {
        return Err(StalePrice);
      }
      var collat, debt := AccumulatePosition(p.supplied, p.borrowed, price.value, p.decimals, p.maxLtvBps, 0, 0);
      StartIsMain(p.supplied, p.borrowed, price.value, p.decimals, p.maxLtvBps);
      assert Addresses(user, {mint}) == {PositionAddress(user, mint)};
      totals := AccumulateRemaining(LoadAll(books, others), user, PositionAddress(user, mint), collat, debt);
    }

    method Withdraw(user: Pubkey, mint: Pubkey, slot: u64, amount: u64, oracle: PriceUpdate, others: seq<AccountRef>)
      returns (r: Outcome)
      modifies this
      ensures Settles(old(books), Spec.Withdraw(old(books), user, mint, slot, amount, oracle, others), books, r)
    {
      hide Spec.OneMain, Spec.Release, Spec.Lend, AccrueMarket, AccruePosition;
      if mint !in books || user !in books[mint].positions {
        return Err(AccountNotInitialized);
      }
      var b := books[mint];
      if amount == 0 {
        return Err(ZeroAmount);
      }
      var market := new MarketAccount(b.market);
      market.Accrue(slot);
      var position := new PositionAccount(b.positions[user]);
      position.Accrue(market);
      if position.supplied < amount {
        return Err(InsufficientCollateral);
      }
      var newSupplied := position.supplied - amount;
      var totals := WeighUser(user, mint, position.Value().(supplied := newSupplied), oracle, market.feedId, others);
      if totals.Err? {
        return Err(totals.error);
      }
      if !(totals.value.debt <= totals.value.collatAtLtv) {
        return Err(WouldBeUnhealthy);
      }
      var total := market.totalSupplied;
      var released := SeizeCollateral(b, Spec.Touch(b, user, slot), market, position, user, user, amount);
      if released.Err? {
        return Err(released.error);
      }
      if total < amount {
        return Err(Overflow);
      }
      books := books[mint := released.value];
      return Ok(());
    }

    method Borrow(user: Pubkey, mint: Pubkey, slot: u64, amount: u64, oracle: PriceUpdate, others: seq<AccountRef>)
      returns (r: Outcome)
      modifies this
      ensures Settles(old(books), Spec.Borrow(old(books), user, mint, slot, amount, oracle, others), books, r)
    {
      hide Spec.OneMain, Spec.Release, Spec.Lend, AccrueMarket, AccruePosition;
      if mint !in books || user !in books[mint].positions {
        return Err(AccountNotInitialized);
      }
      var b := books[mint];
      if amount == 0 {
        return Err(ZeroAmount);
      }
      var market := new MarketAccount(b.market);
      market.Accrue(slot);
      var position := new PositionAccount(b.positions[user]);
      position.Accrue(market);
      if position.supplied != 0 {
        return Err(SameMintBorrow);
      }
      if U64_MAX < position.borrowed + amount {
        return Err(Overflow);
      }
      var newBorrowed := position.borrowed + amount;
      if b.vault < amount {
        return Err(InsufficientLiquidity);
      }
      var totals := WeighUser(user, mint, position.Value().(borrowed := newBorrowed), oracle, market.feedId, others);
      if totals.Err? {
        return Err(totals.error);
      }
      if !(totals.value.debt <= totals.value.collatAtLtv) {
        return Err(ExceedsLtv);
      }
      var lent := LendTokens(b, Spec.Touch(b, user, slot), market, position, user, amount);
      if lent.Err? {
        return Err(lent.error);
      }
      books := books[mint := lent.value];
      return Ok(());
    }

    method Repay(user: Pubkey, mint: Pubkey, slot: u64, amount: u64) returns (r: Outcome)
      modifies this
      ensures Settles(old(books), Spec.Repay(old(books), user, mint, slot, amount), books, r)
    {
      hide AccrueMarket, AccruePosition, Spec.Deposit, Spec.PayDown;
      if mint !in books {
        return Err(AccountNotInitialized);
      }
      var b := books[mint];
      if amount == 0 {
        return Err(ZeroAmount);
      }
      if user !in b.positions {
        return Err(NothingToRepay);
      }
      var market := new MarketAccount(b.market);
      market.Accrue(slot);
      var position := new PositionAccount(b.positions[user]);
      position.Accrue(market);
      var pay: u64 := Min(amount, position.borrowed);
      if pay == 0 {
        return Err(NothingToRepay);
      }
      var paid := PayDebt(b, Spec.Touch(b, user, slot), market, position, user, user, pay);
      if paid.Err? {
        return Err(paid.error);
      }
      books := books[mint := paid.value];
      return Ok(());
    }

    method Liquidate(q: Spec.Liquidation) returns (r: Outcome)
      requires q.debtMint != q.collateralMint
      modifies this
      ensures Settles(old(books), Spec.Liquidate(old(books), q), books, r)
    {
      hide Spec.TwoMain, Spec.Release, Spec.PayDown, AccrueMarket, AccruePosition, TokenUsd, UsdToToken, Spec.WithBonus;
      if !Spec.Present(books, q)
         || q.liquidator !in books[q.debtMint].wallets || q.liquidator !in books[q.collateralMint].wallets {
        return Err(AccountNotInitialized);
      }
      var db, cb := books[q.debtMint], books[q.collateralMint];
      if q.repayAmount == 0 {
        return Err(ZeroAmount);
      }
      var debtMarket := new MarketAccount(db.market);
      debtMarket.Accrue(q.slot);
      var collateralMarket := new MarketAccount(cb.market);
      collateralMarket.Accrue(q.slot);
      var debtPosition := new PositionAccount(db.positions[q.borrower]);
      debtPosition.Accrue(debtMarket);
      var collateralPosition := new PositionAccount(cb.positions[q.borrower]);
      collateralPosition.Accrue(collateralMarket);
      ghost var d, c := Spec.DebtBook(books, q), Spec.CollateralBook(books, q);
      assert debtPosition.Value() == d.positions[q.borrower] && debtMarket.Value() == d.market;
      assert collateralPosition.Value() == c.positions[q.borrower] && collateralMarket.Value() == c.market;
      if q.liquidator == q.borrower {
        return Err(SelfLiquidation);
      }
      if debtPosition.user != q.borrower || collateralPosition.user != q.borrower {
        return Err(BadPositionAccount);
      }
      if debtPosition.borrowed == 0 || collateralPosition.supplied == 0 {
        return Err(NothingToLiquidate);
      }
      assert Spec.LiquidationRefusal(books, q).None?;
      var totals := WeighBorrower(q, debtMarket, debtPosition, collateralMarket, collateralPosition);
      if totals.Err? {
        return Err(totals.error);
      }
      if !(totals.value.debt > totals.value.collatAtLtv) {
        return Err(PositionHealthy);
      }
      var actualRepay: u64 := Min(q.repayAmount, debtPosition.borrowed);
      var repayValue := TokenUsd(actualRepay, q.debtOracle.price, debtPosition.decimals);
      var seizeAmount := UsdToToken(Spec.WithBonus(repayValue), q.collateralOracle.price, collateralPosition.decimals);
      if seizeAmount > collateralPosition.supplied {
        seizeAmount := collateralPosition.supplied;
      }
      assert actualRepay == Spec.Repaid(books, q) && seizeAmount == Spec.Seized(books, q);
      if seizeAmount == 0 {
        return Err(NothingToLiquidate);
      }
      if cb.vault < seizeAmount {
        return Err(InsufficientLiquidity);
      }
      r := SettleLiquidation(q, debtMarket, debtPosition, collateralMarket, collateralPosition, actualRepay,
          seizeAmount);
    }

    /** The borrower's totals over both main positions and the others listed. */
    method WeighBorrower(q: Spec.Liquidation, debtMarket: MarketAccount, debtPosition: PositionAccount,
                         collateralMarket: MarketAccount, collateralPosition: PositionAccount)
      returns (totals: Result<Totals>)
      requires Spec.Present(books, q)
      requires debtPosition.Value() == Spec.DebtBook(books, q).positions[q.borrower]
               && debtMarket.Value() == Spec.DebtBook(books, q).market
      requires collateralPosition.Value() == Spec.CollateralBook(books, q).positions[q.borrower]
            && collateralMarket.Value() == Spec.CollateralBook(books, q).market
      ensures totals == Spec.TwoMain(books, q)
      ensures totals.Ok? ==> totals.value.Clamp() == totals.value
    {
      hide Assess, PositionTotals, LoadAll, AccruePosition, SatMul, SatAdd;
      var debtPrice := Quote(q.debtOracle, debtMarket.feedId);
      if debtPrice.Err? {
        return Err(StalePrice);
      }
      var collateralPrice := Quote(q.collateralOracle, collateralMarket.feedId);
      if collateralPrice.Err? {
        return Err(StalePrice);
      }
      var collat, debt := AccumulatePosition(debtPosition.supplied, debtPosition.borrowed, debtPrice.value,
                                             debtPosition.decimals, debtPosition.maxLtvBps, 0, 0);
      StartIsMain(debtPosition.supplied, debtPosition.borrowed, debtPrice.value, debtPosition.decimals,
          debtPosition.maxLtvBps);
      collat, debt := AccumulatePosition(collateralPosition.supplied, collateralPosition.borrowed,
          collateralPrice.value,
                                         collateralPosition.decimals, collateralPosition.maxLtvBps, collat, debt);
      var skipKeys := [PositionAddress(q.borrower, q.debtMint), PositionAddress(q.borrower, q.collateralMint)];
      assert (set key | key in skipKeys) == Addresses(q.borrower, {q.debtMint, q.collateralMint});
      totals := AccumulateRemainingSkip(LoadAll(books, q.others), q.borrower, skipKeys, collat, debt);
    }

    /** Moves the tokens, then updates both positions and both market totals. */
    method SettleLiquidation(q: Spec.Liquidation, debtMarket: MarketAccount, debtPosition: PositionAccount,
                             collateralMarket: MarketAccount, collateralPosition: PositionAccount,
                             repaid: u64, seized: u64)
      returns (r: Outcome)
      requires Spec.Present(books, q) && q.debtMint != q.collateralMint
      requires debtMarket != collateralMarket && debtPosition != collateralPosition
      requires debtPosition.Value() == Spec.DebtBook(books, q).positions[q.borrower]
               && debtMarket.Value() == Spec.DebtBook(books, q).market
      requires collateralPosition.Value() == Spec.CollateralBook(books, q).positions[q.borrower]
            && collateralMarket.Value() == Spec.CollateralBook(books, q).market
      modifies this, debtMarket, debtPosition, collateralMarket, collateralPosition
      ensures var paid := Spec.PayDown(Spec.DebtBook(old(books), q), q.liquidator, q.borrower, repaid);
              var released := Spec.Release(Spec.CollateralBook(old(books), q), q.borrower, q.liquidator, seized);
              && (paid.Err? ==> r == Err(paid.error) && books == old(books))
              && (paid.Ok? && released.Err? ==> r == Err(released.error) && books == old(books))
              && (paid.Ok? && released.Ok? ==>
                  r.Ok? && books == old(books)[q.debtMint := paid.value][q.collateralMint := released.value])
    {
      var db, cb := books[q.debtMint], books[q.collateralMint];
      var paid := PayDebt(db, Spec.DebtBook(books, q), debtMarket, debtPosition, q.liquidator, q.borrower, repaid);
      if paid.Err? {
        return Err(paid.error);
      }
      var released := SeizeCollateral(cb, Spec.CollateralBook(books, q), collateralMarket, collateralPosition,
          q.liquidator, q.borrower, seized);
      if released.Err? {
        return Err(released.error);
      }
      books := books[q.debtMint := paid.value][q.collateralMint := released.value];
      return Ok(());
    }
  }

  /** The book differs from the stored one only by the accruals of one position. */
  ghost predicate AccruedFrom(b: Book, touched: Book, owner: Pubkey) {
    owner in touched.positions &&
    touched == b.(market := touched.market, positions := b.positions[owner := touched.positions[owner]])
  }

  method DepositTokens(b: Book, ghost begun: Book, market: MarketAccount, position: PositionAccount, user: Pubkey,
                       amount: u64)
    returns (r: Result<Book>)
    requires AccruedFrom(b, begun, user) && position.Value() == begun.positions[user] && market.Value() == begun.market
    modifies market, position
    ensures r == Spec.Deposit(begun, user, amount)
  {
    var wallet := new TokenAccount(Spec.Balance(b, user));
    var vault := new TokenAccount(b.vault);
    var paid := TokenTransfer(wallet, vault, amount);
    if paid.Err? {
      return Err(paid.error);
    }
    if U64_MAX < position.supplied + amount {
      return Err(Overflow);
    }
    position.supplied := position.supplied + amount;
    if U64_MAX < market.totalSupplied + amount {
      return Err(Overflow);
    }
    market.totalSupplied := market.totalSupplied + amount;
    Overwrite(b.positions, user, begun.positions[user], position.Value());
    return Ok(b.(market := market.Value(), vault := vault.amount, positions := b.positions[user := position.Value()],
                 wallets := b.wallets[user := wallet.amount]));
  }

  method LendTokens(b: Book, ghost touched: Book, market: MarketAccount, position: PositionAccount, user: Pubkey,
                    amount: u64)
    returns (r: Result<Book>)
    requires AccruedFrom(b, touched, user) && position.Value() == touched.positions[user]
             && market.Value() == touched.market
    requires position.borrowed + amount <= U64_MAX
    modifies market, position
    ensures r == Spec.Lend(touched, user, amount)
  {
    var wallet := new TokenAccount(Spec.Balance(b, user));
    var vault := new TokenAccount(b.vault);
    var paid := TokenTransfer(vault, wallet, amount);
    if paid.Err? {
      return Err(paid.error);
    }
    position.borrowed := position.borrowed + amount;
    if U64_MAX < market.totalBorrowed + amount {
      return Err(Overflow);
    }
    market.totalBorrowed := market.totalBorrowed + amount;
    Overwrite(b.positions, user, touched.positions[user], position.Value());
    return Ok(b.(market := market.Value(), vault := vault.amount, positions := b.positions[user := position.Value()],
                 wallets := b.wallets[user := wallet.amount]));
  }

  method PayDebt(b: Book, ghost touched: Book, market: MarketAccount, position: PositionAccount, payer: Pubkey,
                 owner: Pubkey, amount: u64)
    returns (r: Result<Book>)
    requires AccruedFrom(b, touched, owner) && position.Value() == touched.positions[owner]
             && market.Value() == touched.market
    modifies market, position
    ensures r == Spec.PayDown(touched, payer, owner, amount)
  {
    var wallet := new TokenAccount(Spec.Balance(b, payer));
    var vault := new TokenAccount(b.vault);
    var paid := TokenTransfer(wallet, vault, amount);
    if paid.Err? {
      return Err(paid.error);
    }
    position.borrowed := SatSub(position.borrowed, amount);
    market.totalBorrowed := SatSub(market.totalBorrowed, amount);
    Overwrite(b.positions, owner, touched.positions[owner], position.Value());
    return Ok(b.(market := market.Value(), vault := vault.amount, positions := b.positions[owner := position.Value()],
                 wallets := b.wallets[payer := wallet.amount]));
  }

  method SeizeCollateral(b: Book, ghost touched: Book, market: MarketAccount, position: PositionAccount, payee: Pubkey,
                         owner: Pubkey, amount: u64)
    returns (r: Result<Book>)
    requires AccruedFrom(b, touched, owner) && position.Value() == touched.positions[owner]
             && market.Value() == touched.market
    modifies market, position
    ensures r == Spec.Release(touched, owner, payee, amount)
  {
    var wallet := new TokenAccount(Spec.Balance(b, payee));
    var vault := new TokenAccount(b.vault);
    var paid := TokenTransfer(vault, wallet, amount);
    if paid.Err? {
      return Err(paid.error);
    }
    position.supplied := SatSub(position.supplied, amount);
    market.totalSupplied := SatSub(market.totalSupplied, amount);
    Overwrite(b.positions, owner, touched.positions[owner], position.Value());
    return Ok(b.(market := market.Value(), vault := vault.amount, positions := b.positions[owner := position.Value()],
                 wallets := b.wallets[payee := wallet.amount]));
  }
}
