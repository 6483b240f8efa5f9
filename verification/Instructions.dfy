/** Every instruction as a function from ledger to ledger, or to the error that reverts it. */
module Instructions {
  import opened Arith
  import opened State
  import opened Interest
  import opened Valuation
  import opened Health

  // ---------- token program ----------

  function Balance(b: Book, wallet: Pubkey): u64 {
    if wallet in b.wallets then b.wallets[wallet] else 0
  }

  function ToVault(b: Book, payer: Pubkey, amount: u64): Result<Book> {
    if Balance(b, payer) < amount then Err(InsufficientFunds)
    else if U64_MAX < b.vault + amount then Err(TokenOverflow)
    else Ok(b.(wallets := b.wallets[payer := Balance(b, payer) - amount], vault := b.vault + amount))
  }

  function FromVault(b: Book, payee: Pubkey, amount: u64): Result<Book> {
    if b.vault < amount then Err(InsufficientFunds)
    else if U64_MAX < Balance(b, payee) + amount then Err(TokenOverflow)
    else Ok(b.(wallets := b.wallets[payee := Balance(b, payee) + amount], vault := b.vault - amount))
  }

  function BetweenWallets(b: Book, payer: Pubkey, payee: Pubkey, amount: u64): Result<Book> {
    if Balance(b, payer) < amount then Err(InsufficientFunds)
    else
      var debited := b.(wallets := b.wallets[payer := Balance(b, payer) - amount]);
      if U64_MAX < Balance(debited, payee) + amount then Err(TokenOverflow)
      else Ok(debited.(wallets := debited.wallets[payee := Balance(debited, payee) + amount]))
  }

  // ---------- one book at a time ----------

  /** Accrues the market and restates the owner's position. */
  function Touch(b: Book, owner: Pubkey, slot: u64): (r: Book)
    requires owner in b.positions
    ensures owner in r.positions
  {
    var market := AccrueMarket(b.market, slot);
    b.(market := market, positions := b.positions[owner := AccruePosition(b.positions[owner], market)])
  }

  /** Touches the position, or creates it with the market's parameters copied in. */
  function Open(b: Book, user: Pubkey, slot: u64): (r: Book)
    ensures user in r.positions
  {
    if user in b.positions then Touch(b, user, slot)
    else
      var market := AccrueMarket(b.market, slot);
      var position := Position(user, 0, 0, market.feedId, market.maxLtvBps, MINT_DECIMALS, market.borrowIndexE18);
      b.(market := market, positions := b.positions[user := position])
  }

  function SetSupplied(b: Book, owner: Pubkey, supplied: u64, totalSupplied: u64): Book
    requires owner in b.positions
  {
    b.(positions := b.positions[owner := b.positions[owner].(supplied := supplied)],
       market := b.market.(totalSupplied := totalSupplied))
  }

  function SetBorrowed(b: Book, owner: Pubkey, borrowed: u64, totalBorrowed: u64): Book
    requires owner in b.positions
  {
    b.(positions := b.positions[owner := b.positions[owner].(borrowed := borrowed)],
       market := b.market.(totalBorrowed := totalBorrowed))
  }

  function Deposit(b: Book, user: Pubkey, amount: u64): Result<Book>
    requires user in b.positions
  {
    var paid :- ToVault(b, user, amount);
    var supplied, total := b.positions[user].supplied + amount, b.market.totalSupplied + amount;
    if U64_MAX < supplied || U64_MAX < total then Err(Overflow)
    else Ok(SetSupplied(paid, user, supplied, total))
  }

  /** Withdrawal and seizure: tokens leave the vault, the owner's collateral shrinks. */
  function Release(b: Book, owner: Pubkey, payee: Pubkey, amount: u64): Result<Book>
    requires owner in b.positions
  {
    var paid :- FromVault(b, payee, amount);
    Ok(SetSupplied(paid, owner, SatSub(b.positions[owner].supplied, amount), SatSub(b.market.totalSupplied, amount)))
  }

  function Lend(b: Book, user: Pubkey, amount: u64): Result<Book>
    requires user in b.positions && b.positions[user].borrowed + amount <= U64_MAX
  {
    var paid :- FromVault(b, user, amount);
    var total := b.market.totalBorrowed + amount;
    if U64_MAX < total then Err(Overflow)
    else Ok(SetBorrowed(paid, user, b.positions[user].borrowed + amount, total))
  }

  /** Repayment by the owner or by a liquidator: the owner's debt shrinks. */
  function PayDown(b: Book, payer: Pubkey, owner: Pubkey, amount: u64): Result<Book>
    requires owner in b.positions
  {
    var paid :- ToVault(b, payer, amount);
    Ok(SetBorrowed(paid, owner, SatSub(b.positions[owner].borrowed, amount), SatSub(b.market.totalBorrowed, amount)))
  }

  function Mint(b: Book, user: Pubkey, amount: u64): Result<Book> {
    if U64_MAX < b.mintSupply + amount then Err(TokenOverflow)
    else if U64_MAX < Balance(b, user) + amount then Err(TokenOverflow)
    else if U64_MAX < b.market.claimCount + 1 then Err(Overflow)
    else Ok(b.(mintSupply := b.mintSupply + amount,
               wallets := b.wallets[user := Balance(b, user) + amount],
               receipts := b.receipts[user := amount],
               market := b.market.(claimCount := b.market.claimCount + 1)))
  }

  // ---------- administration and the faucet ----------

  function InitializeMarket(l: Ledger, admin: Pubkey, mint: Pubkey, slot: u64, amountPerClaim: u64,
                            maxLtvBps: u16, feedId: FeedId, borrowRatePerSlotE18: u64): Result<Ledger> {
    if mint in l then Err(AccountInUse)
    else if maxLtvBps == 0 || BPS_DENOMINATOR <= maxLtvBps then Err(BadLtv)
    else
      var market := Market(admin, amountPerClaim, maxLtvBps, feedId, borrowRatePerSlotE18, RATE_SCALE_E18, slot,
                           0, 0, 0);
      Ok(l[mint := Book(market, 0, 0, map[], map[], map[])])
  }

  function SetClaimAmount(l: Ledger, admin: Pubkey, mint: Pubkey, amount: u64): Result<Ledger> {
    if mint !in l then Err(AccountNotInitialized)
    else if l[mint].market.admin != admin then Err(NotAdmin)
    else Ok(l[mint := l[mint].(market := l[mint].market.(amountPerClaim := amount))])
  }

  function ClaimFaucet(l: Ledger, user: Pubkey, mint: Pubkey): Result<Ledger> {
    if mint !in l then Err(AccountNotInitialized)
    else if user in l[mint].receipts then Err(AccountInUse)
    else
      var b :- Mint(l[mint], user, l[mint].market.amountPerClaim);
      Ok(l[mint := b])
  }

  // ---------- supply, withdraw, borrow, repay ----------

  function Supply(l: Ledger, user: Pubkey, mint: Pubkey, slot: u64, amount: u64): Result<Ledger> {
    if mint !in l then Err(AccountNotInitialized)
    else if amount == 0 then Err(ZeroAmount)
    else
      var b :- Deposit(Open(l[mint], user, slot), user, amount);
      Ok(l[mint := b])
  }

  /** The totals the guards of `withdraw` and `borrow` compare: the main position as it would
      become, plus the listed others. */
  function OneMain(l: Ledger, user: Pubkey, mint: Pubkey, p: Position, oracle: PriceUpdate, feedId: FeedId,
                   others: seq<AccountRef>): Result<Totals> {
    var price :- Quote(oracle, feedId);
    Assess(LoadAll(l, others), user, Addresses(user, {mint}),
           PositionTotals(p.supplied, p.borrowed, price, p.decimals, p.maxLtvBps))
  }

  function Withdraw(l: Ledger, user: Pubkey, mint: Pubkey, slot: u64, amount: u64, oracle: PriceUpdate,
                    others: seq<AccountRef>): Result<Ledger> {
    if mint !in l || user !in l[mint].positions then Err(AccountNotInitialized)
    else if amount == 0 then Err(ZeroAmount)
    else
      var b := Touch(l[mint], user, slot);
      var p := b.positions[user];
      if p.supplied < amount then Err(InsufficientCollateral)
      else
        var totals :- OneMain(l, user, mint, p.(supplied := p.supplied - amount), oracle, b.market.feedId, others);
        if !totals.WithinLimit() then Err(WouldBeUnhealthy)
        else
          var released :- Release(b, user, user, amount);
          if b.market.totalSupplied < amount then Err(Overflow)
          else Ok(l[mint := released])
  }

  function Borrow(l: Ledger, user: Pubkey, mint: Pubkey, slot: u64, amount: u64, oracle: PriceUpdate,
                  others: seq<AccountRef>): Result<Ledger> {
    if mint !in l || user !in l[mint].positions then Err(AccountNotInitialized)
    else if amount == 0 then Err(ZeroAmount)
    else
      var b := Touch(l[mint], user, slot);
      var p := b.positions[user];
      if p.supplied != 0 then Err(SameMintBorrow)
      else if U64_MAX < p.borrowed + amount then Err(Overflow)
      else if b.vault < amount then Err(InsufficientLiquidity)
      else
        var totals :- OneMain(l, user, mint, p.(borrowed := p.borrowed + amount), oracle, b.market.feedId, others);
        if !totals.WithinLimit() then Err(ExceedsLtv)
        else
          var lent :- Lend(b, user, amount);
          Ok(l[mint := lent])
  }

  function Repay(l: Ledger, user: Pubkey, mint: Pubkey, slot: u64, amount: u64): Result<Ledger> {
    if mint !in l then Err(AccountNotInitialized)
    else if amount == 0 then Err(ZeroAmount)
    else if user !in l[mint].positions then Err(NothingToRepay)
    else
      var b := Touch(l[mint], user, slot);
      var pay := Min(amount, b.positions[user].borrowed);
      if pay == 0 then Err(NothingToRepay)
      else
        var paid :- PayDown(b, user, user, pay);
        Ok(l[mint := paid])
  }

  // ---------- liquidate ----------

  datatype Liquidation = Liquidation(
    liquidator: Pubkey, borrower: Pubkey, debtMint: Pubkey, collateralMint: Pubkey, slot: u64, repayAmount: u64,
    debtOracle: PriceUpdate, collateralOracle: PriceUpdate, others: seq<AccountRef>)

  /** Both markets and the borrower's position in each exist. */
  predicate Present(l: Ledger, q: Liquidation) {
    && q.debtMint in l && q.borrower in l[q.debtMint].positions
    && q.collateralMint in l && q.borrower in l[q.collateralMint].positions
  }

  function DebtBook(l: Ledger, q: Liquidation): (b: Book)
    requires Present(l, q)
    ensures q.borrower in b.positions
  {
    Touch(l[q.debtMint], q.borrower, q.slot)
  }

  function CollateralBook(l: Ledger, q: Liquidation): (b: Book)
    requires Present(l, q)
    ensures q.borrower in b.positions
  {
    Touch(l[q.collateralMint], q.borrower, q.slot)
  }

  /** The borrower's totals with two main positions. */
  function TwoMain(l: Ledger, q: Liquidation): Result<Totals>
    requires Present(l, q)
  {
    var dp, cp := DebtBook(l, q).positions[q.borrower], CollateralBook(l, q).positions[q.borrower];
    var debtPrice :- Quote(q.debtOracle, l[q.debtMint].market.feedId);
    var collateralPrice :- Quote(q.collateralOracle, l[q.collateralMint].market.feedId);
    var start := PositionTotals(dp.supplied, dp.borrowed, debtPrice, dp.decimals, dp.maxLtvBps)
                 .Plus(PositionTotals(cp.supplied, cp.borrowed, collateralPrice, cp.decimals, cp.maxLtvBps)).Clamp();
    Assess(LoadAll(l, q.others), q.borrower, Addresses(q.borrower, {q.debtMint, q.collateralMint}), start)
  }

  function Repaid(l: Ledger, q: Liquidation): u64
    requires Present(l, q)
  {
    Min(q.repayAmount, DebtBook(l, q).positions[q.borrower].borrowed)
  }

  function WithBonus(value: u128): u128 {
    DivBounds(SatMul(value, BPS_DENOMINATOR + LIQUIDATION_BONUS_BPS), BPS_DENOMINATOR);
    SatMul(value, BPS_DENOMINATOR + LIQUIDATION_BONUS_BPS) / BPS_DENOMINATOR
  }

  function Seized(l: Ledger, q: Liquidation): u64
    requires Present(l, q)
  {
    var dp, cp := DebtBook(l, q).positions[q.borrower], CollateralBook(l, q).positions[q.borrower];
    var value := WithBonus(TokenUsd(Repaid(l, q), q.debtOracle.price, dp.decimals));
    Min(UsdToToken(value, q.collateralOracle.price, cp.decimals), cp.supplied)
  }

  /** The checks of `liquidate` before any health is measured. */
  function LiquidationRefusal(l: Ledger, q: Liquidation): Option<Error> {
    if !Present(l, q) then Some(AccountNotInitialized)
    else if q.liquidator !in l[q.debtMint].wallets then Some(AccountNotInitialized)
    else if q.liquidator !in l[q.collateralMint].wallets then Some(AccountNotInitialized)
    else if q.repayAmount == 0 then Some(ZeroAmount)
    else
      var dp, cp := DebtBook(l, q).positions[q.borrower], CollateralBook(l, q).positions[q.borrower];
      if q.liquidator == q.borrower then Some(SelfLiquidation)
      else if dp.user != q.borrower || cp.user != q.borrower then Some(BadPositionAccount)
      else if dp.borrowed == 0 || cp.supplied == 0 then Some(NothingToLiquidate)
      else None
  }

  function Liquidate(l: Ledger, q: Liquidation): Result<Ledger>
    requires q.debtMint != q.collateralMint
  {
    if LiquidationRefusal(l, q).Some? then Err(LiquidationRefusal(l, q).value)
    else
      var totals :- TwoMain(l, q);
      if totals.WithinLimit() then Err(PositionHealthy)
      else
        var seized := Seized(l, q);
        if seized == 0 then Err(NothingToLiquidate)
        else if l[q.collateralMint].vault < seized then Err(InsufficientLiquidity)
        else
          var paid :- PayDown(DebtBook(l, q), q.liquidator, q.borrower, Repaid(l, q));
          var released :- Release(CollateralBook(l, q), q.borrower, q.liquidator, seized);
          Ok(l[q.debtMint := paid][q.collateralMint := released])
  }

  // ---------- the token program on its own ----------

  function OpenWallet(l: Ledger, user: Pubkey, mint: Pubkey): Result<Ledger> {
    if mint !in l then Err(AccountNotInitialized)
    else if user in l[mint].wallets then Err(AccountInUse)
    else Ok(l[mint := l[mint].(wallets := l[mint].wallets[user := 0])])
  }

  function Transfer(l: Ledger, payer: Pubkey, payee: Pubkey, mint: Pubkey, amount: u64): Result<Ledger> {
    if mint !in l || payer !in l[mint].wallets || payee !in l[mint].wallets then Err(AccountNotInitialized)
    else
      var b :- BetweenWallets(l[mint], payer, payee, amount);
      Ok(l[mint := b])
  }

  /** A plain token transfer into a vault, outside the lending program. */
  function Donate(l: Ledger, payer: Pubkey, mint: Pubkey, amount: u64): Result<Ledger> {
    if mint !in l || payer !in l[mint].wallets then Err(AccountNotInitialized)
    else
      var b :- ToVault(l[mint], payer, amount);
      Ok(l[mint := b])
  }

  // ---------- runs ----------

  datatype Instruction =
    | DoInitializeMarket(admin: Pubkey, mint: Pubkey, slot: u64, amountPerClaim: u64, maxLtvBps: u16, feedId: FeedId,
        rate: u64)
    | DoSetClaimAmount(admin: Pubkey, mint: Pubkey, amount: u64)
    | DoClaimFaucet(user: Pubkey, mint: Pubkey)
    | DoSupply(user: Pubkey, mint: Pubkey, slot: u64, amount: u64)
    | DoWithdraw(user: Pubkey, mint: Pubkey, slot: u64, amount: u64, oracle: PriceUpdate, others: seq<AccountRef>)
    | DoBorrow(user: Pubkey, mint: Pubkey, slot: u64, amount: u64, oracle: PriceUpdate, others: seq<AccountRef>)
    | DoRepay(user: Pubkey, mint: Pubkey, slot: u64, amount: u64)
    | DoLiquidate(q: Liquidation)
    | DoOpenWallet(user: Pubkey, mint: Pubkey)
    | DoTransfer(user: Pubkey, payee: Pubkey, mint: Pubkey, amount: u64)
    | DoDonate(user: Pubkey, mint: Pubkey, amount: u64)

  /** Liquidations name two different markets. */
  type Step = s: Instruction | s.DoLiquidate? ==> s.q.debtMint != s.q.collateralMint
    witness DoClaimFaucet(0, 0)

  function Execute(l: Ledger, s: Step): Result<Ledger> {
    match s
    case DoInitializeMarket(admin, mint, slot, amount, ltv, feed, rate) =>
      InitializeMarket(l, admin, mint, slot, amount, ltv, feed, rate)
    case DoSetClaimAmount(admin, mint, amount) => SetClaimAmount(l, admin, mint, amount)
    case DoClaimFaucet(user, mint) => ClaimFaucet(l, user, mint)
    case DoSupply(user, mint, slot, amount) => Supply(l, user, mint, slot, amount)
    case DoWithdraw(user, mint, slot, amount, oracle, others) => Withdraw(l, user, mint, slot, amount, oracle, others)
    case DoBorrow(user, mint, slot, amount, oracle, others) => Borrow(l, user, mint, slot, amount, oracle, others)
    case DoRepay(user, mint, slot, amount) => Repay(l, user, mint, slot, amount)
    case DoLiquidate(q) => Liquidate(l, q)
    case DoOpenWallet(user, mint) => OpenWallet(l, user, mint)
    case DoTransfer(user, payee, mint, amount) => Transfer(l, user, payee, mint, amount)
    case DoDonate(user, mint, amount) => Donate(l, user, mint, amount)
  }

  /** A refused instruction leaves no trace. */
  function Next(l: Ledger, s: Step): Ledger {
    if Execute(l, s).Ok? then Execute(l, s).value else l
  }

  function Run(l: Ledger, steps: seq<Step>): Ledger
    decreases |steps|
  {
    if steps == [] then l else Run(Next(l, steps[0]), steps[1..])
  }

  ghost predicate Reachable(l: Ledger) {
    exists steps: seq<Step> :: l == Run(map[], steps)
  }
}
