/** What every instruction keeps about one market's books: well-formed positions, stored
    totals against sums, solvency, token conservation and the exact ledger law. */
module Bookkeeping {
  import opened Arith
  import opened State
  import opened Sums
  import opened Interest
  import opened Instructions

  function Supplied(p: Position): nat {
    p.supplied
  }

  function Borrowed(p: Position): nat {
    p.borrowed
  }

  function Units(amount: u64): nat {
    amount
  }

  ghost function SumSupplied(b: Book): nat {
    Total(b.positions, Supplied)
  }

  ghost function SumBorrowed(b: Book): nat {
    Total(b.positions, Borrowed)
  }

  ghost function SumWallets(b: Book): nat {
    Total(b.wallets, Units)
  }

  ghost function SumReceipts(b: Book): nat {
    Total(b.receipts, Units)
  }

  /** A position carries its market's parameters and a snapshot no market has yet to reach. */
  ghost predicate WellFormedPosition(p: Position, user: Pubkey, m: Market) {
    && p.user == user && p.feedId == m.feedId && p.maxLtvBps == m.maxLtvBps && p.decimals == MINT_DECIMALS
    && RATE_SCALE_E18 <= p.snapshotE18 <= m.borrowIndexE18
  }

  ghost predicate WellFormed(b: Book) {
    && RATE_SCALE_E18 <= b.market.borrowIndexE18
    && 0 < b.market.maxLtvBps < BPS_DENOMINATOR
    && forall user :: user in b.positions ==> WellFormedPosition(b.positions[user], user, b.market)
  }

  ghost predicate Solvent(b: Book) {
    && b.market.totalSupplied == SumSupplied(b)
    && b.market.totalSupplied <= b.vault + b.market.totalBorrowed
  }

  ghost predicate Conserved(b: Book) {
    && b.mintSupply == b.vault + SumWallets(b)
    && b.mintSupply == SumReceipts(b)
    && b.market.claimCount == |b.receipts|
  }

  ghost predicate Inv(b: Book) {
    WellFormed(b) && Solvent(b) && Conserved(b)
  }

  /** What the vault and the borrowers hold beyond what depositors are owed. */
  ghost function Gap(b: Book): int {
    b.vault + SumBorrowed(b) - SumSupplied(b)
  }

  /** Interest (it can be negative) that restating one debt recognises. */
  function InterestOn(b: Book, owner: Pubkey, slot: u64): int {
    if owner in b.positions then Touch(b, owner, slot).positions[owner].borrowed - b.positions[owner].borrowed else 0
  }

  /** The contract of a step for one book, given what it recognised and what was donated. */
  ghost predicate BookStep(b: Book, c: Book, interest: int, donation: nat) {
    && Inv(c)
    && Gap(c) == Gap(b) + interest + donation
    && Evolves(b.market, c.market) && SameParameters(b.market, c.market)
    && SumBorrowed(c) - c.market.totalBorrowed <= SumBorrowed(b) - b.market.totalBorrowed + interest
    && (b.market.totalBorrowed <= SumBorrowed(b) && 0 <= interest ==> c.market.totalBorrowed <= SumBorrowed(c))
    && (b.market.totalBorrowed == SumBorrowed(b) && 0 == interest ==> c.market.totalBorrowed == SumBorrowed(c))
  }

  ghost predicate SameParameters(m: Market, n: Market) {
    m.admin == n.admin && m.feedId == n.feedId && m.maxLtvBps == n.maxLtvBps
  }

  lemma StepNothing(b: Book)
    requires Inv(b)
    ensures BookStep(b, b, 0, 0)
  {
    EvolvesStay(b.market, b.market);
  }

  // ---------- parts of an instruction ----------

  /** The books after the accruals an instruction starts with. */
  ghost predicate Accrued(b: Book, c: Book, interest: int) {
    && WellFormed(c) && Evolves(b.market, c.market) && SameParameters(b.market, c.market)
    && SumSupplied(c) == SumSupplied(b) && SumBorrowed(c) == SumBorrowed(b) + interest
    && c.mintSupply == b.mintSupply && c.vault == b.vault && c.wallets == b.wallets && c.receipts == b.receipts
    && c.market.totalSupplied == b.market.totalSupplied && c.market.totalBorrowed == b.market.totalBorrowed
    && c.market.claimCount == b.market.claimCount
  }

  lemma TouchAccrues(b: Book, owner: Pubkey, slot: u64)
    requires WellFormed(b) && owner in b.positions
    ensures Accrued(b, Touch(b, owner, slot), InterestOn(b, owner, slot))
  {
    hide Restate;
    AccrueEvolves(b.market, slot);
    var p := Touch(b, owner, slot).positions[owner];
    TotalUpdate(b.positions, Supplied, owner, p);
    TotalUpdate(b.positions, Borrowed, owner, p);
  }

  lemma OpenAccrues(b: Book, user: Pubkey, slot: u64)
    requires WellFormed(b)
    ensures Accrued(b, Open(b, user, slot), InterestOn(b, user, slot))
  {
    if user in b.positions {
      TouchAccrues(b, user, slot);
    } else {
      AccrueEvolves(b.market, slot);
      var p := Open(b, user, slot).positions[user];
      TotalUpdate(b.positions, Supplied, user, p);
      TotalUpdate(b.positions, Borrowed, user, p);
    }
  }

  lemma SetSuppliedSums(b: Book, owner: Pubkey, supplied: u64, total: u64)
    requires owner in b.positions
    ensures var c := SetSupplied(b, owner, supplied, total);
            && SumSupplied(c) == SumSupplied(b) - b.positions[owner].supplied + supplied
            && SumBorrowed(c) == SumBorrowed(b)
            && b.positions[owner].supplied <= SumSupplied(b)
            && (WellFormed(b) ==> WellFormed(c))
  {
    var p := b.positions[owner].(supplied := supplied);
    TotalUpdate(b.positions, Supplied, owner, p);
    TotalUpdate(b.positions, Borrowed, owner, p);
    TotalAtLeast(b.positions, Supplied, owner);
  }

  lemma SetBorrowedSums(b: Book, owner: Pubkey, borrowed: u64, total: u64)
    requires owner in b.positions
    ensures var c := SetBorrowed(b, owner, borrowed, total);
            && SumBorrowed(c) == SumBorrowed(b) - b.positions[owner].borrowed + borrowed
            && SumSupplied(c) == SumSupplied(b)
            && b.positions[owner].borrowed <= SumBorrowed(b)
            && (WellFormed(b) ==> WellFormed(c))
  {
    var p := b.positions[owner].(borrowed := borrowed);
    TotalUpdate(b.positions, Supplied, owner, p);
    TotalUpdate(b.positions, Borrowed, owner, p);
    TotalAtLeast(b.positions, Borrowed, owner);
  }

  lemma BalanceBound(b: Book, wallet: Pubkey)
    ensures Balance(b, wallet) <= SumWallets(b)
  {
    if wallet in b.wallets {
      TotalAtLeast<Pubkey, u64>(b.wallets, Units, wallet);
    }
  }

  lemma ToVaultSums(b: Book, payer: Pubkey, amount: u64)
    requires ToVault(b, payer, amount).Ok?
    ensures var c := ToVault(b, payer, amount).value;
            c.vault + SumWallets(c) == b.vault + SumWallets(b)
  {
    TotalUpdate<Pubkey, u64>(b.wallets, Units, payer, Balance(b, payer) - amount);
  }

  lemma FromVaultSums(b: Book, payee: Pubkey, amount: u64)
    requires FromVault(b, payee, amount).Ok?
    ensures var c := FromVault(b, payee, amount).value;
            c.vault + SumWallets(c) == b.vault + SumWallets(b)
  {
    TotalUpdate<Pubkey, u64>(b.wallets, Units, payee, Balance(b, payee) + amount);
  }

  /** Token accounts never overflow: everything in them was minted. */
  lemma TokensFit(b: Book, wallet: Pubkey, amount: u64)
    requires Conserved(b)
    ensures amount <= b.vault ==> FromVault(b, wallet, amount).Ok?
    ensures amount <= Balance(b, wallet) ==> ToVault(b, wallet, amount).Ok?
  {
    BalanceBound(b, wallet);
  }

  // ---------- whole instructions, one book ----------

  lemma SupplyStep(b: Book, user: Pubkey, slot: u64, amount: u64)
    requires Inv(b) && Deposit(Open(b, user, slot), user, amount).Ok?
    ensures BookStep(b, Deposit(Open(b, user, slot), user, amount).value, InterestOn(b, user, slot), 0)
  {
    hide InterestOn, Open, Total;
    var begun := Open(b, user, slot);
    OpenAccrues(b, user, slot);
    ToVaultSums(begun, user, amount);
    var paid := ToVault(begun, user, amount).value;
    SetSuppliedSums(paid, user, begun.positions[user].supplied + amount, begun.market.totalSupplied + amount);
  }

  lemma ReleaseStep(b: Book, owner: Pubkey, payee: Pubkey, slot: u64, amount: u64)
    requires Inv(b) && owner in b.positions
    requires amount <= Touch(b, owner, slot).positions[owner].supplied
             && Release(Touch(b, owner, slot), owner, payee, amount).Ok?
    ensures BookStep(b, Release(Touch(b, owner, slot), owner, payee, amount).value, InterestOn(b, owner, slot), 0)
  {
    hide InterestOn, Touch, Total;
    var touched := Touch(b, owner, slot);
    TouchAccrues(b, owner, slot);
    FromVaultSums(touched, payee, amount);
    var paid := FromVault(touched, payee, amount).value;
    SetSuppliedSums(paid, owner, SatSub(touched.positions[owner].supplied, amount),
        SatSub(touched.market.totalSupplied, amount));
  }

  /** The collateral stored for one position is covered by the market's stored total, so
      neither the checked nor the saturating subtraction from it can go wrong. */
  lemma SuppliedWithinTotal(b: Book, owner: Pubkey, slot: u64)
    requires Inv(b) && owner in b.positions
    ensures Touch(b, owner, slot).positions[owner].supplied <= Touch(b, owner, slot).market.totalSupplied
  {
    TotalAtLeast(b.positions, Supplied, owner);
  }

  lemma LendStep(b: Book, user: Pubkey, slot: u64, amount: u64)
    requires Inv(b) && user in b.positions
    requires Touch(b, user, slot).positions[user].borrowed + amount <= U64_MAX
             && Lend(Touch(b, user, slot), user, amount).Ok?
    ensures BookStep(b, Lend(Touch(b, user, slot), user, amount).value, InterestOn(b, user, slot), 0)
  {
    hide InterestOn, Touch, Total;
    var touched := Touch(b, user, slot);
    TouchAccrues(b, user, slot);
    FromVaultSums(touched, user, amount);
    var paid := FromVault(touched, user, amount).value;
    SetBorrowedSums(paid, user, touched.positions[user].borrowed + amount, touched.market.totalBorrowed + amount);
  }

  lemma PayDownStep(b: Book, payer: Pubkey, owner: Pubkey, slot: u64, amount: u64)
    requires Inv(b) && owner in b.positions
    requires amount <= Touch(b, owner, slot).positions[owner].borrowed
             && PayDown(Touch(b, owner, slot), payer, owner, amount).Ok?
    ensures BookStep(b, PayDown(Touch(b, owner, slot), payer, owner, amount).value, InterestOn(b, owner, slot), 0)
  {
    hide InterestOn, Touch, Total;
    var touched := Touch(b, owner, slot);
    TouchAccrues(b, owner, slot);
    ToVaultSums(touched, payer, amount);
    var paid := ToVault(touched, payer, amount).value;
    SetBorrowedSums(paid, owner, SatSub(touched.positions[owner].borrowed, amount),
        SatSub(touched.market.totalBorrowed, amount));
  }

  /** Steps that move tokens without touching any position. */
  lemma TokenStep(b: Book, c: Book, donation: nat)
    requires Inv(b) && Conserved(c) && c.positions == b.positions && c.vault == b.vault + donation
    requires c.market == b.market.(claimCount := c.market.claimCount, amountPerClaim := c.market.amountPerClaim)
    ensures BookStep(b, c, 0, donation)
  {
    EvolvesStay(b.market, c.market);
  }

  lemma MintConserves(b: Book, user: Pubkey, amount: u64)
    requires Conserved(b) && user !in b.receipts && Mint(b, user, amount).Ok?
    ensures var c := Mint(b, user, amount).value;
            && Conserved(c) && c.positions == b.positions && c.vault == b.vault
            && c.market == b.market.(claimCount := c.market.claimCount)
  {
    hide Total;
    TotalUpdate<Pubkey, u64>(b.wallets, Units, user, Balance(b, user) + amount);
    TotalUpdate<Pubkey, u64>(b.receipts, Units, user, amount);
  }

  lemma MintStep(b: Book, user: Pubkey, amount: u64)
    requires Inv(b) && user !in b.receipts && Mint(b, user, amount).Ok?
    ensures BookStep(b, Mint(b, user, amount).value, 0, 0)
  {
    hide BookStep, Total, Mint;
    MintConserves(b, user, amount);
    TokenStep(b, Mint(b, user, amount).value, 0);
  }

  lemma DonateStep(b: Book, payer: Pubkey, amount: u64)
    requires Inv(b) && ToVault(b, payer, amount).Ok?
    ensures BookStep(b, ToVault(b, payer, amount).value, 0, amount)
  {
    ToVaultSums(b, payer, amount);
    TokenStep(b, ToVault(b, payer, amount).value, amount);
  }

  lemma TransferStep(b: Book, payer: Pubkey, payee: Pubkey, amount: u64)
    requires Inv(b) && BetweenWallets(b, payer, payee, amount).Ok?
    ensures BookStep(b, BetweenWallets(b, payer, payee, amount).value, 0, 0)
  {
    hide BookStep, Total;
    var debited := b.(wallets := b.wallets[payer := Balance(b, payer) - amount]);
    TotalUpdate<Pubkey, u64>(b.wallets, Units, payer, Balance(b, payer) - amount);
    TotalUpdate<Pubkey, u64>(debited.wallets, Units, payee, Balance(debited, payee) + amount);
    TokenStep(b, BetweenWallets(b, payer, payee, amount).value, 0);
  }

  lemma OpenWalletStep(b: Book, user: Pubkey)
    requires Inv(b) && user !in b.wallets
    ensures BookStep(b, b.(wallets := b.wallets[user := 0]), 0, 0)
  {
    TotalUpdate<Pubkey, u64>(b.wallets, Units, user, 0);
    TokenStep(b, b.(wallets := b.wallets[user := 0]), 0);
  }

  lemma SetClaimStep(b: Book, amount: u64)
    requires Inv(b)
    ensures BookStep(b, b.(market := b.market.(amountPerClaim := amount)), 0, 0)
  {
    TokenStep(b, b.(market := b.market.(amountPerClaim := amount)), 0);
  }
}
