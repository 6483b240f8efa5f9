/** What one call undoes: within a slot, repaying what was just borrowed, or withdrawing what
    was just supplied, leaves nothing behind but the accruals. */
module RoundTrips {
  import opened Arith
  import opened State
  import opened Interest
  import opened Health
  import opened Instructions
  import opened LedgerRuns

  /** An up-to-date book is not moved by touching it again, whatever its stored totals and balances. */
  lemma TouchAgain(b: Book, c: Book, user: Pubkey, slot: u64)
    requires user in c.positions
    requires var m := AccrueMarket(b.market, slot);
             c.market == m.(totalSupplied := c.market.totalSupplied, totalBorrowed := c.market.totalBorrowed)
    requires c.positions[user].snapshotE18 == c.market.borrowIndexE18
    ensures Touch(c, user, slot) == c
  {
    hide SatMul, SatAdd;
    assert c.positions[user := c.positions[user]] == c.positions;
  }

  lemma MapBack<K, V>(m: map<K, V>, k: K, v: V)
    requires k in m
    ensures m[k := v][k := m[k]] == m
  {
  }

  /** Borrow then repay the same amount: the ledger is back, all books exact, but for the accruals. */
  lemma BorrowThenRepay(l: Ledger, user: Pubkey, mint: Pubkey, slot: u64, amount: u64, oracle: PriceUpdate,
                        others: seq<AccountRef>)
    requires Borrow(l, user, mint, slot, amount, oracle, others).Ok? && user in l[mint].wallets
    ensures mint in l && user in l[mint].positions
    ensures Repay(Borrow(l, user, mint, slot, amount, oracle, others).value, user, mint, slot, amount)
         == Ok(l[mint := Touch(l[mint], user, slot)])
  {
    hide Borrow, Touch, Lend, PayDown;
    BorrowDid(l, user, mint, slot, amount, oracle, others);
    BorrowIsPositive(l, user, mint, slot, amount, oracle, others);
    var b := Touch(l[mint], user, slot);
    TouchAgainAfterLend(l[mint], user, slot, amount);
    TouchKeepsWallets(l[mint], user, slot);
    LendThenPayDown(b, user, amount);
    Overwritten(l, mint, Lend(b, user, amount).value, b);
  }

  lemma Overwritten(l: Ledger, mint: Pubkey, b: Book, c: Book)
    ensures l[mint := b][mint := c] == l[mint := c]
  {
  }

  lemma TouchKeepsWallets(b: Book, user: Pubkey, slot: u64)
    requires user in b.positions
    ensures Touch(b, user, slot).wallets == b.wallets
  {
  }

  lemma LendThenPayDown(b: Book, user: Pubkey, amount: u64)
    requires user in b.positions && user in b.wallets && b.positions[user].borrowed + amount <= U64_MAX
             && Lend(b, user, amount).Ok?
    ensures var c := Lend(b, user, amount).value;
            && user in c.positions && c.positions[user].borrowed == b.positions[user].borrowed + amount
            && PayDown(c, user, user, amount) == Ok(b)
  {
    var c := Lend(b, user, amount).value;
    MapBack(b.positions, user, c.positions[user]);
    MapBack(b.wallets, user, c.wallets[user]);
    assert c.positions[user].(borrowed := b.positions[user].borrowed) == b.positions[user];
  }

  lemma DepositThenRelease(b: Book, user: Pubkey, amount: u64)
    requires user in b.positions && user in b.wallets && Deposit(b, user, amount).Ok?
    ensures var c := Deposit(b, user, amount).value; user in c.positions && Release(c, user, user, amount) == Ok(b)
  {
    var c := Deposit(b, user, amount).value;
    MapBack(b.positions, user, c.positions[user]);
    MapBack(b.wallets, user, c.wallets[user]);
    assert c.positions[user].(supplied := b.positions[user].supplied) == b.positions[user];
  }

  lemma BorrowIsPositive(l: Ledger, user: Pubkey, mint: Pubkey, slot: u64, amount: u64, oracle: PriceUpdate,
                         others: seq<AccountRef>)
    requires Borrow(l, user, mint, slot, amount, oracle, others).Ok?
    ensures 0 < amount
  {
  }

  lemma TouchAgainAfterLend(b: Book, user: Pubkey, slot: u64, amount: u64)
    requires user in b.positions && Touch(b, user, slot).positions[user].borrowed + amount <= U64_MAX
    requires Lend(Touch(b, user, slot), user, amount).Ok?
    ensures var c := Lend(Touch(b, user, slot), user, amount).value; user in c.positions && Touch(c, user, slot) == c
  {
    hide AccrueMarket, Restate;
    TouchAgain(b, Lend(Touch(b, user, slot), user, amount).value, user, slot);
  }

  /** Supply then withdraw the same amount: whenever the guard lets the withdrawal through, the
      ledger is back, but for the accruals and the position having been opened. */
  lemma SupplyThenWithdraw(l: Ledger, user: Pubkey, mint: Pubkey, slot: u64, amount: u64, oracle: PriceUpdate,
                           others: seq<AccountRef>)
    requires Supply(l, user, mint, slot, amount).Ok?
    requires Withdraw(Supply(l, user, mint, slot, amount).value, user, mint, slot, amount, oracle, others).Ok?
    ensures mint in l
    ensures Withdraw(Supply(l, user, mint, slot, amount).value, user, mint, slot, amount, oracle, others)
         == Ok(l[mint := Open(l[mint], user, slot)])
  {
    hide Withdraw, Open, Touch, Deposit, Release;
    var begun := Open(l[mint], user, slot);
    var c := Deposit(begun, user, amount).value;
    WithdrawDid(l[mint := c], user, mint, slot, amount, oracle, others);
    TouchAgainAfterDeposit(l[mint], user, slot, amount);
    DepositorHasWallet(l[mint], user, slot, amount);
    DepositThenRelease(begun, user, amount);
    Overwritten(l, mint, c, begun);
  }

  lemma DepositorHasWallet(b: Book, user: Pubkey, slot: u64, amount: u64)
    requires Deposit(Open(b, user, slot), user, amount).Ok? && 0 < amount
    ensures user in Open(b, user, slot).wallets
  {
  }

  lemma TouchAgainAfterDeposit(b: Book, user: Pubkey, slot: u64, amount: u64)
    requires Deposit(Open(b, user, slot), user, amount).Ok?
    ensures var c := Deposit(Open(b, user, slot), user, amount).value; user in c.positions && Touch(c, user, slot) == c
  {
    hide AccrueMarket, Restate;
    TouchAgain(b, Deposit(Open(b, user, slot), user, amount).value, user, slot);
  }
}
