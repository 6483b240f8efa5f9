/** What each instruction does when it goes through, written out to the last field: everything the
    equation does not mention is as it was. */
module Effects {
  import opened Arith
  import opened State
  import opened Interest
  import opened Valuation
  import opened Health
  import opened Instructions
  import opened Bookkeeping
  import opened LedgerRuns

  // ---------- administration and the faucet ----------

  /** A market is opened once per mint, with an LTV strictly between nothing and all. */
  lemma InitializeSucceedsIff(l: Ledger, admin: Pubkey, mint: Pubkey, slot: u64, amountPerClaim: u64, maxLtvBps: u16,
                              feedId: FeedId, rate: u64)
    ensures var r := InitializeMarket(l, admin, mint, slot, amountPerClaim, maxLtvBps, feedId, rate);
            && (r.Ok? <==> mint !in l && 0 < maxLtvBps < 10_000)
            && (r.Err? ==> r.error == if mint in l then AccountInUse else BadLtv)
  {
  }

  /** It starts with the parameters given, at index one in the slot it is opened, and empty; so that
      nothing accrues in that slot. */
  lemma InitializeDoes(l: Ledger, admin: Pubkey, mint: Pubkey, slot: u64, amountPerClaim: u64, maxLtvBps: u16,
                       feedId: FeedId, rate: u64, k: Ledger)
    requires InitializeMarket(l, admin, mint, slot, amountPerClaim, maxLtvBps, feedId, rate) == Ok(k)
    ensures mint in k && k - {mint} == l
    ensures var b, m := k[mint], k[mint].market;
            && m.admin == admin && m.amountPerClaim == amountPerClaim && m.maxLtvBps == maxLtvBps
            && m.feedId == feedId && m.borrowRatePerSlotE18 == rate
            && m.borrowIndexE18 == 1_000_000_000_000_000_000 && m.lastUpdateSlot == slot
            && m.totalSupplied == 0 && m.totalBorrowed == 0 && m.claimCount == 0
            && b.mintSupply == 0 && b.vault == 0 && b.positions == map[] && b.wallets == map[] && b.receipts == map[]
            && AccrueMarket(m, slot) == m
  {
  }

  /** The claim amount is its admin's to set, and nothing else changes with it. */
  lemma SetClaimAmountDoes(l: Ledger, admin: Pubkey, mint: Pubkey, amount: u64)
    ensures var r := SetClaimAmount(l, admin, mint, amount);
            && (r.Ok? <==> mint in l && admin == l[mint].market.admin)
            && (r.Err? ==> r.error == if mint !in l then AccountNotInitialized else NotAdmin)
            && (r.Ok? ==> r.value == l[mint := l[mint].(market := l[mint].market.(amountPerClaim := amount))])
  {
  }

  /** A claim mints the market's amount into the claimer's wallet, against a receipt for it. */
  lemma ClaimDoes(l: Ledger, user: Pubkey, mint: Pubkey, k: Ledger)
    requires ClaimFaucet(l, user, mint) == Ok(k)
    ensures mint in l && user !in l[mint].receipts
    ensures var b, amount := l[mint], l[mint].market.amountPerClaim;
            && b.mintSupply + amount <= U64_MAX && Balance(b, user) + amount <= U64_MAX
            && b.market.claimCount + 1 <= U64_MAX
            && k == l[mint := b.(mintSupply := b.mintSupply + amount,
                                 wallets := b.wallets[user := Balance(b, user) + amount],
                                 receipts := b.receipts[user := amount],
                                 market := b.market.(claimCount := b.market.claimCount + 1))]
  {
  }

  // ---------- supply, withdraw, borrow, repay ----------

  /** The position a deposit goes to: the user's, restated, or a new one with the market's feed and
      LTV, nine decimals and the present index. */
  function PositionAt(b: Book, user: Pubkey, slot: u64): Position {
    var m := AccrueMarket(b.market, slot);
    if user in b.positions then AccruePosition(b.positions[user], m)
    else Position(user, 0, 0, m.feedId, m.maxLtvBps, 9, m.borrowIndexE18)
  }

  lemma WrittenTwice<K, V>(m: map<K, V>, k: K, v: V, w: V)
    ensures m[k := v][k := w] == m[k := w]
  {
  }

  lemma SupplyDoes(l: Ledger, user: Pubkey, mint: Pubkey, slot: u64, amount: u64, k: Ledger)
    requires Supply(l, user, mint, slot, amount) == Ok(k)
    ensures mint in l
    ensures var b := l[mint];
            var m, p := AccrueMarket(b.market, slot), PositionAt(b, user, slot);
            && amount <= Balance(b, user) && b.vault + amount <= U64_MAX
            && p.supplied + amount <= U64_MAX && m.totalSupplied + amount <= U64_MAX
            && k == l[mint := b.(market := m.(totalSupplied := m.totalSupplied + amount),
                                 vault := b.vault + amount,
                                 wallets := b.wallets[user := Balance(b, user) - amount],
                                 positions := b.positions[user := p.(supplied := p.supplied + amount)])]
  {
    hide AccrueMarket, AccruePosition;
    var b := l[mint];
    var p := PositionAt(b, user, slot);
    WrittenTwice(b.positions, user, p, p.(supplied := p.supplied + amount));
    AccrueFormula(b.market, slot);
  }

  lemma WithdrawDoes(l: Ledger, user: Pubkey, mint: Pubkey, slot: u64, amount: u64, oracle: PriceUpdate,
                     others: seq<AccountRef>, k: Ledger)
    requires Withdraw(l, user, mint, slot, amount, oracle, others) == Ok(k)
    ensures mint in l && user in l[mint].positions
    ensures var b := l[mint];
            var m, p := AccrueMarket(b.market, slot), PositionAt(b, user, slot);
            && 0 < amount <= p.supplied && amount <= m.totalSupplied && amount <= b.vault
            && Balance(b, user) + amount <= U64_MAX
            && k == l[mint := b.(market := m.(totalSupplied := m.totalSupplied - amount),
                                 vault := b.vault - amount,
                                 wallets := b.wallets[user := Balance(b, user) + amount],
                                 positions := b.positions[user := p.(supplied := p.supplied - amount)])]
  {
    hide AccrueMarket, AccruePosition, OneMain;
    var b := l[mint];
    var p := PositionAt(b, user, slot);
    WrittenTwice(b.positions, user, p, p.(supplied := SatSub(p.supplied, amount)));
    AccrueFormula(b.market, slot);
  }

  lemma BorrowDoes(l: Ledger, user: Pubkey, mint: Pubkey, slot: u64, amount: u64, oracle: PriceUpdate,
                   others: seq<AccountRef>, k: Ledger)
    requires Borrow(l, user, mint, slot, amount, oracle, others) == Ok(k)
    ensures mint in l && user in l[mint].positions
    ensures var b := l[mint];
            var m, p := AccrueMarket(b.market, slot), PositionAt(b, user, slot);
            && 0 < amount <= b.vault && p.supplied == 0
            && p.borrowed + amount <= U64_MAX && m.totalBorrowed + amount <= U64_MAX
            && Balance(b, user) + amount <= U64_MAX
            && k == l[mint := b.(market := m.(totalBorrowed := m.totalBorrowed + amount),
                                 vault := b.vault - amount,
                                 wallets := b.wallets[user := Balance(b, user) + amount],
                                 positions := b.positions[user := p.(borrowed := p.borrowed + amount)])]
  {
    hide AccrueMarket, AccruePosition, OneMain;
    BorrowDid(l, user, mint, slot, amount, oracle, others);
    var b := l[mint];
    var p := PositionAt(b, user, slot);
    WrittenTwice(b.positions, user, p, p.(borrowed := p.borrowed + amount));
    AccrueFormula(b.market, slot);
  }

  /** `repay` takes what is asked or what is owed, whichever is less. */
  lemma RepayDoes(l: Ledger, user: Pubkey, mint: Pubkey, slot: u64, amount: u64, k: Ledger)
    requires Repay(l, user, mint, slot, amount) == Ok(k)
    ensures mint in l && user in l[mint].positions
    ensures var b := l[mint];
            var m, p := AccrueMarket(b.market, slot), PositionAt(b, user, slot);
            var pay: u64 := if amount <= p.borrowed then amount else p.borrowed;
            var total: u64 := if pay <= m.totalBorrowed then m.totalBorrowed - pay else 0;
            && 0 < pay <= Balance(b, user) && b.vault + pay <= U64_MAX
            && k == l[mint := b.(market := m.(totalBorrowed := total),
                                 vault := b.vault + pay,
                                 wallets := b.wallets[user := Balance(b, user) - pay],
                                 positions := b.positions[user := p.(borrowed := p.borrowed - pay)])]
  {
    hide AccrueMarket, AccruePosition;
    var b := l[mint];
    var p := PositionAt(b, user, slot);
    WrittenTwice(b.positions, user, p, p.(borrowed := SatSub(p.borrowed, Min(amount, p.borrowed))));
    AccrueFormula(b.market, slot);
  }

  // ---------- liquidate ----------

  /** How much is repaid and how much is seized: what is asked or owed, whichever is less; and 105% of
      its value, at the two prices and rounded down each time, or all there is, whichever is less. */
  lemma LiquidationAmounts(l: Ledger, q: Liquidation)
    requires Present(l, q)
    ensures var dp := PositionAt(l[q.debtMint], q.borrower, q.slot);
            var cp := PositionAt(l[q.collateralMint], q.borrower, q.slot);
            && Repaid(l, q) == Min(q.repayAmount, dp.borrowed)
            && var value := TokenUsd(Min(q.repayAmount, dp.borrowed), q.debtOracle.price, dp.decimals);
               var bonus := Min(value * 10_500, U128_MAX) / 10_000;
               && 0 <= bonus <= U128_MAX
               && Seized(l, q) == Min(UsdToToken(bonus, q.collateralOracle.price, cp.decimals), cp.supplied)
  {
    hide AccrueMarket, AccruePosition, TokenUsd, UsdToToken;
  }

  /** A liquidation pays the repayment out of the liquidator's wallet into the debt vault, and what is
      seized out of the collateral vault into the liquidator's wallet; the borrower's debt and
      collateral go down by the same, and no other position, wallet, receipt or market is touched. */
  lemma LiquidateDoes(l: Ledger, q: Liquidation, k: Ledger)
    requires LedgerInv(l) && q.debtMint != q.collateralMint && Liquidate(l, q) == Ok(k)
    ensures Present(l, q) && q.liquidator != q.borrower
    ensures var b, repaid := l[q.debtMint], Repaid(l, q);
            var m, p := AccrueMarket(b.market, q.slot), PositionAt(b, q.borrower, q.slot);
            var total: u64 := if repaid <= m.totalBorrowed then m.totalBorrowed - repaid else 0;
            && q.liquidator in b.wallets && 0 < repaid <= b.wallets[q.liquidator] && repaid <= p.borrowed
            && b.vault + repaid <= U64_MAX && q.debtMint in k
            && k[q.debtMint] == b.(market := m.(totalBorrowed := total),
                                   vault := b.vault + repaid,
                                   wallets := b.wallets[q.liquidator := b.wallets[q.liquidator] - repaid],
                                   positions := b.positions[q.borrower := p.(borrowed := p.borrowed - repaid)])
    ensures var b, seized := l[q.collateralMint], Seized(l, q);
            var m, p := AccrueMarket(b.market, q.slot), PositionAt(b, q.borrower, q.slot);
            && q.liquidator in b.wallets && b.wallets[q.liquidator] + seized <= U64_MAX
            && 0 < seized <= p.supplied && seized <= b.vault && seized <= m.totalSupplied && q.collateralMint in k
            && k[q.collateralMint] == b.(market := m.(totalSupplied := m.totalSupplied - seized),
                                         vault := b.vault - seized,
                                         wallets := b.wallets[q.liquidator := b.wallets[q.liquidator] + seized],
                                         positions := b.positions[q.borrower := p.(supplied := p.supplied - seized)])
    ensures k - {q.debtMint, q.collateralMint} == l - {q.debtMint, q.collateralMint}
  {
    hide AccrueMarket, AccruePosition, TwoMain, WithBonus, TokenUsd, UsdToToken, Inv, Liquidate;
    LiquidatorChecked(l, q);
    LiquidateDid(l, q);
    SuppliedWithinTotal(l[q.collateralMint], q.borrower, q.slot);
  }

  lemma LiquidatorChecked(l: Ledger, q: Liquidation)
    requires q.debtMint != q.collateralMint && Liquidate(l, q).Ok?
    ensures Present(l, q) && q.liquidator != q.borrower && 0 < Repaid(l, q)
    ensures q.liquidator in l[q.debtMint].wallets && q.liquidator in l[q.collateralMint].wallets
  {
    hide AccrueMarket, AccruePosition, TwoMain, Release, PayDown, Seized;
  }

  /** Positions that say they are somebody else's are refused, whatever else the call says. */
  lemma ForeignPositionRefused(l: Ledger, q: Liquidation)
    requires q.debtMint != q.collateralMint && Present(l, q) && 0 < q.repayAmount && q.liquidator != q.borrower
    requires q.liquidator in l[q.debtMint].wallets && q.liquidator in l[q.collateralMint].wallets
    requires l[q.debtMint].positions[q.borrower].user != q.borrower
             || l[q.collateralMint].positions[q.borrower].user != q.borrower
    ensures Liquidate(l, q) == Err(BadPositionAccount)
  {
    hide AccrueMarket, Restate;
  }

  /** Nobody liquidates themself. */
  lemma SelfLiquidationRefused(l: Ledger, q: Liquidation)
    requires q.debtMint != q.collateralMint && q.liquidator == q.borrower
    ensures Liquidate(l, q).Err?
  {
    hide Liquidate;
    if Liquidate(l, q).Ok? {
      LiquidatorChecked(l, q);
    }
  }

  // ---------- the token program on its own ----------

  lemma TokenStepsDo(l: Ledger, payer: Pubkey, payee: Pubkey, mint: Pubkey, amount: u64)
    requires payer != payee
    ensures Transfer(l, payer, payee, mint, amount).Ok? ==>
              && mint in l && payer in l[mint].wallets && payee in l[mint].wallets
              && amount <= l[mint].wallets[payer] && l[mint].wallets[payee] + amount <= U64_MAX
              && Transfer(l, payer, payee, mint, amount).value
                 == l[mint := l[mint].(wallets := l[mint].wallets[payer := l[mint].wallets[payer] - amount]
                                                                 [payee := l[mint].wallets[payee] + amount])]
    ensures Donate(l, payer, mint, amount).Ok? ==>
              && mint in l && payer in l[mint].wallets
              && amount <= l[mint].wallets[payer] && l[mint].vault + amount <= U64_MAX
              && Donate(l, payer, mint, amount).value
                 == l[mint := l[mint].(wallets := l[mint].wallets[payer := l[mint].wallets[payer] - amount],
                                       vault := l[mint].vault + amount)]
  {
  }

  // ---------- the claim amount over a run ----------

  predicate SetsClaimAmount(s: Step, mint: Pubkey, admin: Pubkey) {
    s.DoSetClaimAmount? && s.mint == mint && s.admin == admin
  }

  lemma StepKeepsClaimAmount(l: Ledger, s: Step, mint: Pubkey)
    requires mint in l
    ensures mint in Next(l, s) && Next(l, s)[mint].market.admin == l[mint].market.admin
    ensures Next(l, s)[mint].market.amountPerClaim != l[mint].market.amountPerClaim ==>
              SetsClaimAmount(s, mint, l[mint].market.admin) && Execute(l, s).Ok?
  {
    hide Withdraw, Borrow, Repay, Liquidate, AccruePosition, SatSub, SatMul, SatAdd, Present, Repaid, Seized, Balance,
         OneMain, TwoMain, LiquidationRefusal;
    if Execute(l, s).Ok? {
      match s
      case DoWithdraw(u, m, slot, amount, oracle, others) => WithdrawDid(l, u, m, slot, amount, oracle, others);
      case DoBorrow(u, m, slot, amount, oracle, others) => BorrowDid(l, u, m, slot, amount, oracle, others);
      case DoRepay(u, m, slot, amount) => RepayDid(l, u, m, slot, amount);
      case DoLiquidate(q) => LiquidateDid(l, q);
      case _ =>
    }
  }

  /** Over any run, the admin of a market stays who it was, and its claim amount changes only if that
      admin sets it somewhere along the way. */
  lemma {:induction false} OnlyAdminSetsClaimAmount(l: Ledger, steps: seq<Step>, mint: Pubkey)
    requires mint in l
    ensures mint in Run(l, steps) && Run(l, steps)[mint].market.admin == l[mint].market.admin
    ensures Run(l, steps)[mint].market.amountPerClaim != l[mint].market.amountPerClaim ==>
              exists i :: 0 <= i < |steps| && SetsClaimAmount(steps[i], mint, l[mint].market.admin)
                          && Execute(Run(l, steps[..i]), steps[i]).Ok?
    decreases |steps|
  {
    hide Next, Execute, SetsClaimAmount;
    if steps != [] {
      var s, rest, k := steps[0], steps[1..], Next(l, steps[0]);
      StepKeepsClaimAmount(l, s, mint);
      OnlyAdminSetsClaimAmount(k, rest, mint);
      if k[mint].market.amountPerClaim != l[mint].market.amountPerClaim {
        assert steps[..0] == [] && Run(l, steps[..0]) == l;
      } else if Run(l, steps)[mint].market.amountPerClaim != k[mint].market.amountPerClaim {
        var i :| 0 <= i < |rest| && SetsClaimAmount(rest[i], mint, k[mint].market.admin)
                 && Execute(Run(k, rest[..i]), rest[i]).Ok?;
        assert steps[..i + 1][1..] == rest[..i] && steps[..i + 1][0] == s && steps[i + 1] == rest[i];
        assert Run(l, steps[..i + 1]) == Run(k, rest[..i]);
      }
    }
  }
}
