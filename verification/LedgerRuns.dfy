/** Whole runs of the program: what holds in every reachable ledger, and the exact
    accounting of every run, over all markets and all interleavings of users. */
module LedgerRuns {
  import opened Arith
  import opened State
  import opened Interest
  import opened Instructions
  import opened Bookkeeping

  ghost predicate LedgerInv(l: Ledger) {
    forall mint :: mint in l ==> Inv(l[mint])
  }

  /** Whose position in `mint` a step restates, and at which slot. */
  function Touches(s: Step, mint: Pubkey): Option<(Pubkey, u64)> {
    match s
    case DoSupply(user, m, slot, _) => if m == mint then Some((user, slot)) else None
    case DoWithdraw(user, m, slot, _, _, _) => if m == mint then Some((user, slot)) else None
    case DoBorrow(user, m, slot, _, _, _) => if m == mint then Some((user, slot)) else None
    case DoRepay(user, m, slot, _) => if m == mint then Some((user, slot)) else None
    case DoLiquidate(q) => if q.debtMint == mint || q.collateralMint == mint then Some((q.borrower, q.slot)) else None
    case _ => None
  }

  /** Interest a step recognises in `mint`; a refused step recognises none. */
  function InterestOf(l: Ledger, s: Step, mint: Pubkey): int {
    if Execute(l, s).Ok? && mint in l && Touches(s, mint).Some?
    then InterestOn(l[mint], Touches(s, mint).value.0, Touches(s, mint).value.1) else 0
  }

  function DonationOf(l: Ledger, s: Step, mint: Pubkey): nat {
    if Execute(l, s).Ok? && s.DoDonate? && s.mint == mint then s.amount else 0
  }

  // ---------- what a successful instruction did ----------

  lemma WithdrawDid(l: Ledger, user: Pubkey, mint: Pubkey, slot: u64, amount: u64, oracle: Health.PriceUpdate,
                    others: seq<Health.AccountRef>)
    requires Withdraw(l, user, mint, slot, amount, oracle, others).Ok?
    ensures mint in l && user in l[mint].positions
    ensures var b := Touch(l[mint], user, slot);
            && amount <= b.positions[user].supplied && Release(b, user, user, amount).Ok?
            && Withdraw(l, user, mint, slot, amount, oracle, others).value
               == l[mint := Release(b, user, user, amount).value]
  {
    hide Touch, OneMain, Release;
  }

  lemma BorrowDid(l: Ledger, user: Pubkey, mint: Pubkey, slot: u64, amount: u64, oracle: Health.PriceUpdate,
                  others: seq<Health.AccountRef>)
    requires Borrow(l, user, mint, slot, amount, oracle, others).Ok?
    ensures mint in l && user in l[mint].positions
    ensures var b := Touch(l[mint], user, slot);
            && b.positions[user].borrowed + amount <= U64_MAX && Lend(b, user, amount).Ok?
            && Borrow(l, user, mint, slot, amount, oracle, others).value == l[mint := Lend(b, user, amount).value]
  {
    hide Touch, OneMain, Lend;
  }

  lemma RepayDid(l: Ledger, user: Pubkey, mint: Pubkey, slot: u64, amount: u64)
    requires Repay(l, user, mint, slot, amount).Ok?
    ensures mint in l && user in l[mint].positions
    ensures var b := Touch(l[mint], user, slot);
            var pay := Min(amount, b.positions[user].borrowed);
            && 0 < pay && PayDown(b, user, user, pay).Ok?
            && Repay(l, user, mint, slot, amount).value == l[mint := PayDown(b, user, user, pay).value]
  {
    hide Touch, PayDown;
  }

  lemma LiquidateDid(l: Ledger, q: Liquidation)
    requires q.debtMint != q.collateralMint && Liquidate(l, q).Ok?
    ensures Present(l, q)
    ensures var d, c := DebtBook(l, q), CollateralBook(l, q);
            && Repaid(l, q) <= d.positions[q.borrower].borrowed
               && PayDown(d, q.liquidator, q.borrower, Repaid(l, q)).Ok?
            && Seized(l, q) <= c.positions[q.borrower].supplied
               && Release(c, q.borrower, q.liquidator, Seized(l, q)).Ok?
            && 0 < Seized(l, q)
            && Liquidate(l, q).value == l[q.debtMint := PayDown(d, q.liquidator, q.borrower, Repaid(l, q)).value]
                                         [q.collateralMint := Release(c, q.borrower, q.liquidator, Seized(l, q)).value]
  {
    hide Touch, TwoMain, Release, PayDown, WithBonus;
  }

  // ---------- one step, one book ----------

  /** Every step moves every market's books by a `BookStep`. */
  lemma StepOfBook(l: Ledger, s: Step, mint: Pubkey)
    requires LedgerInv(l) && mint in l
    ensures mint in Next(l, s) && BookStep(l[mint], Next(l, s)[mint], InterestOf(l, s, mint), DonationOf(l, s, mint))
  {
    hide BookStep, Inv, InterestOn, Touch, Open, Deposit, Release, Lend, PayDown, ToVault, Mint, BetweenWallets,
         OneMain, LiquidationRefusal, TwoMain;
    var b := l[mint];
    StepNothing(b);
    if Execute(l, s).Ok? {
      match s
      case DoInitializeMarket(_, _, _, _, _, _, _) =>
      case DoSetClaimAmount(_, m, amount) => if m == mint { SetClaimStep(b, amount); }
      case DoClaimFaucet(user, m) => if m == mint { MintStep(b, user, b.market.amountPerClaim); }
      case DoSupply(user, m, slot, amount) => if m == mint { SupplyStep(b, user, slot, amount); }
      case DoWithdraw(user, m, slot, amount, oracle, others) =>
        WithdrawDid(l, user, m, slot, amount, oracle, others);
        if m == mint { ReleaseStep(b, user, user, slot, amount); }
      case DoBorrow(user, m, slot, amount, oracle, others) =>
        BorrowDid(l, user, m, slot, amount, oracle, others);
        if m == mint { LendStep(b, user, slot, amount); }
      case DoRepay(user, m, slot, amount) =>
        RepayDid(l, user, m, slot, amount);
        if m == mint { PayDownStep(b, user, user, slot, Min(amount, Touch(b, user, slot).positions[user].borrowed)); }
      case DoLiquidate(q) =>
        LiquidateDid(l, q);
        if q.debtMint == mint { PayDownStep(b, q.liquidator, q.borrower, q.slot, Repaid(l, q)); }
        if q.collateralMint == mint { ReleaseStep(b, q.borrower, q.liquidator, q.slot, Seized(l, q)); }
      case DoOpenWallet(user, m) => if m == mint { OpenWalletStep(b, user); }
      case DoTransfer(user, payee, m, amount) => if m == mint { TransferStep(b, user, payee, amount); }
      case DoDonate(user, m, amount) => if m == mint { DonateStep(b, user, amount); }
    }
  }

  lemma OnlyInitializeAdds(l: Ledger, s: Step, mint: Pubkey)
    requires mint !in l && mint in Next(l, s)
    ensures s.DoInitializeMarket? && s.mint == mint && Execute(l, s).Ok?
  {
    hide Touch, Open, Deposit, Release, Lend, PayDown, ToVault, Mint, BetweenWallets, OneMain, LiquidationRefusal,
         TwoMain, Withdraw, Borrow, Repay, Liquidate;
    match s
    case DoWithdraw(user, m, slot, amount, oracle, others) => WithdrawDid(l, user, m, slot, amount, oracle, others);
    case DoBorrow(user, m, slot, amount, oracle, others) => BorrowDid(l, user, m, slot, amount, oracle, others);
    case DoRepay(user, m, slot, amount) => RepayDid(l, user, m, slot, amount);
    case DoLiquidate(q) => LiquidateDid(l, q);
    case _ =>
  }

  /** The only way a market appears: empty, at index one, owing nothing. */
  lemma StepOfNewBook(l: Ledger, s: Step, mint: Pubkey)
    requires mint !in l && mint in Next(l, s)
    ensures var b := Next(l, s)[mint];
            && Inv(b) && Gap(b) == 0 && b.positions == map[]
            && b.market.borrowIndexE18 == RATE_SCALE_E18 && b.market.totalBorrowed == SumBorrowed(b)
  {
    OnlyInitializeAdds(l, s, mint);
  }

  lemma StepInv(l: Ledger, s: Step)
    requires LedgerInv(l)
    ensures LedgerInv(Next(l, s))
  {
    hide Next, Inv;
    forall mint | mint in Next(l, s)
      ensures Inv(Next(l, s)[mint])
    {
      if mint in l {
        StepOfBook(l, s, mint);
      } else {
        StepOfNewBook(l, s, mint);
      }
    }
  }

  lemma {:induction false} RunInv(l: Ledger, steps: seq<Step>)
    requires LedgerInv(l)
    ensures LedgerInv(Run(l, steps))
    decreases |steps|
  {
    if steps != [] {
      StepInv(l, steps[0]);
      RunInv(Next(l, steps[0]), steps[1..]);
    }
  }

  /** Well-formed positions, stored totals equal to sums, solvency and token conservation
      hold in every reachable ledger, for every market in it. */
  lemma ReachableInv(l: Ledger)
    requires Reachable(l)
    ensures LedgerInv(l)
  {
    var steps: seq<Step> :| l == Run(map[], steps);
    RunInv(map[], steps);
  }

  // ---------- the exact ledger law ----------

  ghost function GapAt(l: Ledger, mint: Pubkey): int {
    if mint in l then Gap(l[mint]) else 0
  }

  ghost function InterestOver(l: Ledger, steps: seq<Step>, mint: Pubkey): int
    decreases |steps|
  {
    if steps == [] then 0 else InterestOf(l, steps[0], mint) + InterestOver(Next(l, steps[0]), steps[1..], mint)
  }

  ghost function DonationsOver(l: Ledger, steps: seq<Step>, mint: Pubkey): nat
    decreases |steps|
  {
    if steps == [] then 0 else DonationOf(l, steps[0], mint) + DonationsOver(Next(l, steps[0]), steps[1..], mint)
  }

  lemma StepGap(l: Ledger, s: Step, mint: Pubkey)
    requires LedgerInv(l)
    ensures GapAt(Next(l, s), mint) == GapAt(l, mint) + InterestOf(l, s, mint) + DonationOf(l, s, mint)
  {
    hide Execute, Gap, Inv;
    if mint in l {
      StepOfBook(l, s, mint);
    } else {
      if mint in Next(l, s) {
        StepOfNewBook(l, s, mint);
      }
      NothingToDonateTo(l, s, mint);
    }
  }

  lemma NothingToDonateTo(l: Ledger, s: Step, mint: Pubkey)
    requires mint !in l
    ensures DonationOf(l, s, mint) == 0
  {
  }

  lemma {:induction false} GapOver(l: Ledger, steps: seq<Step>, mint: Pubkey)
    requires LedgerInv(l)
    ensures GapAt(Run(l, steps), mint) == GapAt(l, mint) + InterestOver(l, steps, mint) + DonationsOver(l, steps, mint)
    decreases |steps|
  {
    if steps != [] {
      StepGap(l, steps[0], mint);
      StepInv(l, steps[0]);
      GapOver(Next(l, steps[0]), steps[1..], mint);
    }
  }

  /** Over every run from genesis, in every market: vault + debts == deposits + interest
      recognised + donations, to the last unit. */
  lemma LedgerLaw(steps: seq<Step>, mint: Pubkey)
    requires mint in Run(map[], steps)
    ensures var b := Run(map[], steps)[mint];
            b.vault + SumBorrowed(b)
                == SumSupplied(b) + InterestOver(map[], steps, mint) + DonationsOver(map[], steps, mint)
  {
    GapOver(map[], steps, mint);
  }

  // ---------- stored debt against the sum of debts ----------

  ghost function DebtGap(l: Ledger, mint: Pubkey): int {
    if mint in l then SumBorrowed(l[mint]) - l[mint].market.totalBorrowed else 0
  }

  lemma StepDebtGap(l: Ledger, s: Step, mint: Pubkey)
    requires LedgerInv(l)
    ensures DebtGap(Next(l, s), mint) <= DebtGap(l, mint) + InterestOf(l, s, mint)
  {
    hide Execute, SumBorrowed, Inv;
    if mint in l {
      StepOfBook(l, s, mint);
    } else if mint in Next(l, s) {
      StepOfNewBook(l, s, mint);
    }
  }

  lemma {:induction false} DebtGapOver(l: Ledger, steps: seq<Step>, mint: Pubkey)
    requires LedgerInv(l)
    ensures DebtGap(Run(l, steps), mint) <= DebtGap(l, mint) + InterestOver(l, steps, mint)
    decreases |steps|
  {
    hide DebtGap, Next, Inv, InterestOf;
    if steps != [] {
      StepDebtGap(l, steps[0], mint);
      StepInv(l, steps[0]);
      DebtGapOver(Next(l, steps[0]), steps[1..], mint);
    }
  }

  /** Over every run from genesis, saturated or not: a market's stored total lags behind the sum of
      its debts by no more than the interest recognised, and so the vault and the stored total
      together cover not only all deposits but also everything that was donated. */
  lemma StoredDebtCoversPrincipal(steps: seq<Step>, mint: Pubkey)
    requires mint in Run(map[], steps)
    ensures var b := Run(map[], steps)[mint];
            && SumBorrowed(b) - InterestOver(map[], steps, mint) <= b.market.totalBorrowed
            && b.market.totalSupplied + DonationsOver(map[], steps, mint) <= b.vault + b.market.totalBorrowed
  {
    hide Run, SumBorrowed, InterestOver, DonationsOver;
    DebtGapOver(map[], steps, mint);
    LedgerLaw(steps, mint);
    RunInv(map[], steps);
  }


  /** No debt in the market times its own snapshot overflows 128 bits. */
  ghost predicate DebtsFitIn(b: Book) {
    forall user :: user in b.positions ==> b.positions[user].borrowed * b.positions[user].snapshotE18 <= U128_MAX
  }

  ghost predicate DebtsFit(l: Ledger) {
    forall mint :: mint in l ==> DebtsFitIn(l[mint])
  }

  /** A market whose index is at most 2^64 + 1 (18.4 times its start) cannot break `DebtsFitIn`. */
  lemma SmallIndicesFit(b: Book)
    requires Inv(b) && b.market.borrowIndexE18 <= U64_MAX + 2
    ensures DebtsFitIn(b)
  {
    forall user | user in b.positions
      ensures b.positions[user].borrowed * b.positions[user].snapshotE18 <= U128_MAX
    {
      var p := b.positions[user];
      assert WellFormedPosition(p, user, b.market);
      MulMonotone(p.borrowed, U64_MAX, p.snapshotE18);
      MulMonotone(p.snapshotE18, U64_MAX + 2, U64_MAX);
    }
  }

  lemma InterestNeverNegative(b: Book, owner: Pubkey, slot: u64)
    requires Inv(b)
             && (owner in b.positions ==> b.positions[owner].borrowed * b.positions[owner].snapshotE18 <= U128_MAX)
    ensures 0 <= InterestOn(b, owner, slot)
  {
    hide AccrueMarket, Restate;
    if owner in b.positions {
      var p := b.positions[owner];
      AccrueEvolves(b.market, slot);
      RestateShrinksIff(p.borrowed, p.snapshotE18, AccrueMarket(b.market, slot).borrowIndexE18);
    }
  }

  /** The debt a step restates in `mint` does not overflow 128 bits when multiplied by its snapshot. */
  ghost predicate RestatedDebtFits(l: Ledger, s: Step, mint: Pubkey) {
    forall user :: mint in l && user in l[mint].positions && Reaches(s, mint, user) ==>
      l[mint].positions[user].borrowed * l[mint].positions[user].snapshotE18 <= U128_MAX
  }

  ghost predicate FitsThroughout(l: Ledger, steps: seq<Step>, mint: Pubkey)
    decreases |steps|
  {
    steps != [] ==> RestatedDebtFits(l, steps[0], mint) && FitsThroughout(Next(l, steps[0]), steps[1..], mint)
  }

  lemma FittingStepEarns(l: Ledger, s: Step, mint: Pubkey)
    requires LedgerInv(l) && RestatedDebtFits(l, s, mint)
    ensures 0 <= InterestOf(l, s, mint)
  {
    hide Execute, Inv, InterestOn, Touches;
    if Execute(l, s).Ok? && mint in l && Touches(s, mint).Some? {
      assert Reaches(s, mint, Touches(s, mint).value.0);
      InterestNeverNegative(l[mint], Touches(s, mint).value.0, Touches(s, mint).value.1);
    }
  }

  /** While no debt restated in a market overflows, the interest it recognises is not negative
      and its stored total never exceeds the sum of its debts. */
  lemma {:induction false} StoredDebtBelowSum(l: Ledger, steps: seq<Step>, mint: Pubkey)
    requires LedgerInv(l) && FitsThroughout(l, steps, mint)
    requires mint in l ==> l[mint].market.totalBorrowed <= SumBorrowed(l[mint])
    ensures 0 <= InterestOver(l, steps, mint)
    ensures mint in Run(l, steps) ==> Run(l, steps)[mint].market.totalBorrowed <= SumBorrowed(Run(l, steps)[mint])
    decreases |steps|
  {
    hide Next, Inv, InterestOf, RestatedDebtFits;
    if steps != [] {
      var s := steps[0];
      FittingStepEarns(l, s, mint);
      if mint in l {
        StepOfBook(l, s, mint);
      } else if mint in Next(l, s) {
        StepOfNewBook(l, s, mint);
      }
      StepInv(l, s);
      StoredDebtBelowSum(Next(l, s), steps[1..], mint);
    }
  }

  /** At rate zero the index never leaves one and the stored debt is the sum of debts. */
  ghost predicate ZeroRateExact(l: Ledger) {
    forall mint :: mint in l && l[mint].market.borrowRatePerSlotE18 == 0 ==>
      l[mint].market.borrowIndexE18 == RATE_SCALE_E18 && l[mint].market.totalBorrowed == SumBorrowed(l[mint])
  }

  lemma ZeroRateStandsStill(m: Market, n: Market)
    requires Evolves(m, n) && m.borrowRatePerSlotE18 == 0
    ensures n.borrowIndexE18 == m.borrowIndexE18
  {
    var p := Pow(RATE_SCALE_E18, n.lastUpdateSlot - m.lastUpdateSlot);
    PowPositive(RATE_SCALE_E18, n.lastUpdateSlot - m.lastUpdateSlot);
    MulCancel(n.borrowIndexE18, m.borrowIndexE18, p);
  }

  lemma ZeroRateNoInterest(b: Book, owner: Pubkey, slot: u64)
    requires Inv(b) && b.market.borrowRatePerSlotE18 == 0 && b.market.borrowIndexE18 == RATE_SCALE_E18
    ensures InterestOn(b, owner, slot) == 0
  {
    hide AccrueMarket;
    AccrueEvolves(b.market, slot);
    ZeroRateStandsStill(b.market, AccrueMarket(b.market, slot));
    if owner in b.positions {
      assert WellFormedPosition(b.positions[owner], owner, b.market);
    }
  }

  lemma {:induction false} ZeroRateRun(l: Ledger, steps: seq<Step>)
    requires LedgerInv(l) && ZeroRateExact(l)
    ensures ZeroRateExact(Run(l, steps))
    decreases |steps|
  {
    hide Next, Inv, InterestOn;
    if steps != [] {
      var s := steps[0];
      forall mint | mint in Next(l, s) && Next(l, s)[mint].market.borrowRatePerSlotE18 == 0
        ensures Next(l, s)[mint].market.borrowIndexE18 == RATE_SCALE_E18
             && Next(l, s)[mint].market.totalBorrowed == SumBorrowed(Next(l, s)[mint])
      {
        if mint in l {
          StepOfBook(l, s, mint);
          ZeroRateStandsStill(l[mint].market, Next(l, s)[mint].market);
          if Touches(s, mint).Some? {
            ZeroRateNoInterest(l[mint], Touches(s, mint).value.0, Touches(s, mint).value.1);
          }
        } else {
          StepOfNewBook(l, s, mint);
        }
      }
      StepInv(l, s);
      ZeroRateRun(Next(l, s), steps[1..]);
    }
  }

  // ---------- a borrower nobody touches ----------

  ghost predicate LeavesAlone(steps: seq<Step>, mint: Pubkey, user: Pubkey) {
    forall i :: 0 <= i < |steps| ==> !Reaches(steps[i], mint, user)
  }

  /** A step that names this user's position in this market as a main account. */
  predicate Reaches(s: Step, mint: Pubkey, user: Pubkey) {
    Touches(s, mint).Some? && Touches(s, mint).value.0 == user
  }

  lemma StepLeavesPosition(l: Ledger, s: Step, mint: Pubkey, user: Pubkey)
    requires mint in l && !Reaches(s, mint, user)
    ensures mint in Next(l, s)
    ensures user in l[mint].positions <==> user in Next(l, s)[mint].positions
    ensures user in l[mint].positions ==> Next(l, s)[mint].positions[user] == l[mint].positions[user]
  {
    hide Withdraw, Borrow, Repay, Liquidate, AccrueMarket, AccruePosition, SatSub, Present, Repaid, Seized, Balance,
         OneMain, TwoMain, LiquidationRefusal;
    if Execute(l, s).Ok? {
      match s
      case DoWithdraw(u, m, slot, amount, oracle, others) => WithdrawDid(l, u, m, slot, amount, oracle, others);
      case DoBorrow(u, m, slot, amount, oracle, others) => BorrowDid(l, u, m, slot, amount, oracle, others);
      case DoRepay(u, m, slot, amount) => RepayDid(l, u, m, slot, amount);
      case DoLiquidate(q) => LiquidateDid(l, q);
      case _ =>
    }
  }

  /** Only `supply` opens a position: no other step, `repay` included, leaves a new one behind. */
  lemma OnlySupplyOpens(l: Ledger, s: Step, mint: Pubkey, user: Pubkey)
    requires mint in Next(l, s) && user in Next(l, s)[mint].positions
    ensures (mint in l && user in l[mint].positions) || (s.DoSupply? && s.user == user && s.mint == mint)
  {
    hide Next, Execute;
    if mint !in l {
      StepOfNewBook(l, s, mint);
    } else if !Reaches(s, mint, user) {
      StepLeavesPosition(l, s, mint, user);
    } else if !s.DoSupply? {
      NamedPositionExists(l, s, mint, user);
    }
  }

  lemma NamedPositionExists(l: Ledger, s: Step, mint: Pubkey, user: Pubkey)
    requires mint in l && Reaches(s, mint, user) && !s.DoSupply? && user in Next(l, s)[mint].positions
    ensures user in l[mint].positions
  {
    hide Withdraw, Borrow, Repay, Liquidate;
    if Execute(l, s).Ok? {
      match s
      case DoWithdraw(u, m, slot, amount, oracle, others) => WithdrawDid(l, u, m, slot, amount, oracle, others);
      case DoBorrow(u, m, slot, amount, oracle, others) => BorrowDid(l, u, m, slot, amount, oracle, others);
      case DoRepay(u, m, slot, amount) => RepayDid(l, u, m, slot, amount);
      case DoLiquidate(q) => LiquidateDid(l, q);
      case _ =>
    }
  }

  lemma {:induction false} RunLeavesPosition(l: Ledger, steps: seq<Step>, mint: Pubkey, user: Pubkey)
    requires LedgerInv(l) && mint in l && user in l[mint].positions && LeavesAlone(steps, mint, user)
    ensures mint in Run(l, steps) && user in Run(l, steps)[mint].positions
    ensures Run(l, steps)[mint].positions[user] == l[mint].positions[user]
    ensures Evolves(l[mint].market, Run(l, steps)[mint].market)
    decreases |steps|
  {
    hide Next, Inv, Evolves, Reaches;
    if steps == [] {
      EvolvesStay(l[mint].market, l[mint].market);
    } else {
      var k := Next(l, steps[0]);
      StepOfBook(l, steps[0], mint);
      StepLeavesPosition(l, steps[0], mint, user);
      StepInv(l, steps[0]);
      RunLeavesPosition(k, steps[1..], mint, user);
      EvolvesThrough(l[mint].market, k[mint].market, Run(k, steps[1..])[mint].market);
    }
  }

  /** A debt last restated under `earlier` and next restated at `slot` stays in the envelope. */
  lemma TouchWithinEnvelope(b: Book, earlier: Market, user: Pubkey, slot: u64)
    requires user in b.positions && Evolves(earlier, b.market)
    requires 0 < earlier.borrowIndexE18 == b.positions[user].snapshotE18
    ensures var touched := Touch(b, user, slot);
            var n := touched.market.lastUpdateSlot - earlier.lastUpdateSlot;
            && 0 <= n
            && touched.positions[user].borrowed * Pow(RATE_SCALE_E18, n)
               <= b.positions[user].borrowed * Pow(RATE_SCALE_E18 + earlier.borrowRatePerSlotE18, n)
  {
    hide AccrueMarket, AccruePosition, Pow;
    AccrueEvolves(b.market, slot);
    EvolvesThrough(earlier, b.market, AccrueMarket(b.market, slot));
    DebtEnvelope(b.positions[user], earlier, AccrueMarket(b.market, slot));
  }

  /** Whatever everyone else does, a restated debt left alone and next restated at `slot` has
      grown at most as compound interest over the slots in between allows:
      debt' * scale^n <= debt * (scale + rate)^n. */
  lemma UntouchedBorrower(l: Ledger, steps: seq<Step>, mint: Pubkey, user: Pubkey, slot: u64)
    requires LedgerInv(l) && mint in l && user in l[mint].positions && LeavesAlone(steps, mint, user)
    requires l[mint].positions[user].snapshotE18 == l[mint].market.borrowIndexE18
    ensures mint in Run(l, steps) && user in Run(l, steps)[mint].positions
    ensures var touched := Touch(Run(l, steps)[mint], user, slot);
            var n := touched.market.lastUpdateSlot - l[mint].market.lastUpdateSlot;
            && 0 <= n
            && touched.positions[user].borrowed * Pow(RATE_SCALE_E18, n)
               <= l[mint].positions[user].borrowed * Pow(RATE_SCALE_E18 + l[mint].market.borrowRatePerSlotE18, n)
  {
    hide Touch, Run, Evolves, Conserved, Solvent, Pow;
    RunLeavesPosition(l, steps, mint, user);
    TouchWithinEnvelope(Run(l, steps)[mint], l[mint].market, user, slot);
  }

  // ---------- arithmetic that cannot fail ----------

  /** `withdraw` never trips over the stored total, nor any token account over 64 bits. */
  lemma WithdrawNeverOverflows(l: Ledger, user: Pubkey, mint: Pubkey, slot: u64, amount: u64,
                               oracle: Health.PriceUpdate, others: seq<Health.AccountRef>)
    requires LedgerInv(l)
    ensures Withdraw(l, user, mint, slot, amount, oracle, others) != Err(Overflow)
    ensures Withdraw(l, user, mint, slot, amount, oracle, others) != Err(TokenOverflow)
  {
    hide Touch, OneMain, Inv;
    if mint in l && user in l[mint].positions {
      var b := Touch(l[mint], user, slot);
      SuppliedWithinTotal(l[mint], user, slot);
      TouchConserves(l[mint], user, slot);
      BalanceBound(b, user);
      if amount <= b.positions[user].supplied {
        OneMainErrors(l, user, mint, b.positions[user].(supplied := b.positions[user].supplied - amount), oracle,
            b.market.feedId, others);
      }
    }
  }

  lemma TouchConserves(b: Book, owner: Pubkey, slot: u64)
    requires Inv(b) && owner in b.positions
    ensures Conserved(Touch(b, owner, slot))
  {
    hide AccrueMarket, AccruePosition;
    TouchAccrues(b, owner, slot);
  }

  /** A guard's totals are refused only for the accounts or the prices they are made from. */
  lemma OneMainErrors(l: Ledger, user: Pubkey, mint: Pubkey, p: Position, oracle: Health.PriceUpdate, feedId: FeedId,
                      others: seq<Health.AccountRef>)
    ensures var r := OneMain(l, user, mint, p, oracle, feedId, others);
            r.Err? ==> r.error in {BadRemainingAccounts, BadPositionAccount, BadPriceFeed, StalePrice}
  {
    hide Health.PositionTotals, Health.LoadAll;
    var accounts := Health.LoadAll(l, others);
    if |accounts| % 2 == 0 {
      Health.ScanErrors(Health.Paired(accounts), user, Health.Addresses(user, {mint}));
    }
  }

  /** The collateral subtractions of a liquidation are exact: neither saturates. */
  lemma LiquidationSubtractsExactly(l: Ledger, q: Liquidation, k: Ledger)
    requires LedgerInv(l) && q.debtMint != q.collateralMint && Liquidate(l, q) == Ok(k)
    ensures Present(l, q) && Present(k, q)
    ensures var before, after := CollateralBook(l, q), k[q.collateralMint];
            && after.positions[q.borrower].supplied == before.positions[q.borrower].supplied - Seized(l, q)
            && after.market.totalSupplied == before.market.totalSupplied - Seized(l, q)
            && after.vault == before.vault - Seized(l, q)
    ensures var before, after := DebtBook(l, q), k[q.debtMint];
            && after.positions[q.borrower].borrowed == before.positions[q.borrower].borrowed - Repaid(l, q)
            && after.vault == before.vault + Repaid(l, q)
  {
    hide Liquidate, Touch, Inv;
    LiquidateDid(l, q);
    SuppliedWithinTotal(l[q.collateralMint], q.borrower, q.slot);
  }

  // ---------- the faucet ----------

  lemma StepKeepsReceipt(l: Ledger, s: Step, mint: Pubkey, user: Pubkey)
    requires mint in l && user in l[mint].receipts
    ensures mint in Next(l, s) && user in Next(l, s)[mint].receipts
    ensures Next(l, s)[mint].receipts[user] == l[mint].receipts[user]
  {
    hide Withdraw, Borrow, Repay, Liquidate, AccrueMarket, AccruePosition, SatSub, Present, Repaid, Seized, Balance,
         OneMain, TwoMain, LiquidationRefusal;
    if Execute(l, s).Ok? {
      match s
      case DoWithdraw(u, m, slot, amount, oracle, others) => WithdrawDid(l, u, m, slot, amount, oracle, others);
      case DoBorrow(u, m, slot, amount, oracle, others) => BorrowDid(l, u, m, slot, amount, oracle, others);
      case DoRepay(u, m, slot, amount) => RepayDid(l, u, m, slot, amount);
      case DoLiquidate(q) => LiquidateDid(l, q);
      case _ =>
    }
  }

  /** One claim per wallet and mint, for ever: after any run the receipt still stands, with the
      amount it was issued for, and a second claim is refused. */
  lemma {:induction false} OneClaimForEver(l: Ledger, steps: seq<Step>, mint: Pubkey, user: Pubkey)
    requires mint in l && user in l[mint].receipts
    ensures mint in Run(l, steps) && user in Run(l, steps)[mint].receipts
    ensures Run(l, steps)[mint].receipts[user] == l[mint].receipts[user]
    ensures ClaimFaucet(Run(l, steps), user, mint) == Err(AccountInUse)
    decreases |steps|
  {
    hide Next;
    if steps != [] {
      StepKeepsReceipt(l, steps[0], mint, user);
      OneClaimForEver(Next(l, steps[0]), steps[1..], mint, user);
    }
  }
}
