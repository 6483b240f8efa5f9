/** Safety of healthy users over whole runs: everything that can happen in one slot, by
    anyone, in any order, after one user has passed a health check. */
module HealthRuns {
  import opened Arith
  import opened State
  import opened Sums
  import opened Interest
  import opened Health
  import opened Instructions
  import opened Bookkeeping
  import opened LedgerRuns
  import opened HealthGuards
  import opened CurrentDebts

  function SlotOf(s: Step): Option<u64> {
    match s
    case DoInitializeMarket(_, _, slot, _, _, _, _) => Some(slot)
    case DoSupply(_, _, slot, _) => Some(slot)
    case DoWithdraw(_, _, slot, _, _, _) => Some(slot)
    case DoBorrow(_, _, slot, _, _, _) => Some(slot)
    case DoRepay(_, _, slot, _) => Some(slot)
    case DoLiquidate(q) => Some(q.slot)
    case _ => None
  }

  ghost predicate InSlot(s: Step, slot: u64) {
    SlotOf(s).Some? ==> SlotOf(s).value == slot
  }

  /** The calls that weigh `user` use the prices of the moment and list the user's other
      positions once; other users' calls are unconstrained. */
  ghost predicate Disciplined(l: Ledger, s: Step, user: Pubkey, quotes: Quotes) {
    match s
    case DoWithdraw(u, mint, _, _, oracle, others) =>
      u == user ==> AgreesWith(oracle, quotes) && CompleteOthers(l, user, others, {mint}, quotes)
    case DoBorrow(u, mint, _, _, oracle, others) =>
      u == user ==> AgreesWith(oracle, quotes) && CompleteOthers(l, user, others, {mint}, quotes)
    case DoLiquidate(q) =>
      q.borrower == user ==>
        && AgreesWith(q.debtOracle, quotes) && AgreesWith(q.collateralOracle, quotes)
        && CompleteOthers(l, user, q.others, {q.debtMint, q.collateralMint}, quotes)
    case _ => true
  }

  // ---------- debts stay up to date within a slot ----------

  /** Within one slot, whatever a step does to a market, its index at that slot is settled. */
  lemma StepKeepsIndexAt(l: Ledger, s: Step, mint: Pubkey, slot: u64)
    requires mint in l && InSlot(s, slot)
    ensures mint in Next(l, s)
    ensures AccrueMarket(Next(l, s)[mint].market, slot).borrowIndexE18
            == AccrueMarket(l[mint].market, slot).borrowIndexE18
  {
    hide Withdraw, Borrow, Repay, Liquidate, Restate, SatSub, SatMul, Present, Repaid, Seized, Balance, OneMain,
         TwoMain, LiquidationRefusal;
    if Execute(l, s).Ok? {
      match s
      case DoWithdraw(u, m, t, amount, oracle, others) => WithdrawDid(l, u, m, t, amount, oracle, others);
      case DoBorrow(u, m, t, amount, oracle, others) => BorrowDid(l, u, m, t, amount, oracle, others);
      case DoRepay(u, m, t, amount) => RepayDid(l, u, m, t, amount);
      case DoLiquidate(q) => LiquidateDid(l, q);
      case _ =>
    }
  }

  /** A successful step restates the positions it names. */
  lemma StepRestates(l: Ledger, s: Step, mint: Pubkey, user: Pubkey, slot: u64)
    requires mint in l && InSlot(s, slot) && Reaches(s, mint, user) && Execute(l, s).Ok?
    ensures mint in Next(l, s) && user in Next(l, s)[mint].positions
    ensures Next(l, s)[mint].positions[user].snapshotE18 == AccrueMarket(l[mint].market, slot).borrowIndexE18
  {
    hide Withdraw, Borrow, Repay, Liquidate, Restate, SatSub, SatMul, Present, Repaid, Seized, Balance, OneMain,
         TwoMain, LiquidationRefusal;
    match s
    case DoWithdraw(u, m, t, amount, oracle, others) => WithdrawDid(l, u, m, t, amount, oracle, others);
    case DoBorrow(u, m, t, amount, oracle, others) => BorrowDid(l, u, m, t, amount, oracle, others);
    case DoRepay(u, m, t, amount) => RepayDid(l, u, m, t, amount);
    case DoLiquidate(q) => LiquidateDid(l, q);
    case _ =>
  }

  lemma StepKeepsRestatedIn(l: Ledger, s: Step, mint: Pubkey, user: Pubkey, slot: u64)
    requires mint in l && InSlot(s, slot)
    requires RestatedIn(l[mint], user, slot) || (Reaches(s, mint, user) && Execute(l, s).Ok?)
    ensures mint in Next(l, s) && RestatedIn(Next(l, s)[mint], user, slot)
  {
    hide Execute, Next, AccrueMarket, Reaches, InSlot;
    StepKeepsIndexAt(l, s, mint, slot);
    if !Reaches(s, mint, user) {
      StepLeavesPosition(l, s, mint, user);
    } else if Succeeds(l, s) {
      StepRestates(l, s, mint, user, slot);
    }
  }

  predicate Succeeds(l: Ledger, s: Step)
    ensures Succeeds(l, s) <==> Execute(l, s).Ok?
    ensures !Succeeds(l, s) ==> Next(l, s) == l
  {
    Execute(l, s).Ok?
  }

  /** `touched` are the markets a successful step restates the user in. */
  lemma StepKeepsRestated(l: Ledger, s: Step, user: Pubkey, slot: u64, touched: set<Pubkey>)
    requires LedgerInv(l) && InSlot(s, slot) && Restated(l, user, slot, touched)
    requires forall mint :: mint in touched ==> Reaches(s, mint, user) && Execute(l, s).Ok?
    ensures Restated(Next(l, s), user, slot, {})
  {
    hide Execute, Next, RestatedIn, Reaches, InSlot, Inv;
    forall mint | mint in Next(l, s)
      ensures RestatedIn(Next(l, s)[mint], user, slot)
    {
      if mint in l {
        StepKeepsRestatedIn(l, s, mint, user, slot);
      } else {
        StepOfNewBook(l, s, mint);
        NobodyIsRestated(Next(l, s)[mint], user, slot);
      }
    }
  }

  lemma NobodyIsRestated(b: Book, user: Pubkey, slot: u64)
    requires user !in b.positions
    ensures RestatedIn(b, user, slot)
  {
  }

  // ---------- no debt starts to shrink ----------

  /** What restating makes of a position depends on the position and the index alone. */
  lemma SamePositionSameDebt(b: Book, c: Book, user: Pubkey, slot: u64, quotes: Quotes)
    requires user in b.positions <==> user in c.positions
    requires user in b.positions ==> c.positions[user] == b.positions[user]
    requires AccrueMarket(b.market, slot).borrowIndexE18 == AccrueMarket(c.market, slot).borrowIndexE18
    ensures BookTotals(TouchIfThere(c, user, slot), user, quotes)
            == BookTotals(TouchIfThere(b, user, slot), user, quotes)
    ensures InterestOn(c, user, slot) == InterestOn(b, user, slot)
  {
    hide AccrueMarket, Restate, PositionTotals;
  }

  lemma StepLeavesDebt(l: Ledger, s: Step, mint: Pubkey, user: Pubkey, slot: u64, quotes: Quotes)
    requires mint in l && InSlot(s, slot) && !Reaches(s, mint, user)
    ensures mint in Next(l, s)
    ensures BookTotals(TouchIfThere(Next(l, s)[mint], user, slot), user, quotes)
         == BookTotals(TouchIfThere(l[mint], user, slot), user, quotes)
    ensures InterestOn(Next(l, s)[mint], user, slot) == InterestOn(l[mint], user, slot)
  {
    hide Next, AccrueMarket, Reaches, InSlot, BookTotals, TouchIfThere, InterestOn;
    StepKeepsIndexAt(l, s, mint, slot);
    StepLeavesPosition(l, s, mint, user);
    SamePositionSameDebt(l[mint], Next(l, s)[mint], user, slot, quotes);
  }

  lemma NobodyOwes(b: Book, user: Pubkey, slot: u64, quotes: Quotes)
    requires user !in b.positions
    ensures InterestOn(b, user, slot) == 0 && BookTotals(TouchIfThere(b, user, slot), user, quotes) == NOTHING
  {
  }

  lemma StepKeepsGrowing(l: Ledger, s: Step, user: Pubkey, slot: u64, quotes: Quotes)
    requires LedgerInv(l) && InSlot(s, slot) && Growing(l, user, slot)
    ensures Growing(Next(l, s), user, slot)
  {
    hide Execute, Next, RestatedIn, Reaches, InSlot, Inv, InterestOn, BookTotals, TouchIfThere;
    forall mint | mint in Next(l, s)
      ensures 0 <= InterestOn(Next(l, s)[mint], user, slot)
    {
      if mint !in l {
        StepOfNewBook(l, s, mint);
        NobodyOwes(Next(l, s)[mint], user, slot, quotes);
      } else if !Reaches(s, mint, user) {
        StepLeavesDebt(l, s, mint, user, slot, quotes);
      } else if Succeeds(l, s) {
        StepKeepsRestatedIn(l, s, mint, user, slot);
        RestatedDebtStands(Next(l, s)[mint], user, slot);
      }
    }
  }

  // ---------- current exposure stays within the limit ----------

  /** Steps that do not name any position of the user leave the current exposure alone. */
  lemma StepLeavesExposure(l: Ledger, s: Step, user: Pubkey, slot: u64, quotes: Quotes)
    requires LedgerInv(l) && InSlot(s, slot) && forall mint :: mint in l ==> !Reaches(s, mint, user)
    ensures Exposure(Current(Next(l, s), user, slot), user, quotes) == Exposure(Current(l, user, slot), user, quotes)
  {
    hide Execute, Next, Inv, BookTotals, Reaches, InSlot, TouchIfThere;
    var before, after := Current(l, user, slot), Current(Next(l, s), user, slot);
    forall mint | mint in before
      ensures mint in after && BookTotals(after[mint], user, quotes) == BookTotals(before[mint], user, quotes)
    {
      StepLeavesDebt(l, s, mint, user, slot, quotes);
    }
    forall mint | mint in after && mint !in before
      ensures BookTotals(after[mint], user, quotes) == NOTHING
    {
      StepOfNewBook(l, s, mint);
      NobodyOwes(Next(l, s)[mint], user, slot, quotes);
    }
    TotalExtend(before, after, CollatOf(user, quotes));
    TotalExtend(before, after, DebtOf(user, quotes));
  }

  /** Replacing one book by one that is restated, and at least as healthy as the old one restated. */
  lemma CurrentReplaced(l: Ledger, mint: Pubkey, c: Book, user: Pubkey, slot: u64, quotes: Quotes)
    requires mint in l && user in c.positions && RestatedIn(c, user, slot)
    requires AtLeastAsHealthy(BookTotals(TouchIfThere(l[mint], user, slot), user, quotes), BookTotals(c, user, quotes))
    ensures AtLeastAsHealthy(Exposure(Current(l, user, slot), user, quotes),
                             Exposure(Current(l[mint := c], user, slot), user, quotes))
  {
    hide Exposure, BookTotals, Touch, RestatedIn;
    var k, touched := Current(l, user, slot), TouchIfThere(c, user, slot);
    assert Current(l[mint := c], user, slot) == k[mint := touched];
    TouchRestated(c, user, slot, quotes);
    ExposureUpdate(k, mint, touched, user, quotes);
    ExposureRemove(k, mint, user, quotes);
  }

  lemma SupplyKeepsWithin(l: Ledger, s: Step, user: Pubkey, slot: u64, quotes: Quotes)
    requires s.DoSupply? && s.user == user && InSlot(s, slot) && Execute(l, s).Ok?
    requires Exposure(Current(l, user, slot), user, quotes).WithinLimit()
    ensures Exposure(Current(Next(l, s), user, slot), user, quotes).WithinLimit()
  {
    hide Exposure, BookTotals, Open, Deposit, RestatedIn, Current, TouchIfThere;
    var mint := s.mint;
    var b := Open(l[mint], user, slot);
    var c := Deposit(b, user, s.amount).value;
    StepKeepsRestatedIn(l, s, mint, user, slot);
    OpenedIsTouched(l[mint], user, slot, quotes);
    DepositImproves(b, user, s.amount, quotes);
    DepositKeepsPosition(b, user, s.amount);
    CurrentReplaced(l, mint, c, user, slot, quotes);
    HealthierStaysWithin(Exposure(Current(l, user, slot), user, quotes),
        Exposure(Current(l[mint := c], user, slot), user, quotes));
  }

  lemma DepositKeepsPosition(b: Book, user: Pubkey, amount: u64)
    requires user in b.positions && Deposit(b, user, amount).Ok?
    ensures user in Deposit(b, user, amount).value.positions
  {
  }

  lemma OpenedIsTouched(b: Book, user: Pubkey, slot: u64, quotes: Quotes)
    ensures BookTotals(Open(b, user, slot), user, quotes) == BookTotals(TouchIfThere(b, user, slot), user, quotes)
  {
    hide AccrueMarket, AccruePosition, Valued;
    if user !in b.positions {
      InactiveIsNothing(Open(b, user, slot), user, quotes);
    }
  }

  lemma RepayKeepsWithin(l: Ledger, s: Step, user: Pubkey, slot: u64, quotes: Quotes)
    requires s.DoRepay? && s.user == user && InSlot(s, slot) && Execute(l, s).Ok?
    requires Exposure(Current(l, user, slot), user, quotes).WithinLimit()
    ensures Exposure(Current(Next(l, s), user, slot), user, quotes).WithinLimit()
  {
    hide Exposure, BookTotals, Touch, PayDown, RestatedIn, Current, Repay;
    var mint := s.mint;
    RepayDid(l, user, mint, slot, s.amount);
    var b := Touch(l[mint], user, slot);
    var pay := Min(s.amount, b.positions[user].borrowed);
    var c := PayDown(b, user, user, pay).value;
    StepKeepsRestatedIn(l, s, mint, user, slot);
    PayDownImproves(b, user, user, pay, quotes);
    PayDownKeepsPosition(b, user, pay);
    CurrentReplaced(l, mint, c, user, slot, quotes);
    HealthierStaysWithin(Exposure(Current(l, user, slot), user, quotes),
        Exposure(Current(l[mint := c], user, slot), user, quotes));
  }

  lemma PayDownKeepsPosition(b: Book, user: Pubkey, amount: u64)
    requires user in b.positions && PayDown(b, user, user, amount).Ok?
    ensures user in PayDown(b, user, user, amount).value.positions
  {
  }

  /** A `borrow` or `withdraw` of this user. */
  predicate IsGuarded(s: Step, user: Pubkey) {
    (s.DoBorrow? || s.DoWithdraw?) && s.user == user
  }

  /** Passing a guard makes its user safe when the user's other debts were up to date. */
  lemma GuardMakesSafe(l: Ledger, s: Step, user: Pubkey, slot: u64, quotes: Quotes)
    requires LedgerInv(l) && IsGuarded(s, user) && s.slot == slot
    requires Execute(l, s).Ok? && Disciplined(l, s, user, quotes) && Restated(l, user, slot, {s.mint})
    ensures Safe(Next(l, s), user, slot, quotes)
  {
    hide Exposure, RestatedIn, Withdraw, Borrow, CompleteOthers, Inv, Current, Growing, ValuesCurrent;
    StepKeepsRestated(l, s, user, slot, {s.mint});
    RestatedValuesCurrent(Next(l, s), user, slot, quotes);
    StoredIsCurrentIff(Next(l, s), user, slot, quotes);
    if s.DoBorrow? {
      BorrowLeavesWithin(l, user, s.mint, slot, s.amount, s.oracle, s.others, quotes);
    } else {
      WithdrawLeavesWithin(l, user, s.mint, slot, s.amount, s.oracle, s.others, quotes);
    }
  }

  /** A guarded call that leaves its user within the limit on current debts: because the user's
      other debts were up to date, or because what was out of date makes no difference. */
  ghost predicate Careful(l: Ledger, s: Step, user: Pubkey, slot: u64, quotes: Quotes) {
    IsGuarded(s, user) && Execute(l, s).Ok? ==>
        Restated(l, user, slot, {s.mint}) || Safe(Next(l, s), user, slot, quotes)
  }

  lemma CarefulGuardMakesSafe(l: Ledger, s: Step, user: Pubkey, slot: u64, quotes: Quotes)
    requires LedgerInv(l) && IsGuarded(s, user) && s.slot == slot && Execute(l, s).Ok?
    requires Disciplined(l, s, user, quotes) && Careful(l, s, user, slot, quotes)
    ensures Safe(Next(l, s), user, slot, quotes)
  {
    hide Safe, Restated, Next, Execute, Disciplined;
    if Restated(l, user, slot, {s.mint}) {
      GuardMakesSafe(l, s, user, slot, quotes);
    }
  }

  lemma StepKeepsSafe(l: Ledger, s: Step, user: Pubkey, slot: u64, quotes: Quotes)
    requires LedgerInv(l) && Safe(l, user, slot, quotes) && InSlot(s, slot)
    requires Disciplined(l, s, user, quotes) && Careful(l, s, user, slot, quotes)
    ensures LedgerInv(Next(l, s)) && Safe(Next(l, s), user, slot, quotes)
  {
    hide Next, Exposure, Current, Execute, Growing, Liquidate, CompleteOthers, Inv;
    StepInv(l, s);
    StepKeepsGrowing(l, s, user, slot, quotes);
    if !Succeeds(l, s) {
    } else if s.DoSupply? && s.user == user {
      SupplyKeepsWithin(l, s, user, slot, quotes);
    } else if s.DoRepay? && s.user == user {
      RepayKeepsWithin(l, s, user, slot, quotes);
    } else if IsGuarded(s, user) {
      CarefulGuardMakesSafe(l, s, user, slot, quotes);
    } else if s.DoLiquidate? && s.q.borrower == user {
      SafeUserStaysWhole(l, s.q, quotes);
      LiquidationFails(l, s);
    } else {
      StepLeavesExposure(l, s, user, slot, quotes);
    }
  }

  lemma SafeUserStaysWhole(l: Ledger, q: Liquidation, quotes: Quotes)
    requires LedgerInv(l) && Safe(l, q.borrower, q.slot, quotes)
    requires q.debtMint != q.collateralMint && Disciplined(l, DoLiquidate(q), q.borrower, quotes)
    ensures Liquidate(l, q).Err?
    ensures LiquidationRefusal(l, q).None? && TwoMain(l, q).Ok? ==> Liquidate(l, q) == Err(PositionHealthy)
  {
    hide Liquidate, LiquidationRefusal, TwoMain, Growing, Exposure, Current, CompleteOthers, LedgerInv;
    GrowingElsewhere(l, q.borrower, q.slot, {q.debtMint});
    GrowingElsewhere(l - {q.debtMint}, q.borrower, q.slot, {q.collateralMint});
    SafeMeansUnliquidatable(l, q, quotes);
  }

  lemma LiquidationFails(l: Ledger, s: Step)
    requires s.DoLiquidate? && Liquidate(l, s.q).Err?
    ensures !Succeeds(l, s)
  {
    hide Liquidate;
  }

  // ---------- runs within a slot ----------

  ghost predicate DisciplinedRun(l: Ledger, steps: seq<Step>, user: Pubkey, slot: u64, quotes: Quotes)
    decreases |steps|
  {
    steps != [] ==>
      InSlot(steps[0], slot) && Disciplined(l, steps[0], user, quotes)
      && DisciplinedRun(Next(l, steps[0]), steps[1..], user, slot, quotes)
  }

  ghost predicate CarefulRun(l: Ledger, steps: seq<Step>, user: Pubkey, slot: u64, quotes: Quotes)
    decreases |steps|
  {
    steps != [] ==>
      Careful(l, steps[0], user, slot, quotes) && CarefulRun(Next(l, steps[0]), steps[1..], user, slot, quotes)
  }

  /** From the moment all debts of the user are up to date, every run in the slot is careful. */
  lemma {:induction false} RestatedRunIsCareful(l: Ledger, steps: seq<Step>, user: Pubkey, slot: u64, quotes: Quotes)
    requires LedgerInv(l) && Restated(l, user, slot, {}) && DisciplinedRun(l, steps, user, slot, quotes)
    ensures CarefulRun(l, steps, user, slot, quotes)
    decreases |steps|
  {
    hide Next, RestatedIn, Disciplined, InSlot, Inv, Execute, Safe;
    if steps != [] {
      StepInv(l, steps[0]);
      StepKeepsRestated(l, steps[0], user, slot, {});
      RestatedRunIsCareful(Next(l, steps[0]), steps[1..], user, slot, quotes);
    }
  }

  lemma {:induction false} RunKeepsSafe(l: Ledger, steps: seq<Step>, user: Pubkey, slot: u64, quotes: Quotes)
    requires LedgerInv(l) && Safe(l, user, slot, quotes)
    requires DisciplinedRun(l, steps, user, slot, quotes) && CarefulRun(l, steps, user, slot, quotes)
    ensures LedgerInv(Run(l, steps)) && Safe(Run(l, steps), user, slot, quotes)
    decreases |steps|
  {
    hide Next, Safe, Disciplined, LedgerInv, InSlot, Careful;
    if steps != [] {
      StepKeepsSafe(l, steps[0], user, slot, quotes);
      RunKeepsSafe(Next(l, steps[0]), steps[1..], user, slot, quotes);
    }
  }

  /** The guards are complements. After a user's successful `borrow` or `withdraw`, and any run of
      steps by anyone in the same slot at the same prices, every liquidation of that user in that
      slot fails, by `PositionHealthy` if it gets as far as weighing health: whichever two
      positions it names, whoever calls it. All that is asked of the user's own guarded calls is
      that debts out of date do not hide a shortfall; when they are all up to date after the
      first call, that holds of the whole run by `RestatedRunIsCareful`. */
  lemma HealthyUserCannotBeLiquidated(l: Ledger, guarded: Step, steps: seq<Step>, q: Liquidation, user: Pubkey,
                                      slot: u64, quotes: Quotes)
    requires LedgerInv(l) && IsGuarded(guarded, user) && guarded.slot == slot
    requires Execute(l, guarded).Ok? && Disciplined(l, guarded, user, quotes) && Careful(l, guarded, user, slot, quotes)
    requires DisciplinedRun(Next(l, guarded), steps, user, slot, quotes)
             && CarefulRun(Next(l, guarded), steps, user, slot, quotes)
    requires q.borrower == user && q.slot == slot && q.debtMint != q.collateralMint
    requires Disciplined(Run(Next(l, guarded), steps), DoLiquidate(q), user, quotes)
    ensures var k := Run(Next(l, guarded), steps);
            && Liquidate(k, q).Err?
            && (LiquidationRefusal(k, q).None? && TwoMain(k, q).Ok? ==> Liquidate(k, q) == Err(PositionHealthy))
  {
    hide Next, Safe, LedgerInv, Restated, CompleteOthers, DisciplinedRun, CarefulRun, Careful, Run, Liquidate, TwoMain,
         LiquidationRefusal;
    StepInv(l, guarded);
    CarefulGuardMakesSafe(l, guarded, user, slot, quotes);
    RunKeepsSafe(Next(l, guarded), steps, user, slot, quotes);
    SafeUserStaysWhole(Run(Next(l, guarded), steps), q, quotes);
  }

  /** In particular, with the user's other debts up to date before the first call, every such
      run is covered without looking at any other. */
  lemma RestatedUserCannotBeLiquidated(l: Ledger, guarded: Step, steps: seq<Step>, q: Liquidation, user: Pubkey,
                                       slot: u64, quotes: Quotes)
    requires LedgerInv(l) && IsGuarded(guarded, user) && guarded.slot == slot
    requires Execute(l, guarded).Ok? && Disciplined(l, guarded, user, quotes) && Restated(l, user, slot, {guarded.mint})
    requires DisciplinedRun(Next(l, guarded), steps, user, slot, quotes)
    requires q.borrower == user && q.slot == slot && q.debtMint != q.collateralMint
    requires Disciplined(Run(Next(l, guarded), steps), DoLiquidate(q), user, quotes)
    ensures var k := Run(Next(l, guarded), steps);
            && Liquidate(k, q).Err?
            && (LiquidationRefusal(k, q).None? && TwoMain(k, q).Ok? ==> Liquidate(k, q) == Err(PositionHealthy))
  {
    hide Next, Safe, LedgerInv, RestatedIn, CompleteOthers, DisciplinedRun, CarefulRun, Run, Liquidate, TwoMain,
         LiquidationRefusal;
    StepInv(l, guarded);
    StepKeepsRestated(l, guarded, user, slot, {guarded.mint});
    RestatedRunIsCareful(Next(l, guarded), steps, user, slot, quotes);
    HealthyUserCannotBeLiquidated(l, guarded, steps, q, user, slot, quotes);
  }
}
