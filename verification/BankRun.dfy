/** The bank run: exactly when the depositors of a market can all leave, in any order, the vault
    covering every one of them. */
module BankRun {
  import opened Arith
  import opened State
  import opened Sums
  import opened Interest
  import opened Valuation
  import opened Health
  import opened Instructions
  import opened Bookkeeping
  import opened LedgerRuns

  /** One depositor's call: withdraw everything, with this oracle account and these others. */
  datatype Exit = Exit(user: Pubkey, slot: u64, oracle: PriceUpdate, others: seq<AccountRef>)

  ghost predicate DebtFree(l: Ledger, user: Pubkey) {
    forall mint :: mint in l && user in l[mint].positions ==> l[mint].positions[user].borrowed == 0
  }

  ghost predicate AcceptedPair(l: Ledger, user: Pubkey, mint: Pubkey, pair: RefPair) {
    Accepted(Load(l, pair.0), Load(l, pair.1), user, Addresses(user, {mint}))
  }

  /** A depositor with a balance, no debt anywhere, a fresh price and acceptable other accounts. */
  ghost predicate Entitled(l: Ledger, mint: Pubkey, e: Exit) {
    && mint in l && e.user in l[mint].positions && 0 < l[mint].positions[e.user].supplied
    && DebtFree(l, e.user) && Quote(e.oracle, l[mint].market.feedId).Ok?
    && |e.others| % 2 == 0 && forall pair :: pair in Paired(e.others) ==> AcceptedPair(l, e.user, mint, pair)
  }

  function Leave(l: Ledger, mint: Pubkey, e: Exit): Result<Ledger>
    requires mint in l && e.user in l[mint].positions
  {
    Withdraw(l, e.user, mint, e.slot, l[mint].positions[e.user].supplied, e.oracle, e.others)
  }

  /** Every call of the sequence succeeds, one after the other. */
  ghost predicate AllLeave(l: Ledger, mint: Pubkey, exits: seq<Exit>)
    decreases |exits|
  {
    exits != [] ==>
      && mint in l && exits[0].user in l[mint].positions && Leave(l, mint, exits[0]).Ok?
      && AllLeave(Leave(l, mint, exits[0]).value, mint, exits[1..])
  }

  // ---------- one depositor ----------

  lemma PairOfDebtFree(l: Ledger, user: Pubkey, mint: Pubkey, pair: RefPair)
    requires LedgerInv(l) && DebtFree(l, user) && AcceptedPair(l, user, mint, pair)
    ensures var r := PairTotals((Load(l, pair.0), Load(l, pair.1)), user, Addresses(user, {mint}));
            r.Ok? && r.value.debt == 0
  {
    hide TokenUsd, AtLtv;
    PairDecides((Load(l, pair.0), Load(l, pair.1)), user, Addresses(user, {mint}));
    if pair.0.PositionRef? && pair.0.mint in l && pair.0.user in l[pair.0.mint].positions {
      var p := l[pair.0.mint].positions[pair.0.user];
      assert WellFormedPosition(p, pair.0.user, l[pair.0.mint].market);
      if pair.1.PriceRef? && p.user == user {
        TokenUsdWorthless(0, pair.1.update.price, p.decimals);
      }
    }
  }

  lemma {:induction false} ScanOfDebtFree(l: Ledger, user: Pubkey, mint: Pubkey, pairs: seq<RefPair>)
    requires LedgerInv(l) && DebtFree(l, user) && forall pair :: pair in pairs ==> AcceptedPair(l, user, mint, pair)
    ensures var r := Scan(LoadPairs(l, pairs), user, Addresses(user, {mint})); r.Ok? && r.value.debt == 0
  {
    hide PairTotals, Inv, Addresses;
    if pairs != [] {
      assert pairs[0] in pairs;
      PairOfDebtFree(l, user, mint, pairs[0]);
      ScanOfDebtFree(l, user, mint, pairs[1..]);
      assert LoadPairs(l, pairs)[1..] == LoadPairs(l, pairs[1..]);
    }
  }

  lemma GuardOfDebtFree(l: Ledger, user: Pubkey, mint: Pubkey, p: Position, oracle: PriceUpdate, feedId: FeedId,
                        others: seq<AccountRef>)
    requires LedgerInv(l) && DebtFree(l, user) && p.borrowed == 0 && Quote(oracle, feedId).Ok?
    requires |others| % 2 == 0 && forall pair :: pair in Paired(others) ==> AcceptedPair(l, user, mint, pair)
    ensures var r := OneMain(l, user, mint, p, oracle, feedId, others); r.Ok? && r.value.WithinLimit()
  {
    hide PairTotals, Inv, Addresses, TokenUsd, AtLtv, AcceptedPair, LoadAll, Scan;
    PairedLoads(l, others);
    ScanOfDebtFree(l, user, mint, Paired(others));
    TokenUsdWorthless(0, oracle.price, p.decimals);
  }

  /** One depositor gets everything out exactly when the vault holds it, whatever others owe. */
  lemma DepositorLeavesIff(l: Ledger, mint: Pubkey, e: Exit)
    requires LedgerInv(l) && Entitled(l, mint, e)
    ensures Leave(l, mint, e).Ok? <==> l[mint].positions[e.user].supplied <= l[mint].vault
  {
    hide OneMain, Inv, AcceptedPair, SatMul, SatAdd;
    var b := Touch(l[mint], e.user, e.slot);
    var p := b.positions[e.user];
    GuardOfDebtFree(l, e.user, mint, p.(supplied := 0), e.oracle, b.market.feedId, e.others);
    VaultDecides(l[mint], e.user, e.slot);
  }

  lemma VaultDecides(b: Book, user: Pubkey, slot: u64)
    requires Inv(b) && user in b.positions
    ensures var touched := Touch(b, user, slot);
            var amount := b.positions[user].supplied;
            && touched.positions[user].supplied == amount && amount <= touched.market.totalSupplied
            && (Release(touched, user, user, amount).Ok? <==> amount <= b.vault)
  {
    hide SatMul, SatAdd, Restate;
    SuppliedWithinTotal(b, user, slot);
    TouchConserves(b, user, slot);
    TokensFit(Touch(b, user, slot), user, b.positions[user].supplied);
  }

  // ---------- what a departure leaves to the others ----------

  lemma LeaveDid(l: Ledger, mint: Pubkey, e: Exit)
    requires LedgerInv(l) && Entitled(l, mint, e) && Leave(l, mint, e).Ok?
    ensures var k := Leave(l, mint, e).value;
            && LedgerInv(k) && mint in k && k == l[mint := k[mint]]
            && k[mint].positions.Keys == l[mint].positions.Keys && k[mint].market.feedId == l[mint].market.feedId
            && k[mint].positions[e.user].supplied == 0
            && (forall user :: user in l[mint].positions && user != e.user ==>
               k[mint].positions[user] == l[mint].positions[user])
            && k[mint].vault == l[mint].vault - l[mint].positions[e.user].supplied
            && k[mint].market.totalSupplied == l[mint].market.totalSupplied - l[mint].positions[e.user].supplied
  {
    hide OneMain, Withdraw, LedgerInv, Inv, AcceptedPair, SatMul, SatAdd;
    WithdrawDid(l, e.user, mint, e.slot, l[mint].positions[e.user].supplied, e.oracle, e.others);
    StepInv(l, DoWithdraw(e.user, mint, e.slot, l[mint].positions[e.user].supplied, e.oracle, e.others));
    InvAt(l, mint);
    SuppliedWithinTotal(l[mint], e.user, e.slot);
  }

  lemma InvAt(l: Ledger, mint: Pubkey)
    requires LedgerInv(l) && mint in l
    ensures Inv(l[mint])
  {
  }

  lemma OthersStayEntitled(l: Ledger, k: Ledger, mint: Pubkey, left: Pubkey, e: Exit)
    requires LedgerInv(l) && LedgerInv(k) && Entitled(l, mint, e) && e.user != left
    requires mint in k && k == l[mint := k[mint]] && k[mint].positions.Keys == l[mint].positions.Keys
    requires k[mint].market.feedId == l[mint].market.feedId
    requires forall user :: user in l[mint].positions && user != left ==>
             k[mint].positions[user] == l[mint].positions[user]
    ensures Entitled(k, mint, e)
  {
    hide Inv, PositionTotals, LedgerInv;
    forall pair | pair in Paired(e.others)
      ensures AcceptedPair(k, e.user, mint, pair)
    {
      PairStaysAccepted(l, k, mint, left, e.user, pair);
    }
  }

  lemma PairStaysAccepted(l: Ledger, k: Ledger, mint: Pubkey, left: Pubkey, user: Pubkey, pair: RefPair)
    requires LedgerInv(l) && AcceptedPair(l, user, mint, pair) && user != left
    requires mint in l && mint in k && k == l[mint := k[mint]] && k[mint].positions.Keys == l[mint].positions.Keys
    requires forall u :: u in l[mint].positions && u != left ==> k[mint].positions[u] == l[mint].positions[u]
    ensures AcceptedPair(k, user, mint, pair)
  {
    hide PositionTotals;
    if pair.0.PositionRef? && pair.0.mint in l && pair.0.user in l[pair.0.mint].positions {
      assert WellFormedPosition(l[pair.0.mint].positions[pair.0.user], pair.0.user, l[pair.0.mint].market);
    }
  }

  /** Each depositor of the sequence once, each entitled to leave. */
  ghost predicate Queue(l: Ledger, mint: Pubkey, exits: seq<Exit>) {
    && (forall i :: 0 <= i < |exits| ==> Entitled(l, mint, exits[i]))
    && (forall i, j :: 0 <= i < j < |exits| ==> exits[i].user != exits[j].user)
  }

  lemma QueueMovesUp(l: Ledger, mint: Pubkey, exits: seq<Exit>)
    requires LedgerInv(l) && exits != [] && Queue(l, mint, exits) && Entitled(l, mint, exits[0])
             && Leave(l, mint, exits[0]).Ok?
    ensures Queue(Leave(l, mint, exits[0]).value, mint, exits[1..])
  {
    hide LedgerInv, Entitled, Leave;
    var e := exits[0];
    EntitledHolds(l, mint, e);
    LeaveDid(l, mint, e);
    var k := Leave(l, mint, e).value;
    forall i | 0 <= i < |exits[1..]|
      ensures Entitled(k, mint, exits[1..][i])
    {
      OthersStayEntitled(l, k, mint, e.user, exits[i + 1]);
    }
  }

  lemma EntitledHolds(l: Ledger, mint: Pubkey, e: Exit)
    requires Entitled(l, mint, e)
    ensures mint in l && e.user in l[mint].positions
  {
  }

  /** While the vault covers the stored deposits, depositors leave one after the other, in
      whatever order they come and whoever else stays or owes. */
  lemma {:induction false} EverybodyLeaves(l: Ledger, mint: Pubkey, exits: seq<Exit>)
    requires LedgerInv(l) && Queue(l, mint, exits)
    requires exits != [] ==> mint in l && l[mint].market.totalSupplied <= l[mint].vault
    ensures AllLeave(l, mint, exits)
    decreases |exits|
  {
    hide LedgerInv, Entitled, Leave;
    if exits != [] {
      var e := exits[0];
      EntitledHolds(l, mint, e);
      DepositWithinTotal(l, mint, e.user);
      DepositorLeavesIff(l, mint, e);
      LeaveDid(l, mint, e);
      QueueMovesUp(l, mint, exits);
      EverybodyLeaves(Leave(l, mint, e).value, mint, exits[1..]);
    }
  }

  lemma DepositWithinTotal(l: Ledger, mint: Pubkey, user: Pubkey)
    requires LedgerInv(l) && mint in l && user in l[mint].positions
    ensures l[mint].positions[user].supplied <= l[mint].market.totalSupplied
  {
    hide Total;
    InvAt(l, mint);
    TotalAtLeast(l[mint].positions, Supplied, user);
  }

  /** Everybody with a deposit is in the queue. */
  ghost predicate Everybody(l: Ledger, mint: Pubkey, exits: seq<Exit>) {
    mint in l && forall user :: user in l[mint].positions && 0 < l[mint].positions[user].supplied ==>
        Queued(exits, user)
  }

  ghost predicate Queued(exits: seq<Exit>, user: Pubkey) {
    exists i :: 0 <= i < |exits| && exits[i].user == user
  }

  lemma StillQueued(exits: seq<Exit>, user: Pubkey)
    requires exits != [] && Queued(exits, user) && exits[0].user != user
    ensures Queued(exits[1..], user)
  {
    var i :| 0 <= i < |exits| && exits[i].user == user;
    assert exits[1..][i - 1].user == user;
  }

  /** If everybody got out, the vault covered them all to begin with. */
  lemma {:induction false} EverybodyWasCovered(l: Ledger, mint: Pubkey, exits: seq<Exit>)
    requires LedgerInv(l) && Queue(l, mint, exits) && Everybody(l, mint, exits) && AllLeave(l, mint, exits)
    ensures l[mint].market.totalSupplied <= l[mint].vault
    decreases |exits|
  {
    hide LedgerInv, Inv, Entitled, Leave, Queued;
    InvAt(l, mint);
    if exits == [] {
      NobodyLeft(l[mint], exits);
    } else {
      var e := exits[0];
      LeaveDid(l, mint, e);
      QueueMovesUp(l, mint, exits);
      var k := Leave(l, mint, e).value;
      forall user | user in k[mint].positions && 0 < k[mint].positions[user].supplied
        ensures Queued(exits[1..], user)
      {
        StillQueued(exits, user);
      }
      EverybodyWasCovered(k, mint, exits[1..]);
    }
  }

  lemma NobodyLeft(b: Book, exits: seq<Exit>)
    requires Inv(b) && exits == []
    requires forall user :: user in b.positions && 0 < b.positions[user].supplied ==> Queued(exits, user)
    ensures b.market.totalSupplied == 0
  {
    TotalZero(b.positions, Supplied);
  }

  /** The exact condition, for every run from genesis and every order: the depositors of a market,
      owing nothing anywhere themselves, can all withdraw everything if and only if what others
      still owe the market is covered by the interest it has recognised and what was donated. */
  lemma BankRunSucceedsIff(steps: seq<Step>, mint: Pubkey, exits: seq<Exit>)
    requires var l := Run(map[], steps); Queue(l, mint, exits) && Everybody(l, mint, exits)
    ensures var l := Run(map[], steps);
            AllLeave(l, mint, exits) <==>
            SumBorrowed(l[mint]) <= InterestOver(map[], steps, mint) + DonationsOver(map[], steps, mint)
  {
    hide Run, Inv, AllLeave, Entitled, Queued, InterestOver, DonationsOver;
    var l := Run(map[], steps);
    RunInv(map[], steps);
    LedgerLaw(steps, mint);
    InvAt(l, mint);
    TotalIsSum(l[mint]);
    if AllLeave(l, mint, exits) {
      EverybodyWasCovered(l, mint, exits);
    } else if l[mint].market.totalSupplied <= l[mint].vault {
      EverybodyLeaves(l, mint, exits);
    }
  }

  lemma TotalIsSum(b: Book)
    requires Inv(b)
    ensures b.market.totalSupplied == SumSupplied(b)
  {
  }

  /** In particular: once nobody owes the market anything, and no debt restated in it overflowed
      on the way, any depositors who owe nothing anywhere can leave, in every order. */
  lemma BankRunSucceeds(steps: seq<Step>, mint: Pubkey, exits: seq<Exit>)
    requires FitsThroughout(map[], steps, mint) && mint in Run(map[], steps) && Queue(Run(map[], steps), mint, exits)
    requires var b := Run(map[], steps)[mint]; forall user :: user in b.positions ==> b.positions[user].borrowed == 0
    ensures AllLeave(Run(map[], steps), mint, exits)
  {
    hide Queue, Run, FitsThroughout, Inv, InterestOver, DonationsOver;
    var l := Run(map[], steps);
    RunInv(map[], steps);
    StoredDebtBelowSum(map[], steps, mint);
    LedgerLaw(steps, mint);
    InvAt(l, mint);
    TotalIsSum(l[mint]);
    TotalZero(l[mint].positions, Borrowed);
    EverybodyLeaves(l, mint, exits);
  }
}
