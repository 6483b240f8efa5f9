/** The cross-market health check: valuing one position, walking the caller's list of
    (position, price update) accounts, and what that walk means for a user's whole exposure. */
module Health {
  import opened Arith
  import opened State
  import opened Sums
  import opened Valuation

  /** Running sums in 1e-8 USD, before (`nat`) or after (`Clamp`) 128-bit saturation. */
  datatype Totals = Totals(collatAtLtv: nat, debt: nat) {
    function Plus(that: Totals): Totals {
      Totals(collatAtLtv + that.collatAtLtv, debt + that.debt)
    }

    function Clamp(): Totals {
      Totals(Min(collatAtLtv, U128_MAX), Min(debt, U128_MAX))
    }

    /** The test every guard makes, on saturated sums. */
    predicate WithinLimit() {
      Clamp().debt <= Clamp().collatAtLtv
    }
  }

  const NOTHING := Totals(0, 0)

  function AtLtv(value: u128, maxLtvBps: u16): u128 {
    DivBounds(SatMul(value, maxLtvBps), BPS_DENOMINATOR);
    SatMul(value, maxLtvBps) / BPS_DENOMINATOR
  }

  function PositionTotals(supplied: u64, borrowed: u64, price: Price, decimals: u8, maxLtvBps: u16): Totals {
    Totals(AtLtv(TokenUsd(supplied, price, decimals), maxLtvBps), TokenUsd(borrowed, price, decimals))
  }

  // ---------- accounts passed by the caller ----------

  /** A posted oracle update; `recent` says whether it is at most 300 seconds old. */
  datatype PriceUpdate = PriceUpdate(feedId: FeedId, price: Price, recent: bool)

  function Quote(update: PriceUpdate, feedId: FeedId): Result<Price> {
    if update.recent && update.feedId == feedId then Ok(update.price) else Err(StalePrice)
  }

  /** A position lives at an address derived from its user and mint, and nothing else does. */
  datatype Address = PositionAddress(user: Pubkey, mint: Pubkey) | OtherAddress(id: nat)

  datatype Owner = LendingProgram | OracleProgram | OtherProgram

  datatype Data = PositionData(position: Position) | PriceData(update: PriceUpdate) | Undecodable

  datatype AccountInfo = AccountInfo(key: Address, owner: Owner, data: Data)

  type Pair = (AccountInfo, AccountInfo)

  /** What one (position, price update) pair contributes, or why it is refused. */
  function PairTotals(pair: Pair, user: Pubkey, skip: set<Address>): Result<Totals> {
    var (account, oracle) := pair;
    if account.key in skip then Ok(NOTHING)
    else if !account.owner.LendingProgram? || !account.data.PositionData? then Err(BadPositionAccount)
    else
      var p := account.data.position;
      if p.user != user then Err(BadPositionAccount)
      else if p.supplied == 0 && p.borrowed == 0 then Ok(NOTHING)
      else if !oracle.owner.OracleProgram? || !oracle.data.PriceData? then Err(BadPriceFeed)
      else
        var price :- Quote(oracle.data.update, p.feedId);
        Ok(PositionTotals(p.supplied, p.borrowed, price, p.decimals, p.maxLtvBps))
  }

  /** The unsaturated sum over all pairs, or the first refusal. */
  function Scan(pairs: seq<Pair>, user: Pubkey, skip: set<Address>): Result<Totals> {
    if pairs == [] then Ok(NOTHING)
    else Then(PairTotals(pairs[0], user, skip), Scan(pairs[1..], user, skip))
  }

  /** Adds two outcomes; the first refusal wins. */
  function Then(first: Result<Totals>, second: Result<Totals>): Result<Totals> {
    if first.Err? then first
    else if second.Err? then second
    else Ok(first.value.Plus(second.value))
  }

  function Paired<T>(items: seq<T>): (pairs: seq<(T, T)>)
    requires |items| % 2 == 0
  {
    seq(|items| / 2, i requires 0 <= i < |items| / 2 => (items[2 * i], items[2 * i + 1]))
  }

  /** The specification of both account loops: min(2^128 - 1, start + sum). */
  function Assess(accounts: seq<AccountInfo>, user: Pubkey, skip: set<Address>, start: Totals): (r: Result<Totals>)
    ensures r.Ok? ==> r.value.Clamp() == r.value
  {
    if |accounts| % 2 != 0 then Err(BadRemainingAccounts)
    else
      var sum :- Scan(Paired(accounts), user, skip);
      Ok(start.Plus(sum).Clamp())
  }

  lemma ThenAssociates(x: Result<Totals>, y: Result<Totals>, z: Result<Totals>)
    ensures Then(Then(x, y), z) == Then(x, Then(y, z))
  {
  }

  // ---------- the walk is a sum: order does not matter ----------

  lemma {:induction false} ScanConcat(a: seq<Pair>, b: seq<Pair>, user: Pubkey, skip: set<Address>)
    ensures Scan(a + b, user, skip) == Then(Scan(a, user, skip), Scan(b, user, skip))
  {
    if a == [] {
      assert a + b == b;
    } else {
      assert (a + b)[1..] == a[1..] + b;
      ScanConcat(a[1..], b, user, skip);
      ThenAssociates(PairTotals(a[0], user, skip), Scan(a[1..], user, skip), Scan(b, user, skip));
    }
  }

  /** Accepted or refused alike, and with the same totals when accepted. */
  ghost predicate SameVerdict(x: Result<Totals>, y: Result<Totals>) {
    if x.Ok? then x == y else y.Err?
  }

  lemma ScanMoveFirst(before: seq<Pair>, pair: Pair, after: seq<Pair>, user: Pubkey, skip: set<Address>)
    ensures SameVerdict(Scan(before + ([pair] + after), user, skip),
                        Then(PairTotals(pair, user, skip), Scan(before + after, user, skip)))
  {
    hide PairTotals;
    ScanConcat(before, [pair] + after, user, skip);
    ScanConcat(before, after, user, skip);
    assert ([pair] + after)[1..] == after;
    ThenCommutes(Scan(before, user, skip), PairTotals(pair, user, skip), Scan(after, user, skip));
  }

  lemma ThenCommutes(x: Result<Totals>, y: Result<Totals>, z: Result<Totals>)
    ensures SameVerdict(Then(x, Then(y, z)), Then(y, Then(x, z)))
  {
  }

  /** Listing the same pairs in another order is accepted or refused alike, and an
      accepted listing has the same totals. */
  lemma {:induction false} ScanPermutation(a: seq<Pair>, b: seq<Pair>, user: Pubkey, skip: set<Address>)
    requires multiset(a) == multiset(b)
    ensures SameVerdict(Scan(a, user, skip), Scan(b, user, skip))
    decreases |a|
  {
    hide PairTotals;
    if a == [] {
      assert |multiset(b)| == 0;
    } else {
      var j := PermutationHead(a, b);
      ScanPermutation(a[1..], b[..j] + b[j + 1..], user, skip);
      ScanMoveFirst(b[..j], b[j], b[j + 1..], user, skip);
    }
  }

  /** So an account list may be reordered pair by pair without changing what either loop returns. */
  lemma AssessPermutation(a: seq<AccountInfo>, b: seq<AccountInfo>, user: Pubkey, skip: set<Address>, start: Totals)
    requires |a| % 2 == 0 && |b| % 2 == 0 && multiset(Paired(a)) == multiset(Paired(b))
    ensures SameVerdict(Assess(a, user, skip, start), Assess(b, user, skip, start))
  {
    hide PairTotals, Scan;
    ScanPermutation(Paired(a), Paired(b), user, skip);
  }

  lemma PermutationHead<T>(a: seq<T>, b: seq<T>) returns (j: nat)
    requires multiset(a) == multiset(b) && a != []
    ensures j < |b| && b[j] == a[0] && b == b[..j] + ([b[j]] + b[j + 1..])
    ensures multiset(a[1..]) == multiset(b[..j] + b[j + 1..])
  {
    assert a[0] in multiset(b);
    j :| 0 <= j < |b| && b[j] == a[0];
    assert b == b[..j] + ([b[j]] + b[j + 1..]);
    assert a == [a[0]] + a[1..];
    assert multiset(a[1..]) == multiset(a) - multiset{a[0]};
    assert multiset(b[..j] + b[j + 1..]) == multiset(b) - multiset{b[j]};
  }

  lemma {:induction false} ScanErrors(pairs: seq<Pair>, user: Pubkey, skip: set<Address>)
    ensures var r := Scan(pairs, user, skip);
            r.Err? ==> r.error in {BadPositionAccount, BadPriceFeed, StalePrice}
  {
    hide PositionTotals;
    if pairs != [] {
      ScanErrors(pairs[1..], user, skip);
    }
  }

  // ---------- which accounts are refused, and what the others add ----------

  /** The account is a position of this user, kept by this program. */
  predicate IsPositionOf(account: AccountInfo, user: Pubkey) {
    account.owner.LendingProgram? && account.data.PositionData? && account.data.position.user == user
  }

  predicate HasBalance(account: AccountInfo) {
    account.data.PositionData? && (account.data.position.supplied != 0 || account.data.position.borrowed != 0)
  }

  /** The account is a price update, kept by the oracle. */
  predicate IsPriceUpdate(oracle: AccountInfo) {
    oracle.owner.OracleProgram? && oracle.data.PriceData?
  }

  predicate Prices(oracle: AccountInfo, feedId: FeedId) {
    oracle.data.PriceData? && oracle.data.update.recent && oracle.data.update.feedId == feedId
  }

  /** Main positions are passed over whatever else is said of them; any other account must be a
      position of the user's, and come with a recent update for its feed if it has a balance. */
  predicate Accepted(account: AccountInfo, oracle: AccountInfo, user: Pubkey, skip: set<Address>) {
    account.key in skip
    || (IsPositionOf(account, user)
        && (HasBalance(account) ==> IsPriceUpdate(oracle) && Prices(oracle, account.data.position.feedId)))
  }

  /** What the first account that is not accepted is refused for. */
  function RefusedFor(account: AccountInfo, oracle: AccountInfo, user: Pubkey): Error {
    if !IsPositionOf(account, user) then BadPositionAccount
    else if !IsPriceUpdate(oracle) then BadPriceFeed
    else StalePrice
  }

  /** The error of the first pair that is not accepted. */
  function FirstRefusal(pairs: seq<Pair>, user: Pubkey, skip: set<Address>): Option<Error> {
    if pairs == [] then None
    else if !Accepted(pairs[0].0, pairs[0].1, user, skip) then Some(RefusedFor(pairs[0].0, pairs[0].1, user))
    else FirstRefusal(pairs[1..], user, skip)
  }

  /** What an accepted pair adds: nothing if it is skipped or empty, else its collateral at LTV and
      its debt, at the price of the update beside it. */
  function Contribution(account: AccountInfo, oracle: AccountInfo, skip: set<Address>): Totals {
    if account.key in skip || !HasBalance(account) || !oracle.data.PriceData? then NOTHING
    else
      var p, price := account.data.position, oracle.data.update.price;
      Totals(AtLtv(TokenUsd(p.supplied, price, p.decimals), p.maxLtvBps), TokenUsd(p.borrowed, price, p.decimals))
  }

  function SumOf(pairs: seq<Pair>, skip: set<Address>): Totals {
    if pairs == [] then NOTHING else Contribution(pairs[0].0, pairs[0].1, skip).Plus(SumOf(pairs[1..], skip))
  }

  lemma PairDecides(pair: Pair, user: Pubkey, skip: set<Address>)
    ensures PairTotals(pair, user, skip) ==
            if Accepted(pair.0, pair.1, user, skip) then Ok(Contribution(pair.0, pair.1, skip))
            else Err(RefusedFor(pair.0, pair.1, user))
  {
    hide TokenUsd, AtLtv;
  }

  lemma {:induction false} ScanDecides(pairs: seq<Pair>, user: Pubkey, skip: set<Address>)
    ensures var refusal := FirstRefusal(pairs, user, skip);
            Scan(pairs, user, skip) == if refusal.Some? then Err(refusal.value) else Ok(SumOf(pairs, skip))
  {
    hide PairTotals, Contribution, Accepted, RefusedFor;
    if pairs != [] {
      PairDecides(pairs[0], user, skip);
      ScanDecides(pairs[1..], user, skip);
    }
  }

  lemma {:induction false} FirstRefusalIsFirst(pairs: seq<Pair>, user: Pubkey, skip: set<Address>)
    ensures FirstRefusal(pairs, user, skip).None?
       <==> forall i :: 0 <= i < |pairs| ==> Accepted(pairs[i].0, pairs[i].1, user, skip)
    ensures FirstRefusal(pairs, user, skip).Some? ==>
              exists i :: IsFirstRefused(pairs, i, user, skip)
                          && FirstRefusal(pairs, user, skip).value == RefusedFor(pairs[i].0, pairs[i].1, user)
  {
    hide Accepted, RefusedFor;
    if pairs != [] {
      var rest := pairs[1..];
      FirstRefusalIsFirst(rest, user, skip);
      if !Accepted(pairs[0].0, pairs[0].1, user, skip) {
        assert IsFirstRefused(pairs, 0, user, skip);
      } else {
        assert forall i :: 0 <= i < |rest| ==> rest[i] == pairs[i + 1];
        assert forall i :: 1 <= i < |pairs| ==> pairs[i] == rest[i - 1];
        if FirstRefusal(rest, user, skip).Some? {
          var i :| IsFirstRefused(rest, i, user, skip)
                   && FirstRefusal(rest, user, skip).value == RefusedFor(rest[i].0, rest[i].1, user);
          assert IsFirstRefused(pairs, i + 1, user, skip);
        }
      }
    }
  }

  ghost predicate IsFirstRefused(pairs: seq<Pair>, i: int, user: Pubkey, skip: set<Address>) {
    && 0 <= i < |pairs| && !Accepted(pairs[i].0, pairs[i].1, user, skip)
    && forall j :: 0 <= j < i ==> Accepted(pairs[j].0, pairs[j].1, user, skip)
  }

  /** Both loops, for any accounts whatever: an odd list is refused as such; a list of pairs is refused
      exactly when some pair is not acceptable, for what is wrong with the first such pair; and an
      accepted list adds the values of its positions, cut off at 2^128 - 1. */
  ghost predicate Verdict(accounts: seq<AccountInfo>, user: Pubkey, skip: set<Address>, start: Totals,
                          r: Result<Totals>) {
    if |accounts| % 2 != 0 then r == Err(BadRemainingAccounts)
    else
      var pairs := Paired(accounts);
      && (r.Ok? <==> forall i :: 0 <= i < |accounts| / 2 ==> Accepted(accounts[2 * i], accounts[2 * i + 1], user, skip))
      && (r.Ok? ==> r.value == start.Plus(SumOf(pairs, skip)).Clamp())
      && (r.Err? ==> exists i :: IsFirstRefused(pairs, i, user, skip)
                                 && r.error == RefusedFor(pairs[i].0, pairs[i].1, user))
  }

  lemma AssessDecides(accounts: seq<AccountInfo>, user: Pubkey, skip: set<Address>, start: Totals)
    ensures Verdict(accounts, user, skip, start, Assess(accounts, user, skip, start))
  {
    hide Accepted, RefusedFor, Scan, SumOf, IsFirstRefused, FirstRefusal;
    if |accounts| % 2 == 0 {
      var pairs := Paired(accounts);
      ScanDecides(pairs, user, skip);
      FirstRefusalIsFirst(pairs, user, skip);
      assert forall i :: 0 <= i < |pairs| ==> pairs[i] == (accounts[2 * i], accounts[2 * i + 1]);
    }
  }

  // ---------- a complete listing measures the whole exposure ----------

  /** How an instruction names a further account: a position by its derived address,
      a price update with its content, or anything else. */
  datatype AccountRef =
    | PositionRef(user: Pubkey, mint: Pubkey)
    | PriceRef(update: PriceUpdate)
    | ForeignRef(owner: Owner, id: nat)

  /** The account the runtime hands to the program, as stored before the instruction. */
  function Load(l: Ledger, ref: AccountRef): AccountInfo {
    match ref
    case PositionRef(user, mint) =>
      if mint in l && user in l[mint].positions then
        AccountInfo(PositionAddress(user, mint), LendingProgram, PositionData(l[mint].positions[user]))
      else
        AccountInfo(PositionAddress(user, mint), OtherProgram, Undecodable)
    case PriceRef(update) => AccountInfo(OtherAddress(0), OracleProgram, PriceData(update))
    case ForeignRef(owner, id) => AccountInfo(OtherAddress(id), owner, Undecodable)
  }

  function LoadAll(l: Ledger, refs: seq<AccountRef>): (accounts: seq<AccountInfo>)
    ensures |accounts| == |refs|
  {
    seq(|refs|, i requires 0 <= i < |refs| => Load(l, refs[i]))
  }

  type RefPair = (AccountRef, AccountRef)

  function LoadPairs(l: Ledger, pairs: seq<RefPair>): (accounts: seq<Pair>) {
    seq(|pairs|, i requires 0 <= i < |pairs| => (Load(l, pairs[i].0), Load(l, pairs[i].1)))
  }

  lemma PairedLoads(l: Ledger, refs: seq<AccountRef>)
    requires |refs| % 2 == 0
    ensures Paired(LoadAll(l, refs)) == LoadPairs(l, Paired(refs))
  {
  }

  /** One price per feed: the prices of the moment. */
  type Quotes = FeedId -> Price

  predicate AgreesWith(update: PriceUpdate, quotes: Quotes) {
    update.recent ==> update.price == quotes(update.feedId)
  }

  predicate RefsAgree(refs: seq<AccountRef>, quotes: Quotes) {
    forall i :: 0 <= i < |refs| && refs[i].PriceRef? ==> AgreesWith(refs[i].update, quotes)
  }

  function Valued(p: Position, quotes: Quotes): Totals {
    PositionTotals(p.supplied, p.borrowed, quotes(p.feedId), p.decimals, p.maxLtvBps)
  }

  function BookTotals(b: Book, user: Pubkey, quotes: Quotes): Totals {
    if user in b.positions then Valued(b.positions[user], quotes) else NOTHING
  }

  function CollatOf(user: Pubkey, quotes: Quotes): Book -> nat {
    (b: Book) => BookTotals(b, user, quotes).collatAtLtv
  }

  function DebtOf(user: Pubkey, quotes: Quotes): Book -> nat {
    (b: Book) => BookTotals(b, user, quotes).debt
  }

  /** A user's collateral at LTV and debt over every market, stored debts at given prices. */
  ghost function Exposure(l: Ledger, user: Pubkey, quotes: Quotes): Totals {
    Totals(Total(l, CollatOf(user, quotes)), Total(l, DebtOf(user, quotes)))
  }

  lemma ExposureRemove(l: Ledger, mint: Pubkey, user: Pubkey, quotes: Quotes)
    requires mint in l
    ensures Exposure(l, user, quotes) == BookTotals(l[mint], user, quotes).Plus(Exposure(l - {mint}, user, quotes))
  {
    hide BookTotals;
    TotalRemove(l, CollatOf(user, quotes), mint);
    TotalRemove(l, DebtOf(user, quotes), mint);
  }

  predicate Active(b: Book, user: Pubkey) {
    user in b.positions && (b.positions[user].supplied != 0 || b.positions[user].borrowed != 0)
  }

  lemma InactiveIsNothing(b: Book, user: Pubkey, quotes: Quotes)
    requires !Active(b, user)
    ensures BookTotals(b, user, quotes) == NOTHING
  {
    if user in b.positions {
      var p := b.positions[user];
      var price := quotes(p.feedId);
      TokenUsdWorthless(0, price, p.decimals);
      assert 0 * p.maxLtvBps == 0;
    }
  }

  /** Position accounts hold the user they are derived from. */
  ghost predicate Owned(l: Ledger) {
    forall mint, user :: mint in l && user in l[mint].positions ==> l[mint].positions[user].user == user
  }

  /** Every market outside `skip` where the user has a balance is listed, and no position
      account is listed twice. */
  ghost predicate Complete(l: Ledger, user: Pubkey, pairs: seq<RefPair>, skip: set<Pubkey>) {
    && (forall i, j :: 0 <= i < j < |pairs| ==> pairs[i].0 != pairs[j].0)
    && (forall mint :: mint in l && mint !in skip && Active(l[mint], user) ==> Listed(pairs, PositionRef(user, mint)))
  }

  ghost predicate Listed(pairs: seq<RefPair>, ref: AccountRef) {
    exists i :: 0 <= i < |pairs| && pairs[i].0 == ref
  }

  function Addresses(user: Pubkey, mints: set<Pubkey>): set<Address> {
    set mint | mint in mints :: PositionAddress(user, mint)
  }

  /** An accepted pair contributes exactly what its market contributes to the exposure. */
  lemma PairMeans(l: Ledger, pair: RefPair, user: Pubkey, skip: set<Pubkey>, quotes: Quotes)
    requires Owned(l) && (pair.1.PriceRef? ==> AgreesWith(pair.1.update, quotes))
    requires PairTotals((Load(l, pair.0), Load(l, pair.1)), user, Addresses(user, skip)).Ok?
    ensures var value := PairTotals((Load(l, pair.0), Load(l, pair.1)), user, Addresses(user, skip)).value;
            || (value == NOTHING && (pair.0.PositionRef? && pair.0.mint in l && pair.0.user == user ==>
                                       pair.0.mint in skip || !Active(l[pair.0.mint], user)))
            || (pair.0.PositionRef? && pair.0.user == user && pair.0.mint in l && pair.0.mint !in skip
                && Active(l[pair.0.mint], user) && value == BookTotals(l[pair.0.mint], user, quotes))
  {
  }

  /** Every accepted market of the list is still in `rest`, and `rest` is part of the ledger. */
  ghost predicate Confined(l: Ledger, rest: Ledger, pairs: seq<RefPair>, user: Pubkey, skip: set<Pubkey>) {
    && (forall mint :: mint in rest ==> mint in l && l[mint] == rest[mint] && mint !in skip)
    && (forall pair | pair in pairs && pair.0.PositionRef? && pair.0.user == user && pair.0.mint in l
                      && pair.0.mint !in skip && Active(l[pair.0.mint], user) :: pair.0.mint in rest)
  }

  ghost predicate PairsAgree(pairs: seq<RefPair>, quotes: Quotes) {
    forall pair :: pair in pairs && pair.1.PriceRef? ==> AgreesWith(pair.1.update, quotes)
  }

  /** The heart of the health check: over a complete listing, an accepted walk computes the
      exposure of all the markets it was not told to skip. `rest` is what remains to be met. */
  lemma {:induction false} ScanIsExposure(l: Ledger, rest: Ledger, pairs: seq<RefPair>, user: Pubkey,
                                          skip: set<Pubkey>, quotes: Quotes)
    requires Owned(l) && Confined(l, rest, pairs, user, skip) && PairsAgree(pairs, quotes)
    requires Complete(rest, user, pairs, skip)
    requires Scan(LoadPairs(l, pairs), user, Addresses(user, skip)).Ok?
    ensures Scan(LoadPairs(l, pairs), user, Addresses(user, skip)).value == Exposure(rest, user, quotes)
    decreases |pairs|
  {
    hide BookTotals, PairTotals, Exposure, Addresses, Complete, Confined, PairsAgree, Owned, Scan, LoadPairs, Active;
    ScanUnfolds(l, pairs, user, Addresses(user, skip));
    if pairs == [] {
      RestNotSkipped(l, rest, user, skip);
      NothingListed(rest, user, skip, quotes);
    } else {
      var ref, tail := pairs[0].0, pairs[1..];
      FirstAgrees(pairs, quotes);
      RestIsPart(l, rest, pairs, user, skip);
      PairMeans(l, pairs[0], user, skip, quotes);
      if ref.PositionRef? && ref.user == user && ref.mint in rest && Active(rest[ref.mint], user) {
        TailOfListing(l, rest, rest - {ref.mint}, pairs, user, skip, quotes);
        ScanIsExposure(l, rest - {ref.mint}, tail, user, skip, quotes);
        ExposureRemove(rest, ref.mint, user, quotes);
      } else {
        TailOfListing(l, rest, rest, pairs, user, skip, quotes);
        ScanIsExposure(l, rest, tail, user, skip, quotes);
      }
    }
  }

  lemma ScanUnfolds(l: Ledger, pairs: seq<RefPair>, user: Pubkey, skip: set<Address>)
    ensures Scan(LoadPairs(l, pairs), user, skip) ==
            if pairs == [] then Ok(NOTHING)
            else Then(PairTotals((Load(l, pairs[0].0), Load(l, pairs[0].1)), user, skip),
                Scan(LoadPairs(l, pairs[1..]), user, skip))
  {
    hide PairTotals, Load;
    if pairs != [] {
      assert LoadPairs(l, pairs)[1..] == LoadPairs(l, pairs[1..]);
    }
  }

  lemma FirstAgrees(pairs: seq<RefPair>, quotes: Quotes)
    requires pairs != [] && PairsAgree(pairs, quotes)
    ensures pairs[0].1.PriceRef? ==> AgreesWith(pairs[0].1.update, quotes)
  {
    assert pairs[0] in pairs;
  }

  lemma RestNotSkipped(l: Ledger, rest: Ledger, user: Pubkey, skip: set<Pubkey>)
    requires Confined(l, rest, [], user, skip)
    ensures forall mint :: mint in rest ==> mint !in skip
  {
  }

  /** Within a confined listing, the head names a market still to be met, or nothing that counts. */
  lemma RestIsPart(l: Ledger, rest: Ledger, pairs: seq<RefPair>, user: Pubkey, skip: set<Pubkey>)
    requires pairs != [] && Confined(l, rest, pairs, user, skip)
    ensures var ref := pairs[0].0;
            ref.PositionRef? && ref.user == user ==>
              && (ref.mint in rest ==> ref.mint in l && l[ref.mint] == rest[ref.mint] && ref.mint !in skip)
              && (ref.mint in l && ref.mint !in skip && Active(l[ref.mint], user) ==> ref.mint in rest)
  {
    hide Active;
    assert pairs[0] in pairs;
  }

  lemma NothingListed(rest: Ledger, user: Pubkey, skip: set<Pubkey>, quotes: Quotes)
    requires Complete(rest, user, [], skip) && forall mint :: mint in rest ==> mint !in skip
    ensures Exposure(rest, user, quotes) == NOTHING
  {
    hide BookTotals;
    forall mint | mint in rest
      ensures BookTotals(rest[mint], user, quotes) == NOTHING
    {
      InactiveIsNothing(rest[mint], user, quotes);
    }
    TotalZero(rest, CollatOf(user, quotes));
    TotalZero(rest, DebtOf(user, quotes));
  }

  /** Dropping the head of a listing, and with it the market it names if that was active. */
  lemma TailOfListing(l: Ledger, rest: Ledger, less: Ledger, pairs: seq<RefPair>, user: Pubkey, skip: set<Pubkey>,
                      quotes: Quotes)
    requires pairs != [] && Confined(l, rest, pairs, user, skip) && Complete(rest, user, pairs, skip)
             && PairsAgree(pairs, quotes)
    requires var ref := pairs[0].0;
             if ref.PositionRef? && ref.user == user && ref.mint in rest && Active(rest[ref.mint], user)
             then less == rest - {ref.mint} else less == rest
    ensures Confined(l, less, pairs[1..], user, skip) && Complete(less, user, pairs[1..], skip)
            && PairsAgree(pairs[1..], quotes)
  {
    hide Active;
    var tail := pairs[1..];
    forall mint | mint in less && mint !in skip && Active(less[mint], user)
      ensures Listed(tail, PositionRef(user, mint))
    {
      ListedInTail(pairs, PositionRef(user, mint));
    }
    forall pair | pair in tail && pair.0.PositionRef? && pair.0.user == user && pair.0.mint in l
                  && pair.0.mint !in skip && Active(l[pair.0.mint], user)
      ensures pair.0.mint in less
    {
      var j :| 0 <= j < |tail| && tail[j] == pair;
      assert pairs[j + 1] == pair && pair in pairs;
      assert pairs[0].0 != pairs[j + 1].0;
    }
  }

  lemma ListedInTail(pairs: seq<RefPair>, ref: AccountRef)
    requires Listed(pairs, ref) && pairs != [] && pairs[0].0 != ref
    ensures Listed(pairs[1..], ref)
  {
    var i :| 0 <= i < |pairs| && pairs[i].0 == ref;
    assert pairs[1..][i - 1].0 == ref;
  }

  lemma PricesOfPairs(refs: seq<AccountRef>, quotes: Quotes)
    requires |refs| % 2 == 0 && RefsAgree(refs, quotes)
    ensures PairsAgree(Paired(refs), quotes)
  {
  }

  /** With one main position of `user`: what is listed plus the main position is everything. */
  lemma OneMainIsExposure(l: Ledger, mint: Pubkey, refs: seq<AccountRef>, user: Pubkey, quotes: Quotes, start: Totals)
    requires Owned(l) && mint in l && |refs| % 2 == 0
    requires Complete(l, user, Paired(refs), {mint}) && RefsAgree(refs, quotes)
    requires Assess(LoadAll(l, refs), user, Addresses(user, {mint}), start).Ok?
    ensures Assess(LoadAll(l, refs), user, Addresses(user, {mint}), start).value
         == start.Plus(Exposure(l - {mint}, user, quotes)).Clamp()
  {
    hide Exposure, PairTotals;
    PairedLoads(l, refs);
    PricesOfPairs(refs, quotes);
    ScanIsExposure(l, l - {mint}, Paired(refs), user, {mint}, quotes);
  }

  /** With two main positions, likewise: liquidation sees what borrowing saw. */
  lemma TwoMainIsExposure(l: Ledger, m1: Pubkey, m2: Pubkey, refs: seq<AccountRef>, user: Pubkey, quotes: Quotes,
                          start: Totals)
    requires Owned(l) && m1 in l && m2 in l && m1 != m2 && |refs| % 2 == 0
    requires Complete(l, user, Paired(refs), {m1, m2}) && RefsAgree(refs, quotes)
    requires Assess(LoadAll(l, refs), user, Addresses(user, {m1, m2}), start).Ok?
    ensures Assess(LoadAll(l, refs), user, Addresses(user, {m1, m2}), start).value
         == start.Plus(Exposure(l - {m1} - {m2}, user, quotes)).Clamp()
  {
    hide Exposure, PairTotals;
    PairedLoads(l, refs);
    PricesOfPairs(refs, quotes);
    assert l - {m1} - {m2} == l - {m1, m2};
    ScanIsExposure(l, l - {m1, m2}, Paired(refs), user, {m1, m2}, quotes);
  }
}
