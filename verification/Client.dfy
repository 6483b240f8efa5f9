/** How the client lists a wallet's other positions for the program's health check, and what
    the program makes of that list. */
module Client {
  import opened Arith
  import opened State
  import opened Health
  import opened Instructions
  import opened LedgerRuns
  import opened HealthGuards
  import opened Acceptance

  predicate Distinct(markets: seq<Pubkey>) {
    forall i, j :: 0 <= i < j < |markets| ==> markets[i] != markets[j]
  }

  /** The pairs for the markets walked so far: every other market with a balance, once. */
  ghost predicate Gathered(l: Ledger, user: Pubkey, exclude: Pubkey, walked: seq<Pubkey>, pairs: seq<RefPair>,
                           latest: FeedId -> PriceUpdate) {
    && (forall pair :: pair in pairs ==> OtherMarket(l, user, exclude, walked, pair, latest))
    && (forall i, j :: 0 <= i < j < |pairs| ==> pairs[i].0 != pairs[j].0)
    && (forall mint :: mint in walked && mint in l && mint != exclude && Active(l[mint], user) ==>
       Listed(pairs, PositionRef(user, mint)))
  }

  predicate OtherMarket(l: Ledger, user: Pubkey, exclude: Pubkey, walked: seq<Pubkey>, pair: RefPair,
                        latest: FeedId -> PriceUpdate) {
    && pair.0.PositionRef? && pair.0.user == user && pair.0.mint in l && pair.0.mint != exclude && pair.0.mint in walked
    && Active(l[pair.0.mint], user) && pair.1 == PriceRef(latest(l[pair.0.mint].market.feedId))
  }

  lemma GatherNothing(l: Ledger, user: Pubkey, exclude: Pubkey, walked: seq<Pubkey>, mint: Pubkey, pairs: seq<RefPair>,
                      latest: FeedId -> PriceUpdate)
    requires Gathered(l, user, exclude, walked, pairs, latest)
    requires mint == exclude || mint !in l || !Active(l[mint], user)
    ensures Gathered(l, user, exclude, walked + [mint], pairs, latest)
  {
    hide Active, Listed;
  }

  lemma GatherOne(l: Ledger, user: Pubkey, exclude: Pubkey, walked: seq<Pubkey>, mint: Pubkey, pairs: seq<RefPair>,
                  latest: FeedId -> PriceUpdate)
    requires Gathered(l, user, exclude, walked, pairs, latest) && mint !in walked
    requires mint != exclude && mint in l && Active(l[mint], user)
    ensures Gathered(l, user, exclude, walked + [mint],
            pairs + [(PositionRef(user, mint), PriceRef(latest(l[mint].market.feedId)))], latest)
  {
    hide Active;
    var longer := pairs + [(PositionRef(user, mint), PriceRef(latest(l[mint].market.feedId)))];
    assert longer[|pairs|].0 == PositionRef(user, mint);
    forall m | Listed(pairs, PositionRef(user, m))
      ensures Listed(longer, PositionRef(user, m))
    {
      var i :| 0 <= i < |pairs| && pairs[i].0 == PositionRef(user, m);
      assert longer[i].0 == PositionRef(user, m);
    }
    forall i | 0 <= i < |pairs|
      ensures longer[i].0 != PositionRef(user, mint)
    {
      assert pairs[i] in pairs;
    }
  }

  /** The list the client sends along: whole pairs, every other active market once, and nothing else. */
  ghost predicate Collected(l: Ledger, user: Pubkey, exclude: Pubkey, markets: seq<Pubkey>, out: seq<AccountRef>,
                            latest: FeedId -> PriceUpdate) {
    && |out| % 2 == 0 && Complete(l, user, Paired(out), {exclude})
    && forall pair :: pair in Paired(out) ==> OtherMarket(l, user, exclude, markets, pair, latest)
  }

  /** Walks the configured markets, skipping one and those without a balance, and appends a
      (position, price update) pair for each of the rest. When the configuration knows every
      market once, the list is complete in the sense the health theorems need. */
  method CollectCrossAccounts(markets: seq<Pubkey>, exclude: Pubkey, user: Pubkey, l: Ledger,
                              latest: FeedId -> PriceUpdate)
    returns (out: seq<AccountRef>)
    requires Distinct(markets) && forall mint :: mint in l ==> mint in markets
    ensures Collected(l, user, exclude, markets, out, latest)
  {
    hide Active, Listed, Gathered, OtherMarket;
    ghost var pairs: seq<RefPair> := [];
    out := [];
    GatherStart(l, user, exclude, latest);
    for k := 0 to |markets|
      invariant |out| == 2 * |pairs| && Paired(out) == pairs
      invariant Gathered(l, user, exclude, markets[..k], pairs, latest)
    {
      var mint := markets[k];
      assert markets[..k + 1] == markets[..k] + [mint] && mint !in markets[..k];
      if mint == exclude {
        GatherNothing(l, user, exclude, markets[..k], mint, pairs, latest);
        continue;
      }
      if mint !in l || !Active(l[mint], user) {
        GatherNothing(l, user, exclude, markets[..k], mint, pairs, latest);
        continue;
      }
      GatherOne(l, user, exclude, markets[..k], mint, pairs, latest);
      ghost var pair := (PositionRef(user, mint), PriceRef(latest(l[mint].market.feedId)));
      ghost var shorter := out;
      out := out + [PositionRef(user, mint)];
      out := out + [PriceRef(latest(l[mint].market.feedId))];
      PairedAppend(shorter, pair.0, pair.1);
      pairs := pairs + [pair];
    }
    assert markets[..|markets|] == markets;
    GatheredIsComplete(l, user, exclude, markets, pairs, latest);
  }

  lemma GatherStart(l: Ledger, user: Pubkey, exclude: Pubkey, latest: FeedId -> PriceUpdate)
    ensures Gathered(l, user, exclude, [], [], latest)
  {
  }

  lemma PairedAppend<T>(items: seq<T>, x: T, y: T)
    requires |items| % 2 == 0
    ensures Paired(items + [x] + [y]) == Paired(items) + [(x, y)]
  {
  }

  lemma GatheredIsComplete(l: Ledger, user: Pubkey, exclude: Pubkey, markets: seq<Pubkey>, pairs: seq<RefPair>,
                           latest: FeedId -> PriceUpdate)
    requires Gathered(l, user, exclude, markets, pairs, latest) && forall mint :: mint in l ==> mint in markets
    ensures Complete(l, user, pairs, {exclude})
    ensures forall pair :: pair in pairs ==> OtherMarket(l, user, exclude, markets, pair, latest)
  {
    hide Active, Listed;
  }

  // ---------- what the program makes of the list ----------

  /** The updates the client resolves are recent, for the right feeds, and at the prices of the moment. */
  ghost predicate Live(l: Ledger, latest: FeedId -> PriceUpdate, quotes: Quotes) {
    forall mint :: mint in l ==>
      latest(l[mint].market.feedId) == PriceUpdate(l[mint].market.feedId, quotes(l[mint].market.feedId), true)
  }

  lemma CollectedBacked(l: Ledger, user: Pubkey, exclude: Pubkey, markets: seq<Pubkey>, out: seq<AccountRef>,
                        latest: FeedId -> PriceUpdate, quotes: Quotes)
    requires Collected(l, user, exclude, markets, out, latest) && Live(l, latest, quotes)
    ensures forall pair :: pair in Paired(out) ==> Backed(l, user, {exclude}, pair, quotes)
  {
    hide Complete, Paired;
  }

  /** With live updates the list is complete, at current prices, and refused nowhere. */
  lemma CollectedListable(l: Ledger, user: Pubkey, exclude: Pubkey, markets: seq<Pubkey>, out: seq<AccountRef>,
                          latest: FeedId -> PriceUpdate, quotes: Quotes)
    requires LedgerInv(l) && Collected(l, user, exclude, markets, out, latest) && Live(l, latest, quotes)
    ensures CompleteOthers(l, user, out, {exclude}, quotes) && Listable(l, user, {exclude}, out)
  {
    hide Complete, LedgerInv, Live, OtherMarket, Listable, Paired, Backed;
    CollectedBacked(l, user, exclude, markets, out, latest, quotes);
    BackedListable(l, user, {exclude}, out, quotes);
  }

  /** End to end: with the list the client builds and live prices, `borrow` is decided by the vault,
      the user's own deposit and the user's exposure alone; no listed account is ever refused. */
  lemma ClientBorrowSucceedsIff(l: Ledger, user: Pubkey, mint: Pubkey, slot: u64, amount: u64, markets: seq<Pubkey>,
                                out: seq<AccountRef>, latest: FeedId -> PriceUpdate, quotes: Quotes)
    requires LedgerInv(l) && mint in l && user in l[mint].positions
    requires Collected(l, user, mint, markets, out, latest) && Live(l, latest, quotes)
    ensures var b := Touch(l[mint], user, slot);
            var p := b.positions[user];
            Borrow(l, user, mint, slot, amount, latest(l[mint].market.feedId), out).Ok? <==>
            && 0 < amount <= l[mint].vault && p.supplied == 0
            && p.borrowed + amount <= U64_MAX && l[mint].market.totalBorrowed + amount <= U64_MAX
            && var after := WithPosition(b, user, p.(borrowed := p.borrowed + amount));
               Exposure(l[mint := after], user, quotes).WithinLimit()
  {
    hide Exposure, LedgerInv, Collected, CompleteOthers, Listable, Touch, Borrow;
    CollectedListable(l, user, mint, markets, out, latest, quotes);
    BorrowSucceedsIff(l, user, mint, slot, amount, latest(l[mint].market.feedId), out, quotes);
  }

  /** Likewise `withdraw`. */
  lemma ClientWithdrawSucceedsIff(l: Ledger, user: Pubkey, mint: Pubkey, slot: u64, amount: u64, markets: seq<Pubkey>,
                                  out: seq<AccountRef>, latest: FeedId -> PriceUpdate, quotes: Quotes)
    requires LedgerInv(l) && mint in l && user in l[mint].positions
    requires Collected(l, user, mint, markets, out, latest) && Live(l, latest, quotes)
    ensures var b := Touch(l[mint], user, slot);
            var p := b.positions[user];
            Withdraw(l, user, mint, slot, amount, latest(l[mint].market.feedId), out).Ok? <==>
            && 0 < amount <= l[mint].vault && amount <= p.supplied
            && var after := WithPosition(b, user, p.(supplied := p.supplied - amount));
               Exposure(l[mint := after], user, quotes).WithinLimit()
  {
    hide Exposure, LedgerInv, Collected, CompleteOthers, Listable, Touch, Withdraw;
    CollectedListable(l, user, mint, markets, out, latest, quotes);
    WithdrawSucceedsIff(l, user, mint, slot, amount, latest(l[mint].market.feedId), out, quotes);
  }
}
