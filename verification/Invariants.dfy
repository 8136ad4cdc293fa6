/** What every committed transaction keeps: the pools index the bets, each bet's
    sales form an unbroken ownership chain, and listings match their bets. */
module Invariants {
  import opened Int64
  import opened Sums
  import opened Tables
  import opened Wrappers
  import opened Transactions

  // ----------------------------------------------------------------- invariant

  predicate BalancesOk(db: Db) {
    |db.balances| > 0 && WithinColumn(db.balances)
  }

  predicate MarketOk(market: Market, m: MarketId, pools: map<PoolKey, nat>) {
    && |market.outcomes| >= 2 && Storable(market.outcomes)
    && market.seed >= 0
    && (market.status == Resolved <==> market.winner.Some?)
    && (market.winner.Some? ==>
          market.winner.value in market.outcomes && PoolOf(pools, PoolKey(m, market.winner.value)) > 0)
    && (forall o :: o in market.outcomes ==> PoolKey(m, o) in pools)
  }

  predicate MarketsOk(db: Db) {
    forall m :: 0 <= m < |db.markets| ==> MarketOk(db.markets[m], m, db.pools)
  }

  predicate PoolOk(db: Db, k: PoolKey)
    requires k in db.pools
  {
    && k.market < |db.markets| && k.outcome in db.markets[k.market].outcomes
    && db.pools[k] == Total(db.bets, OnPool(k)) && db.pools[k] <= MAX
  }

  predicate PoolsOk(db: Db) {
    forall k :: k in db.pools ==> PoolOk(db, k)
  }

  predicate BetOk(db: Db, b: Bet) {
    && b.market < |db.markets| && b.outcome in db.markets[b.market].outcomes
    && b.owner < |db.balances| && b.originalOwner < |db.balances|
    && b.stake > 0
  }

  predicate BetsOk(db: Db) {
    forall b :: 0 <= b < |db.bets| ==> BetOk(db, db.bets[b])
  }

  predicate ListingOk(db: Db, l: Listing) {
    && l.bet < |db.bets| && l.market == db.bets[l.bet].market
    && l.market < |db.markets|
    && l.price > 0 && l.seller < |db.balances| && l.seller != HOUSE
    && (l.buyer.Some? <==> l.status == Sold)
    && (l.buyer.Some? ==> l.buyer.value < |db.balances|)
    && (l.status == Listed ==> db.markets[l.market].status == Open && db.bets[l.bet].owner == l.seller)
  }

  /** Only the last listing of a bet can be active. */
  predicate ActiveIsLast(listings: seq<Listing>) {
    forall i, j :: 0 <= i < j < |listings| && listings[i].bet == listings[j].bet ==> listings[i].status != Listed
  }

  predicate ListingsOk(db: Db) {
    && (forall l :: 0 <= l < |db.listings| ==> ListingOk(db, db.listings[l]))
    && ActiveIsLast(db.listings)
  }

  /** The owner reached from `first` by following the sales of bet `b` in order,
      or None if some seller is not the owner at that point. */
  function OwnerAfterSales(listings: seq<Listing>, b: BetId, first: UserId): Option<UserId> {
    if |listings| == 0 then Some(first)
    else
      var before := OwnerAfterSales(listings[..|listings| - 1], b, first);
      var last := listings[|listings| - 1];
      if last.bet == b && last.status == Sold then
        if before == Some(last.seller) then last.buyer else None
      else before
  }

  predicate ChainsOk(db: Db) {
    forall b :: 0 <= b < |db.bets| ==>
      OwnerAfterSales(db.listings, b, db.bets[b].originalOwner) == Some(db.bets[b].owner)
  }

  /** What was staked, without who holds it. */
  datatype Wager = Wager(outcome: string, stake: int)

  /** The bets of a market in the order they were placed. */
  function Wagers(bets: seq<Bet>, m: MarketId): seq<Wager> {
    if |bets| == 0 then []
    else
      var b := bets[|bets| - 1];
      Wagers(bets[..|bets| - 1], m) + (if b.market == m then [Wager(b.outcome, b.stake)] else [])
  }

  function SeedWagers(market: Market): seq<Wager> {
    if market.seed <= 0 then []
    else seq(|market.outcomes|, i requires 0 <= i < |market.outcomes| => Wager(market.outcomes[i], market.seed))
  }

  predicate SeedsOk(db: Db) {
    forall m :: 0 <= m < |db.markets| ==> SeedWagers(db.markets[m]) <= Wagers(db.bets, m)
  }

  predicate Valid(db: Db) {
    && BalancesOk(db) && MarketsOk(db) && PoolsOk(db) && BetsOk(db)
    && ListingsOk(db) && ChainsOk(db) && SeedsOk(db)
  }

  // ------------------------------------------------------------ table lemmas

  lemma {:induction false} PostableWithin(balances: seq<int>, credits: seq<Credit>)
    requires WithinColumn(balances) && Postable(balances, credits)
    ensures WithinColumn(Post(balances, credits))
  {
    if |credits| > 0 {
      var n := |credits| - 1;
      assert forall k :: 0 <= k <= n ==> credits[..n][..k] == credits[..k];
      PostableWithin(balances, credits[..n]);
      assert credits[..n + 1] == credits;
    }
  }

  lemma {:induction false} WagersConcat(s: seq<Bet>, t: seq<Bet>, m: MarketId)
    ensures Wagers(s + t, m) == Wagers(s, m) + Wagers(t, m)
  {
    if |t| == 0 {
      assert s + t == s;
    } else {
      var n := |t| - 1;
      assert (s + t)[..|s| + n] == s + t[..n];
      WagersConcat(s, t[..n], m);
    }
  }

  /** A sale changes the owner column only, so it leaves the wagers alone. */
  lemma {:induction false} WagersIgnoreOwner(bets: seq<Bet>, b: BetId, u: UserId, m: MarketId)
    requires b < |bets|
    ensures Wagers(bets[b := bets[b].(owner := u)], m) == Wagers(bets, m)
  {
    var n := |bets| - 1;
    if b == n {
      assert bets[b := bets[b].(owner := u)][..n] == bets[..n];
    } else {
      assert bets[b := bets[b].(owner := u)][..n] == bets[..n][b := bets[b].(owner := u)];
      WagersIgnoreOwner(bets[..n], b, u, m);
    }
  }

  lemma {:induction false} NoBetsYet(bets: seq<Bet>, m: MarketId)
    requires forall b :: 0 <= b < |bets| ==> bets[b].market < m
    ensures Wagers(bets, m) == []
    ensures forall o :: Total(bets, OnPool(PoolKey(m, o))) == 0
    ensures Total(bets, OnMarket(m)) == 0
  {
    if |bets| > 0 {
      NoBetsYet(bets[..|bets| - 1], m);
    }
  }

  lemma {:induction false} SeedBetsTotals(m: MarketId, outcomes: seq<string>, seed: nat, k: PoolKey)
    requires forall i, j :: 0 <= i < j < |outcomes| ==> outcomes[i] != outcomes[j]
    ensures Total(SeedBets(m, outcomes, seed), OnPool(k)) == if k.market == m && k.outcome in outcomes then seed else 0
  {
    if |outcomes| > 0 && seed > 0 {
      var n := |outcomes| - 1;
      assert SeedBets(m, outcomes, seed)[..n] == SeedBets(m, outcomes[..n], seed);
      SeedBetsTotals(m, outcomes[..n], seed, k);
      assert outcomes == outcomes[..n] + [outcomes[n]];
    }
  }

  lemma {:induction false} SeedBetsWagers(m: MarketId, outcomes: seq<string>, seed: nat, other: MarketId)
    requires seed <= MAX
    ensures Wagers(SeedBets(m, outcomes, seed), other) ==
      if other == m then SeedWagers(Market("", outcomes, Open, seed, None)) else []
  {
    if |outcomes| > 0 && seed > 0 {
      var n := |outcomes| - 1;
      assert SeedBets(m, outcomes, seed)[..n] == SeedBets(m, outcomes[..n], seed);
      SeedBetsWagers(m, outcomes[..n], seed, other);
    }
  }

  lemma {:induction false} SalesUnchanged(before: seq<Listing>, after: seq<Listing>, b: BetId, first: UserId)
    requires |before| == |after|
    requires forall i :: 0 <= i < |before| ==>
      before[i] == after[i] || (before[i].status != Sold && after[i].status != Sold)
    ensures OwnerAfterSales(before, b, first) == OwnerAfterSales(after, b, first)
  {
    if |before| > 0 {
      var n := |before| - 1;
      assert before[n] == after[n] || (before[n].status != Sold && after[n].status != Sold);
      SalesUnchanged(before[..n], after[..n], b, first);
    }
  }

  /** Selling the last listing of a bet hands its chain to the buyer, and leaves
      every other bet's chain alone. */
  lemma {:induction false} SaleExtendsChain(listings: seq<Listing>, l: ListingId, buyer: UserId, b: BetId,
      first: UserId)
    requires l < |listings| && listings[l].status == Listed
    requires forall j :: l < j < |listings| ==> listings[j].bet != listings[l].bet
    requires b == listings[l].bet ==> OwnerAfterSales(listings, b, first) == Some(listings[l].seller)
    ensures var sold := listings[l].(status := Sold, buyer := Some(buyer));
      OwnerAfterSales(listings[l := sold], b, first) ==
        if b == listings[l].bet then Some(buyer) else OwnerAfterSales(listings, b, first)
  {
    var sold := listings[l].(status := Sold, buyer := Some(buyer));
    var n := |listings| - 1;
    if l == n {
      assert listings[l := sold][..n] == listings[..n];
    } else {
      assert listings[l := sold][..n] == listings[..n][l := sold];
      assert listings[n].bet != listings[l].bet;
      SaleExtendsChain(listings[..n], l, buyer, b, first);
    }
  }

  /** Bets that never point past a table's end have no sales past it either. */
  lemma {:induction false} NoSalesYet(listings: seq<Listing>, b: BetId, first: UserId)
    requires forall l :: 0 <= l < |listings| ==> listings[l].bet < b
    ensures OwnerAfterSales(listings, b, first) == Some(first)
  {
    if |listings| > 0 {
      NoSalesYet(listings[..|listings| - 1], b, first);
    }
  }

  // ----------------------------------------------- each transaction keeps Valid

  /** Markets keep everything but status and winner, and users stay. */
  predicate SameShape(db: Db, after: Db) {
    && |after.balances| == |db.balances| && |after.markets| == |db.markets|
    && (forall m :: 0 <= m < |db.markets| ==>
          after.markets[m].outcomes == db.markets[m].outcomes && after.markets[m].seed == db.markets[m].seed)
  }

  lemma SameBets(db: Db, after: Db)
    requires PoolsOk(db) && BetsOk(db) && SeedsOk(db)
    requires SameShape(db, after) && after.pools == db.pools && after.bets == db.bets
    ensures PoolsOk(after) && BetsOk(after) && SeedsOk(after)
  {
    forall k | k in after.pools ensures PoolOk(after, k) {
      assert PoolOk(db, k);
    }
    forall b | 0 <= b < |after.bets| ensures BetOk(after, after.bets[b]) {
      assert BetOk(db, db.bets[b]);
    }
    forall m | 0 <= m < |after.markets| ensures SeedWagers(after.markets[m]) <= Wagers(after.bets, m) {
      assert SeedWagers(after.markets[m]) == SeedWagers(db.markets[m]);
    }
  }

  lemma SameChains(db: Db, after: Db)
    requires ChainsOk(db) && after.bets == db.bets && |after.listings| == |db.listings|
    requires forall l :: 0 <= l < |db.listings| ==>
      after.listings[l] == db.listings[l] || (db.listings[l].status == Listed && after.listings[l].status == Withdrawn)
    ensures ChainsOk(after)
  {
    forall b | 0 <= b < |after.bets|
      ensures OwnerAfterSales(after.listings, b, after.bets[b].originalOwner) == Some(after.bets[b].owner)
    {
      SalesUnchanged(db.listings, after.listings, b, db.bets[b].originalOwner);
    }
  }

  /** New bets have no sales yet, so each is owned by whoever placed it. */
  lemma MoreChains(db: Db, after: Db)
    requires ChainsOk(db) && ListingsOk(db) && after.listings == db.listings
    requires db.bets <= after.bets
    requires forall b :: |db.bets| <= b < |after.bets| ==> after.bets[b].owner == after.bets[b].originalOwner
    ensures ChainsOk(after)
  {
    forall l | 0 <= l < |db.listings| ensures db.listings[l].bet < |db.bets| {
      assert ListingOk(db, db.listings[l]);
    }
    forall b | |db.bets| <= b < |after.bets|
      ensures OwnerAfterSales(after.listings, b, after.bets[b].originalOwner) == Some(after.bets[b].owner)
    {
      NoSalesYet(db.listings, b, after.bets[b].originalOwner);
    }
  }

  lemma MoreBetsSameListings(db: Db, after: Db)
    requires ListingsOk(db) && after.listings == db.listings && db.bets <= after.bets
    requires |after.balances| == |db.balances| && db.markets <= after.markets
    ensures ListingsOk(after)
  {
    forall l | 0 <= l < |db.listings| ensures ListingOk(after, after.listings[l]) {
      assert ListingOk(db, db.listings[l]);
    }
  }

  lemma MoreBets(db: Db, after: Db)
    requires BetsOk(db) && db.bets <= after.bets
    requires |after.balances| == |db.balances| && db.markets <= after.markets
    requires forall b :: |db.bets| <= b < |after.bets| ==> BetOk(after, after.bets[b])
    ensures BetsOk(after)
  {
    forall b | 0 <= b < |after.bets| ensures BetOk(after, after.bets[b]) {
      assert b < |db.bets| ==> after.bets[b] == db.bets[b] && BetOk(db, db.bets[b]);
    }
  }

  lemma CreateMarketKeepsPools(db: Db, after: Db, outcomes: seq<string>, seed: nat, market: Market)
    requires PoolsOk(db) && BetsOk(db) && seed <= MAX && Storable(outcomes)
    requires market.outcomes == outcomes
    requires after.markets == db.markets + [market]
    requires after.pools == db.pools + SeedPools(|db.markets|, outcomes, seed)
    requires after.bets == db.bets + SeedBets(|db.markets|, outcomes, seed)
    ensures PoolsOk(after)
  {
    var m, added := |db.markets|, SeedBets(|db.markets|, outcomes, seed);
    forall b | 0 <= b < |db.bets| ensures db.bets[b].market < m {
      assert BetOk(db, db.bets[b]);
    }
    NoBetsYet(db.bets, m);
    forall k | k in after.pools ensures PoolOk(after, k) {
      TotalConcat(db.bets, added, OnPool(k));
      SeedBetsTotals(m, outcomes, seed, k);
      if k in db.pools {
        assert PoolOk(db, k);
      } else {
        assert k == PoolKey(m, k.outcome);
      }
    }
  }

  lemma CreateMarketKeepsMarkets(db: Db, after: Db, outcomes: seq<string>, seed: nat, market: Market)
    requires MarketsOk(db) && PoolsOk(db) && BetsOk(db) && SeedsOk(db) && seed <= MAX && Storable(outcomes) &&
        |outcomes| >= 2
    requires market == Market(market.question, outcomes, Open, seed, None)
    requires after.markets == db.markets + [market]
    requires after.pools == db.pools + SeedPools(|db.markets|, outcomes, seed)
    requires after.bets == db.bets + SeedBets(|db.markets|, outcomes, seed)
    ensures MarketsOk(after) && SeedsOk(after)
  {
    var m, added := |db.markets|, SeedBets(|db.markets|, outcomes, seed);
    forall i | 0 <= i < |after.markets|
      ensures MarketOk(after.markets[i], i, after.pools)
      ensures SeedWagers(after.markets[i]) <= Wagers(after.bets, i)
    {
      WagersConcat(db.bets, added, i);
      SeedBetsWagers(m, outcomes, seed, i);
      if i < m {
        assert MarketOk(db.markets[i], i, db.pools);
        forall o | o in after.markets[i].outcomes
          ensures PoolKey(i, o) in after.pools && PoolOf(after.pools, PoolKey(i, o)) == PoolOf(db.pools, PoolKey(i, o))
        {
          assert PoolKey(i, o) in db.pools;
        }
      } else {
        forall b | 0 <= b < |db.bets| ensures db.bets[b].market < m {
          assert BetOk(db, db.bets[b]);
        }
        NoBetsYet(db.bets, m);
        assert SeedWagers(market) == SeedWagers(Market("", outcomes, Open, seed, None));
      }
    }
  }

  lemma MoreBetsKeepRows(db: Db, after: Db)
    requires BetsOk(db) && ChainsOk(db) && ListingsOk(db)
    requires db.markets <= after.markets && db.bets <= after.bets && after.listings == db.listings
    requires |after.balances| == |db.balances|
    requires forall b :: |db.bets| <= b < |after.bets| ==>
      BetOk(after, after.bets[b]) && after.bets[b].owner == after.bets[b].originalOwner
    ensures BetsOk(after) && ChainsOk(after) && ListingsOk(after)
  {
    MoreBets(db, after);
    MoreChains(db, after);
    MoreBetsSameListings(db, after);
  }

  lemma DebitKeepsBalances(db: Db, after: Db, u: UserId, amount: int)
    requires BalancesOk(db) && u < |db.balances| && 0 <= amount <= db.balances[u]
    requires after.balances == db.balances[u := db.balances[u] - amount]
    ensures BalancesOk(after)
  {
  }

  lemma CreateMarketKeepsValid(db: Db, question: string, outcomes: seq<string>, seed: int64)
    requires Valid(db) && CreateMarketTx(db, question, outcomes, seed).Committed?
    ensures Valid(CreateMarketTx(db, question, outcomes, seed).db)
  {
    hide MarketsOk, PoolsOk, BetsOk, ListingsOk, ChainsOk, SeedsOk;
    var after := CreateMarketTx(db, question, outcomes, seed).db;
    var market := Market(question, outcomes, Open, seed, None);
    CreateMarketKeepsPools(db, after, outcomes, seed, market);
    CreateMarketKeepsMarkets(db, after, outcomes, seed, market);
    MoreBetsKeepRows(db, after);
    var debit := SeedDebit(seed, |outcomes|);
    DebitKeepsBalances(db, after, HOUSE, if debit > 0 then debit else 0);
  }

  lemma PlaceBetKeepsPools(db: Db, after: Db, bet: Bet)
    requires PoolsOk(db) && MarketsOk(db) && SeedsOk(db) && bet.stake > 0
    requires after.markets == db.markets && after.bets == db.bets + [bet]
    requires PoolKey(bet.market, bet.outcome) in db.pools
    requires db.pools[PoolKey(bet.market, bet.outcome)] + bet.stake <= MAX
    requires var k := PoolKey(bet.market, bet.outcome); after.pools == db.pools[k := db.pools[k] + bet.stake]
    ensures PoolsOk(after) && MarketsOk(after) && SeedsOk(after)
  {
    forall k | k in after.pools ensures PoolOk(after, k) {
      assert PoolOk(db, k);
      TotalAppend(db.bets, bet, OnPool(k));
    }
    forall i | 0 <= i < |after.markets|
      ensures MarketOk(after.markets[i], i, after.pools)
      ensures SeedWagers(after.markets[i]) <= Wagers(after.bets, i)
    {
      assert MarketOk(db.markets[i], i, db.pools);
      assert after.bets[..|db.bets|] == db.bets;
      assert Wagers(db.bets, i) <= Wagers(after.bets, i);
    }
  }

  lemma OutcomeHasPool(db: Db, m: MarketId, o: string)
    requires MarketsOk(db) && m < |db.markets| && o in db.markets[m].outcomes
    ensures PoolKey(m, o) in db.pools
  {
    assert MarketOk(db.markets[m], m, db.pools);
  }

  lemma PlaceBetKeepsValid(db: Db, u: UserId, m: MarketId, o: string, stake: int64)
    requires Valid(db) && PlaceBetTx(db, u, m, o, stake).Committed?
    ensures Valid(PlaceBetTx(db, u, m, o, stake).db)
  {
    hide BalancesOk, MarketsOk, PoolsOk, BetsOk, ListingsOk, ChainsOk, SeedsOk;
    var after, bet := PlaceBetTx(db, u, m, o, stake).db, Bet(m, u, u, o, stake);
    OutcomeHasPool(db, m, o);
    PlaceBetKeepsPools(db, after, bet);
    MoreBetsKeepRows(db, after);
    DebitKeepsBalances(db, after, u, stake);
  }

  lemma WithdrawAllKeepsListings(db: Db, after: Db, m: MarketId)
    requires ListingsOk(db) && SameShape(db, after) && after.bets == db.bets
    requires after.listings == WithdrawAll(db.listings, m)
    requires forall i :: 0 <= i < |db.markets| && i != m ==> after.markets[i] == db.markets[i]
    ensures ListingsOk(after)
  {
    forall l | 0 <= l < |db.listings| ensures ListingOk(after, after.listings[l]) {
      assert ListingOk(db, db.listings[l]);
    }
  }

  /** Settling or locking market `m`: balances within range, the market's row
      rewritten, and its active listings withdrawn. */
  lemma StatusChangeKeepsValid(db: Db, after: Db, m: MarketId, market: Market, balances: seq<int>)
    requires Valid(db) && m < |db.markets|
    requires |balances| == |db.balances| && WithinColumn(balances)
    requires market == db.markets[m].(status := market.status, winner := market.winner)
    requires MarketOk(market, m, db.pools)
    requires after == Db(balances, db.markets[m := market], db.pools, db.bets, WithdrawAll(db.listings, m))
    ensures Valid(after)
  {
    SameBets(db, after);
    SameChains(db, after);
    WithdrawAllKeepsListings(db, after, m);
  }

  lemma ResolveKeepsValid(db: Db, m: MarketId, o: string, rows: seq<Holding>)
    requires Valid(db) && ResolveMarketTx(db, m, o, rows).Committed?
    ensures Valid(ResolveMarketTx(db, m, o, rows).db)
  {
    assert MarketOk(db.markets[m], m, db.pools);
    var credits := PayoutCredits(db, m, o, rows);
    PostableWithin(db.balances, credits);
    StatusChangeKeepsValid(db, ResolveMarketTx(db, m, o, rows).db, m,
                           db.markets[m].(status := Resolved, winner := Some(o)), Post(db.balances, credits));
  }

  lemma RefundKeepsValid(db: Db, m: MarketId)
    requires Valid(db) && RefundMarketTx(db, m).Committed?
    ensures Valid(RefundMarketTx(db, m).db)
  {
    assert MarketOk(db.markets[m], m, db.pools);
    var credits := Refunds(Holders(db.bets, m));
    PostableWithin(db.balances, credits);
    StatusChangeKeepsValid(db, RefundMarketTx(db, m).db, m,
                           db.markets[m].(status := Cancelled), Post(db.balances, credits));
  }

  lemma LockKeepsValid(db: Db, m: MarketId)
    requires Valid(db) && LockMarketTx(db, m).Committed?
    ensures Valid(LockMarketTx(db, m).db)
  {
    assert MarketOk(db.markets[m], m, db.pools);
    StatusChangeKeepsValid(db, LockMarketTx(db, m).db, m, db.markets[m].(status := Locked), db.balances);
  }

  lemma AdjustKeepsValid(db: Db, u: UserId, delta: int64)
    requires Valid(db) && AdjustBalanceTx(db, u, delta).Committed?
    ensures Valid(AdjustBalanceTx(db, u, delta).db)
  {
    var after := AdjustBalanceTx(db, u, delta).db;
    SameBets(db, after);
    SameChains(db, after);
    MoreBetsSameListings(db, after);
  }

  lemma SameMarkets(db: Db, after: Db)
    requires MarketsOk(db) && after.markets == db.markets && after.pools == db.pools
    ensures MarketsOk(after)
  {
  }

  lemma WithdrawKeepsListings(db: Db, after: Db, l: ListingId)
    requires ListingsOk(db) && l < |db.listings| && db.listings[l].status == Listed
    requires after == db.(listings := db.listings[l := db.listings[l].(status := Withdrawn)])
    ensures ListingsOk(after)
  {
    forall i | 0 <= i < |db.listings| ensures ListingOk(after, after.listings[i]) {
      assert ListingOk(db, db.listings[i]);
    }
  }

  /** A listing leaves the LISTED state without being sold. */
  lemma WithdrawKeepsValid(db: Db, l: ListingId)
    requires Valid(db) && l < |db.listings| && db.listings[l].status == Listed
    ensures Valid(db.(listings := db.listings[l := db.listings[l].(status := Withdrawn)]))
  {
    hide MarketsOk, PoolsOk, BetsOk, ListingsOk, ChainsOk, SeedsOk;
    var after := db.(listings := db.listings[l := db.listings[l].(status := Withdrawn)]);
    SameMarkets(db, after);
    SameBets(db, after);
    SameChains(db, after);
    WithdrawKeepsListings(db, after, l);
  }

  lemma NewListingKeepsListings(db: Db, after: Db, listing: Listing)
    requires ListingsOk(db) && ListingOk(db, listing) && !HasListed(db.listings, listing.bet)
    requires after == db.(listings := db.listings + [listing])
    ensures ListingsOk(after)
  {
    var n := |db.listings|;
    forall l | 0 <= l < |after.listings| ensures ListingOk(after, after.listings[l]) {
      assert l < n ==> ListingOk(db, db.listings[l]);
    }
    forall i, j | 0 <= i < j < |after.listings| && after.listings[i].bet == after.listings[j].bet
      ensures after.listings[i].status != Listed
    {
      assert after.listings[i] == db.listings[i];
    }
  }

  lemma ListBetKeepsValid(db: Db, b: BetId, seller: UserId, price: int64)
    requires Valid(db) && ListBetTx(db, b, seller, price).Committed?
    ensures Valid(ListBetTx(db, b, seller, price).db)
  {
    var after := ListBetTx(db, b, seller, price).db;
    assert BetOk(db, db.bets[b]);
    SameBets(db, after);
    NewListingKeepsListings(db, after, Listing(b, db.bets[b].market, seller, None, price, Listed));
    forall i | 0 <= i < |after.bets|
      ensures OwnerAfterSales(after.listings, i, after.bets[i].originalOwner) == Some(after.bets[i].owner)
    {
      assert after.listings[..|db.listings|] == db.listings;
    }
  }

  /** Handing bet `b` to a user: nothing about the stakes changes. */
  lemma NewOwnerKeepsBets(db: Db, after: Db, b: BetId, buyer: UserId)
    requires PoolsOk(db) && BetsOk(db) && SeedsOk(db)
    requires b < |db.bets| && buyer < |db.balances| && |after.balances| == |db.balances|
    requires after.markets == db.markets && after.pools == db.pools
    requires after.bets == db.bets[b := db.bets[b].(owner := buyer)]
    ensures PoolsOk(after) && BetsOk(after) && SeedsOk(after)
  {
    forall k | k in after.pools ensures PoolOk(after, k) {
      assert PoolOk(db, k);
      TotalUpdate(db.bets, b, after.bets[b], OnPool(k));
    }
    forall i | 0 <= i < |after.bets| ensures BetOk(after, after.bets[i]) {
      assert BetOk(db, db.bets[i]);
    }
    forall m | 0 <= m < |after.markets| ensures SeedWagers(after.markets[m]) <= Wagers(after.bets, m) {
      WagersIgnoreOwner(db.bets, b, buyer, m);
    }
  }

  lemma SaleKeepsListings(db: Db, after: Db, l: ListingId, buyer: UserId)
    requires ListingsOk(db) && l < |db.listings| && db.listings[l].status == Listed
    requires buyer < |db.balances| && |after.balances| == |db.balances| && after.markets == db.markets
    requires db.listings[l].bet < |db.bets|
    requires after.bets == db.bets[db.listings[l].bet := db.bets[db.listings[l].bet].(owner := buyer)]
    requires after.listings == db.listings[l := db.listings[l].(status := Sold, buyer := Some(buyer))]
    ensures ListingsOk(after)
  {
    forall i | 0 <= i < |db.listings| ensures ListingOk(after, after.listings[i]) {
      assert ListingOk(db, db.listings[i]);
      assert i != l && db.listings[i].bet == db.listings[l].bet ==> db.listings[i].status != Listed;
    }
  }

  lemma SaleKeepsChains(db: Db, after: Db, l: ListingId, buyer: UserId)
    requires ChainsOk(db) && ActiveIsLast(db.listings)
    requires l < |db.listings| && db.listings[l].status == Listed && db.listings[l].bet < |db.bets|
    requires db.bets[db.listings[l].bet].owner == db.listings[l].seller
    requires after.bets == db.bets[db.listings[l].bet := db.bets[db.listings[l].bet].(owner := buyer)]
    requires after.listings == db.listings[l := db.listings[l].(status := Sold, buyer := Some(buyer))]
    ensures ChainsOk(after)
  {
    forall i | 0 <= i < |after.bets|
      ensures OwnerAfterSales(after.listings, i, after.bets[i].originalOwner) == Some(after.bets[i].owner)
    {
      SaleExtendsChain(db.listings, l, buyer, i, db.bets[i].originalOwner);
    }
  }

  lemma ListingHasBet(db: Db, l: ListingId)
    requires ListingsOk(db) && l < |db.listings|
    ensures ListingOk(db, db.listings[l]) && ActiveIsLast(db.listings)
  {
  }

  lemma BuyKeepsValid(db: Db, l: ListingId, buyer: UserId)
    requires Valid(db) && BuyBetTx(db, l, buyer).Committed?
    ensures Valid(BuyBetTx(db, l, buyer).db)
  {
    hide MarketsOk, PoolsOk, BetsOk, ListingsOk, ChainsOk, SeedsOk;
    var after := BuyBetTx(db, l, buyer).db;
    ListingHasBet(db, l);
    SameMarkets(db, after);
    NewOwnerKeepsBets(db, after, db.listings[l].bet, buyer);
    SaleKeepsListings(db, after, l, buyer);
    SaleKeepsChains(db, after, l, buyer);
  }

  /** Every committed transaction, of any kind, keeps the invariant. */
  lemma ApplyKeepsValid(db: Db, c: Call)
    requires Valid(db) && Apply(db, c).Committed?
    ensures Valid(Apply(db, c).db)
  {
    hide Valid;
    match c.request
    case CreateMarket(question, outcomes, seed) => CreateMarketKeepsValid(db, question, outcomes, seed);
    case PlaceBet(u, m, o, stake) => PlaceBetKeepsValid(db, u, m, o, stake);
    case LockMarket(m) => LockKeepsValid(db, m);
    case ResolveMarket(m, o) => ResolveKeepsValid(db, m, o, c.rows);
    case RefundMarket(m) => RefundKeepsValid(db, m);
    case AdjustBalance(u, delta) => AdjustKeepsValid(db, u, delta);
    case ListBet(b, seller, price) => ListBetKeepsValid(db, b, seller, price);
    case CancelListing(l, seller) => WithdrawKeepsValid(db, l);
    case InvalidateListing(l) =>
      if db.listings[l].status == Listed {
        WithdrawKeepsValid(db, l);
      }
    case BuyBet(l, buyer) => BuyKeepsValid(db, l, buyer);
  }
}
