/** Whole runs: any sequence of requests, each committing or rolling back, with
    the bets of every settlement coming back in any order. */
module Runs {
  import opened Int64
  import opened Sums
  import opened Tables
  import opened Wrappers
  import opened Settlement
  import opened Transactions
  import opened Invariants
  import opened Accounting

  predicate Commits(db: Db, c: Call) { Possible(db, c) && Apply(db, c).Committed? }

  function Next(db: Db, c: Call): Db {
    if Commits(db, c) then Apply(db, c).db else db
  }

  function After(db: Db, cs: seq<Call>): Db {
    if |cs| == 0 then db else Next(After(db, cs[..|cs| - 1]), cs[|cs| - 1])
  }

  lemma {:induction false} RunKeepsValid(db: Db, cs: seq<Call>)
    requires Valid(db)
    ensures Valid(After(db, cs))
  {
    if |cs| > 0 {
      var n := |cs| - 1;
      RunKeepsValid(db, cs[..n]);
      if Commits(After(db, cs[..n]), cs[n]) {
        ApplyKeepsValid(After(db, cs[..n]), cs[n]);
      }
    }
  }

  // -------------------------------------------------------------- conservation

  /** Deltas of the balance adjustments that committed. */
  function Inflow(db: Db, cs: seq<Call>): int {
    if |cs| == 0 then 0
    else
      var n := |cs| - 1;
      Inflow(db, cs[..n]) + (if Commits(After(db, cs[..n]), cs[n]) then Injected(cs[n].request) else 0)
  }

  /** Everything the run asks to deposit. */
  function Deposits(cs: seq<Call>): nat {
    if |cs| == 0 then 0
    else
      var n := |cs| - 1;
      Deposits(cs[..n]) + (if Injected(cs[n].request) > 0 then Injected(cs[n].request) else 0)
  }

  predicate SeedsFit(cs: seq<Call>) {
    forall i :: 0 <= i < |cs| && cs[i].request.CreateMarket? ==> cs[i].request.seed * |cs[i].request.outcomes| <= MAX
  }

  lemma LiveMarketWithinSupply(db: Db, m: MarketId)
    requires Valid(db) && m < |db.markets| && Live(db.markets[m].status)
    ensures 0 <= MarketTotal(db, m) <= Supply(db)
  {
    forall b | 0 <= b < |db.bets|
      ensures 0 <= OnMarket(m)(db.bets[b]) <= InEscrow(db.markets)(db.bets[b])
    {
      assert BetOk(db, db.bets[b]);
    }
    TotalMonotone(db.bets, OnMarket(m), InEscrow(db.markets));
    TotalNonNegative(db.bets, OnMarket(m));
    TotalNonNegative(db.balances, Id);
  }

  /** No committed step's seeds or payouts leave int64. */
  predicate NeverOverflows(db: Db, cs: seq<Call>) {
    forall i :: 0 <= i < |cs| && Commits(After(db, cs[..i]), cs[i]) ==> NoOverflow(After(db, cs[..i]), cs[i].request)
  }

  lemma {:induction false} NeverOverflowsLast(db: Db, cs: seq<Call>)
    requires |cs| > 0
    ensures var n := |cs| - 1;
      NeverOverflows(db, cs) <==>
        NeverOverflows(db, cs[..n]) &&
        (Commits(After(db, cs[..n]), cs[n]) ==> NoOverflow(After(db, cs[..n]), cs[n].request))
  {
    hide After, Commits, NoOverflow;
    var n := |cs| - 1;
    assert forall i :: 0 <= i <= n ==> cs[..n][..i] == cs[..i];
    assert forall i :: 0 <= i < n ==> cs[..n][i] == cs[i];
  }

  /** Over every run in which nothing overflows, all the money - balances, house
      included, and live stakes - is the initial amount plus the committed
      adjustments. */
  lemma {:induction false} RunConserves(db: Db, cs: seq<Call>)
    requires Valid(db) && NeverOverflows(db, cs)
    ensures Supply(After(db, cs)) == Supply(db) + Inflow(db, cs)
    ensures forall u :: 0 <= u < |After(db, cs).balances| ==> After(db, cs).balances[u] >= 0
  {
    hide Valid, Supply, NoOverflow, NeverOverflows, Apply, Possible;
    RunKeepsValid(db, cs);
    NoneBelowZero(After(db, cs));
    if |cs| > 0 {
      var n := |cs| - 1;
      NeverOverflowsLast(db, cs);
      RunConserves(db, cs[..n]);
      RunKeepsValid(db, cs[..n]);
      if Commits(After(db, cs[..n]), cs[n]) {
        ApplyConservesIff(After(db, cs[..n]), cs[n]);
      }
    }
  }

  lemma NoneBelowZero(db: Db)
    requires Valid(db)
    ensures forall u :: 0 <= u < |db.balances| ==> db.balances[u] >= 0
  {
  }

  lemma SmallStepFits(db: Db, c: Call)
    requires Valid(db) && Commits(db, c) && Supply(db) * 3 <= MAX
    requires c.request.CreateMarket? ==> c.request.seed * |c.request.outcomes| <= MAX
    ensures NoOverflow(db, c.request)
  {
    hide Valid, Supply, PaidToWinners, MarketTotal, WithdrawAll, Postable;
    if c.request.ResolveMarket? {
      LiveMarketWithinSupply(db, c.request.market);
      ResolveSupply(db, c.request.market, c.request.outcome, c.rows);
      ApplyConservesIff(db, c);
    }
  }

  /** Nothing does while the seeds fit and three times the money there is, with all
      the deposits asked for, fits as well. */
  lemma {:induction false} SmallRunsFit(db: Db, cs: seq<Call>)
    requires Valid(db) && SeedsFit(cs)
    requires (Supply(db) + Deposits(cs)) * 3 <= MAX
    ensures NeverOverflows(db, cs) && Inflow(db, cs) <= Deposits(cs)
  {
    hide Valid, Supply, NoOverflow, Commits;
    if |cs| > 0 {
      var n := |cs| - 1;
      SmallRunsFit(db, cs[..n]);
      RunConserves(db, cs[..n]);
      RunKeepsValid(db, cs[..n]);
      if Commits(After(db, cs[..n]), cs[n]) {
        SmallStepFits(After(db, cs[..n]), cs[n]);
      }
      NeverOverflowsLast(db, cs);
    }
  }

  // ------------------------------------------------- stakes are released once

  predicate Settled(db: Db, m: MarketId) {
    m < |db.markets| && !Live(db.markets[m].status)
  }

  /** This request commits and pays out market `m`. */
  predicate Releases(db: Db, c: Call, m: MarketId) {
    Commits(db, c) && (c.request.ResolveMarket? || c.request.RefundMarket?) && c.request.market == m
  }

  function ReleaseCount(db: Db, cs: seq<Call>, m: MarketId): nat {
    if |cs| == 0 then 0
    else
      var n := |cs| - 1;
      ReleaseCount(db, cs[..n], m) + (if Releases(After(db, cs[..n]), cs[n], m) then 1 else 0)
  }

  /** RESOLVED and CANCELLED are absorbing: the market row never changes again. */
  lemma SettledIsFinal(db: Db, c: Call, m: MarketId)
    requires Settled(db, m)
    ensures m < |Next(db, c).markets| && Next(db, c).markets[m] == db.markets[m]
    ensures !Releases(db, c, m)
  {
    hide Possible, PayoutCredits, TotalPool, Postable, Winners, Holders, Refunds, Post, SeedDebit,
        Storable, SeedPools, SeedBets, WithdrawAll, HasListed;
  }

  lemma SettledByRelease(db: Db, c: Call, m: MarketId)
    requires !Settled(db, m)
    ensures Settled(Next(db, c), m) <==> Releases(db, c, m)
  {
    hide Possible, PayoutCredits, TotalPool, Postable, Winners, Holders, Refunds, Post, SeedDebit,
        Storable, SeedPools, SeedBets, WithdrawAll, HasListed;
  }

  /** In any run - including other resolves and cancels between a rolled-back
      resolve and its fallback refund - a market's stakes are released at most
      once, and exactly once if and only if the run settles it. */
  lemma {:induction false} ReleasedAtMostOnce(db: Db, cs: seq<Call>, m: MarketId)
    ensures ReleaseCount(db, cs, m) <= 1
    ensures ReleaseCount(db, cs, m) == 1 <==> !Settled(db, m) && Settled(After(db, cs), m)
    ensures Settled(db, m) ==> Settled(After(db, cs), m) && After(db, cs).markets[m] == db.markets[m]
  {
    if |cs| > 0 {
      var n := |cs| - 1;
      ReleasedAtMostOnce(db, cs[..n], m);
      if Settled(After(db, cs[..n]), m) {
        SettledIsFinal(After(db, cs[..n]), cs[n], m);
      } else {
        SettledByRelease(After(db, cs[..n]), cs[n], m);
      }
    }
  }

  /** The one release takes the market's whole pool out of escrow, and puts the
      same amount into balances unless settlement overflows. */
  lemma ReleaseIsWholePool(db: Db, c: Call, m: MarketId)
    requires Valid(db) && Releases(db, c, m)
    ensures m < |db.markets| && MarketTotal(db, m) == Total(PoolTotals(db.pools, m, db.markets[m].outcomes), Id)
    ensures Escrow(Next(db, c)) == Escrow(db) - MarketTotal(db, m)
    ensures NoOverflow(db, c.request) ==> Total(Next(db, c).balances, Id) == Total(db.balances, Id) + MarketTotal(db, m)
  {
    hide BalancesOk, ListingsOk, ChainsOk, SeedsOk, Apply, Possible, NoOverflow, Total;
    ReleaseWrites(db, c, m);
    PoolsAddUp(db, m);
    SettlementEmptiesEscrow(db, m, Next(db, c).markets[m]);
    ApplyConservesIff(db, c);
  }

  lemma ReleaseWrites(db: Db, c: Call, m: MarketId)
    requires Releases(db, c, m)
    ensures m < |db.markets| && Live(db.markets[m].status)
    ensures var after := Next(db, c);
      && |after.markets| == |db.markets| && !Live(after.markets[m].status)
      && after.markets == db.markets[m := after.markets[m]] && after.bets == db.bets
  {
    hide Possible, SettlementCredits, Postable, Winners, Holders, Refunds, WithdrawAll, Post, PoolTotals, Total;
  }

  /** A resolved market names one of its own outcomes, with a positive pool. */
  lemma {:induction false} ResolvedHasWinner(db: Db, cs: seq<Call>, m: MarketId)
    requires Valid(db) && m < |After(db, cs).markets| && After(db, cs).markets[m].status == Resolved
    ensures var end := After(db, cs);
      && end.markets[m].winner.Some?
      && end.markets[m].winner.value in end.markets[m].outcomes
      && Total(end.bets, OnPool(PoolKey(m, end.markets[m].winner.value))) > 0
  {
    RunKeepsValid(db, cs);
    var end := After(db, cs);
    assert MarketOk(end.markets[m], m, end.pools);
    assert PoolOk(end, PoolKey(m, end.markets[m].winner.value));
  }

  // ------------------------------------------------------------------ listings

  /** SOLD and CANCELLED listings never change again, in any run. */
  lemma {:induction false} ClosedListingIsFinal(db: Db, cs: seq<Call>, l: ListingId)
    requires l < |db.listings| && db.listings[l].status != Listed
    ensures l < |After(db, cs).listings| && After(db, cs).listings[l] == db.listings[l]
  {
    if |cs| > 0 {
      var n := |cs| - 1;
      ClosedListingIsFinal(db, cs[..n], l);
      ClosedListingStays(After(db, cs[..n]), cs[n], l);
    }
  }

  /** How each committed request changes the listings table. */
  lemma ListingsWritten(db: Db, c: Call)
    requires Commits(db, c)
    ensures var before, after := db.listings, Next(db, c).listings;
      match c.request
      case LockMarket(m) => after == WithdrawAll(before, m)
      case ResolveMarket(m, _) => after == WithdrawAll(before, m)
      case RefundMarket(m) => after == WithdrawAll(before, m)
      case ListBet(_, _, _) => before <= after
      case CancelListing(l, _) => l < |before| && after == before[l := before[l].(status := Withdrawn)]
      case InvalidateListing(l) =>
        l < |before| && (after == before || after == before[l := before[l].(status := Withdrawn)])
      case BuyBet(l, u) => l < |before| && after == before[l := before[l].(status := Sold, buyer := Some(u))]
      case _ => after == before
    ensures c.request.CancelListing? || c.request.InvalidateListing? || c.request.BuyBet? ==>
      Next(db, c).listings == db.listings || db.listings[c.request.listing].status == Listed
  {
    hide Possible, PayoutCredits, TotalPool, ResolveGuard, Postable, Winners, Holders, Refunds, Post, SeedDebit,
        Storable, SeedPools, SeedBets, WithdrawAll, HasListed;
  }

  lemma ClosedListingStays(db: Db, c: Call, l: ListingId)
    requires l < |db.listings| && db.listings[l].status != Listed
    ensures l < |Next(db, c).listings| && Next(db, c).listings[l] == db.listings[l]
  {
    hide Apply, Commits;
    if Commits(db, c) {
      ListingsWritten(db, c);
    }
  }

  /** The internal-consistency errors of BuyListedBet cannot happen. */
  lemma {:induction false} ListingAlwaysMatchesBet(db: Db, cs: seq<Call>, l: ListingId, buyer: UserId)
    requires Valid(db)
    ensures var tx := BuyBetTx(After(db, cs), l, buyer);
      tx != RolledBack(OwnerIsNotSeller) && tx != RolledBack(BetNotFound) && tx != RolledBack(MarketNotFound)
  {
    hide After, MarketsOk, PoolsOk, BetsOk, ListingsOk, ChainsOk, SeedsOk, BuyBetTx;
    RunKeepsValid(db, cs);
    ConsistentListing(After(db, cs), l, buyer);
  }

  lemma ConsistentListing(db: Db, l: ListingId, buyer: UserId)
    requires ListingsOk(db)
    ensures var tx := BuyBetTx(db, l, buyer);
      tx != RolledBack(OwnerIsNotSeller) && tx != RolledBack(BetNotFound) && tx != RolledBack(MarketNotFound)
  {
    hide ListingsOk;
    if l < |db.listings| {
      ListingHasBet(db, l);
    }
  }

  /** A bet has at most one active listing, and an active listing is on an open
      market, for that market's bet, by a seller other than the house who owns
      the bet. */
  lemma {:induction false} ActiveListings(db: Db, cs: seq<Call>, l: ListingId)
    requires Valid(db) && l < |After(db, cs).listings| && After(db, cs).listings[l].status == Listed
    ensures var end := After(db, cs);
      var listing := end.listings[l];
      && listing.market < |end.markets| && end.markets[listing.market].status == Open
      && listing.bet < |end.bets| && end.bets[listing.bet].market == listing.market
      && end.bets[listing.bet].owner == listing.seller != HOUSE
      && forall i :: 0 <= i < |end.listings| && i != l && end.listings[i].bet == listing.bet ==>
          end.listings[i].status != Listed
  {
    RunKeepsValid(db, cs);
    assert ListingOk(After(db, cs), After(db, cs).listings[l]);
  }

  predicate SaleOf(listings: seq<Listing>, l: ListingId, b: BetId) {
    l < |listings| && listings[l].bet == b && listings[l].status == Sold
  }

  lemma {:induction false} OwnerUnchangedWithoutSales(listings: seq<Listing>, b: BetId, first: UserId, from: nat)
    requires from <= |listings|
    requires forall i :: from <= i < |listings| ==> !SaleOf(listings, i, b)
    ensures OwnerAfterSales(listings, b, first) == OwnerAfterSales(listings[..from], b, first)
  {
    var n := |listings| - 1;
    if from == |listings| {
      assert listings[..from] == listings;
    } else {
      assert !SaleOf(listings, n, b);
      forall i | from <= i < n ensures !SaleOf(listings[..n], i, b) {
        assert !SaleOf(listings, i, b);
      }
      OwnerUnchangedWithoutSales(listings[..n], b, first, from);
      assert listings[..n][..from] == listings[..from];
    }
  }

  /** If the whole chain is unbroken, so is every prefix of it. */
  lemma {:induction false} ChainPrefix(listings: seq<Listing>, b: BetId, first: UserId, k: nat)
    requires k <= |listings| && OwnerAfterSales(listings, b, first).Some?
    ensures OwnerAfterSales(listings[..k], b, first).Some?
  {
    if k == |listings| {
      assert listings[..k] == listings;
    } else {
      ChainPrefix(listings[..|listings| - 1], b, first, k);
      assert listings[..|listings| - 1][..k] == listings[..k];
    }
  }

  /** The sales of a bet form an unbroken chain. First, whoever placed it is the
      first seller. */
  lemma FirstSellerPlacedBet(db: Db, b: BetId, i: ListingId)
    requires ChainsOk(db) && b < |db.bets| && SaleOf(db.listings, i, b)
    requires forall k :: 0 <= k < i ==> !SaleOf(db.listings, k, b)
    ensures db.listings[i].seller == db.bets[b].originalOwner
  {
    var first := db.bets[b].originalOwner;
    SaleStep(db.listings, b, first, i);
    forall k | 0 <= k < i ensures !SaleOf(db.listings[..i], k, b) {
      assert !SaleOf(db.listings, k, b);
    }
    OwnerUnchangedWithoutSales(db.listings[..i], b, first, 0);
  }

  /** Then, each later seller is the buyer of the sale before. */
  lemma NextSellerIsBuyer(db: Db, b: BetId, i: ListingId, j: ListingId)
    requires ChainsOk(db) && b < |db.bets| && SaleOf(db.listings, i, b) && SaleOf(db.listings, j, b)
    requires i < j && forall k :: i < k < j ==> !SaleOf(db.listings, k, b)
    ensures db.listings[i].buyer == Some(db.listings[j].seller)
  {
    var first := db.bets[b].originalOwner;
    SaleStep(db.listings, b, first, i);
    SaleStep(db.listings, b, first, j);
    forall k | i + 1 <= k < j ensures !SaleOf(db.listings[..j], k, b) {
      assert !SaleOf(db.listings, k, b);
    }
    OwnerUnchangedWithoutSales(db.listings[..j], b, first, i + 1);
    assert db.listings[..j][..i + 1] == db.listings[..i + 1];
  }

  /** Last, the last buyer is the current owner. */
  lemma LastBuyerIsOwner(db: Db, b: BetId, i: ListingId)
    requires ChainsOk(db) && b < |db.bets| && SaleOf(db.listings, i, b)
    requires forall k :: i < k < |db.listings| ==> !SaleOf(db.listings, k, b)
    ensures db.listings[i].buyer == Some(db.bets[b].owner)
  {
    SaleStep(db.listings, b, db.bets[b].originalOwner, i);
    OwnerUnchangedWithoutSales(db.listings, b, db.bets[b].originalOwner, i + 1);
  }

  lemma {:induction false} SaleStep(listings: seq<Listing>, b: BetId, first: UserId, i: ListingId)
    requires SaleOf(listings, i, b) && OwnerAfterSales(listings, b, first).Some?
    ensures OwnerAfterSales(listings[..i], b, first) == Some(listings[i].seller)
    ensures OwnerAfterSales(listings[..i + 1], b, first) == listings[i].buyer
  {
    ChainPrefix(listings, b, first, i + 1);
    assert listings[..i + 1][..i] == listings[..i];
  }

  /** A bet that was never sold still belongs to whoever placed it. */
  lemma UnsoldKeepsOwner(db: Db, b: BetId)
    requires Valid(db) && b < |db.bets|
    requires forall l :: 0 <= l < |db.listings| ==> !SaleOf(db.listings, l, b)
    ensures db.bets[b].owner == db.bets[b].originalOwner
  {
    OwnerUnchangedWithoutSales(db.listings, b, db.bets[b].originalOwner, 0);
  }

  /** A committed purchase sells the latest listing of its bet, so listing order
      is sale order. */
  lemma SaleIsLatest(db: Db, l: ListingId, buyer: UserId)
    requires Valid(db) && BuyBetTx(db, l, buyer).Committed?
    ensures forall j :: l < j < |db.listings| ==> db.listings[j].bet != db.listings[l].bet
  {
  }

  // ---------------------------------------------------- who is paid how much

  function WinsFor(m: MarketId, o: string, u: UserId, d: int, pool: int): Bet -> int
    requires pool > 0
  {
    (b: Bet) => if b.market == m && b.outcome == o && b.owner == u then Payout(b.stake, d, pool) else 0
  }

  lemma {:induction false} PayoutsByOwner(bets: seq<Bet>, m: MarketId, o: string, u: UserId, d: int, pool: int)
    requires pool > 0
    ensures Total(Payouts(Winners(bets, m, o), d, pool), To(u)) == Total(bets, WinsFor(m, o, u, d, pool))
  {
    hide Payout, Map;
    if |bets| > 0 {
      var n := |bets| - 1;
      PayoutsByOwner(bets[..n], m, o, u, d, pool);
      var early := Winners(bets[..n], m, o);
      assert early + [] == early;
      if bets[n].market == m && bets[n].outcome == o {
        var h := Holding(bets[n].owner, bets[n].stake);
        var c := PayoutCredit(d, pool)(h);
        MapConcat(early, [h], PayoutCredit(d, pool));
        assert Map([h], PayoutCredit(d, pool)) == [c];
        TotalAppend(Payouts(early, d, pool), c, To(u));
      }
    }
  }

  lemma {:induction false} CreditsTo(total: int, pool: int, winners: seq<Holding>, u: UserId)
    requires pool > 0
    ensures var d := Distributable(Wrap(total));
      var gain := Wrap(total - Total(winners, Pays(d, pool)));
      Total(SettlementCredits(Wrap(total), pool, winners), To(u)) ==
        Total(Payouts(winners, d, pool), To(u)) + (if u == HOUSE && gain > 0 then gain else 0)
  {
    hide Wrap, Total, Payouts, Distributable, HouseGain;
    var d := Distributable(Wrap(total));
    var payouts := Payouts(winners, d, pool);
    PayoutsTotal(winners, d, pool);
    var paid := Total(payouts, Amount);
    HouseGainIs(total, paid);
    TotalAppend(payouts, Credit(HOUSE, HouseGain(Wrap(total), paid)), To(u));
  }

  function PaidOn(m: MarketId, o: string, d: int, pool: int): Bet -> int
    requires pool > 0
  {
    (b: Bet) => if b.market == m && b.outcome == o then Payout(b.stake, d, pool) else 0
  }

  lemma {:induction false} PaidByBet(bets: seq<Bet>, m: MarketId, o: string, d: int, pool: int)
    requires pool > 0
    ensures Total(Winners(bets, m, o), Pays(d, pool)) == Total(bets, PaidOn(m, o, d, pool))
  {
    hide Payout, Winners;
    if |bets| == 0 {
      assert bets == [];
      NoRows(m, o);
    } else {
      var n := |bets| - 1;
      PaidByBet(bets[..n], m, o, d, pool);
      LastWinner(bets, m, o);
      TotalAppend(Winners(bets[..n], m, o), Holding(bets[n].owner, bets[n].stake), Pays(d, pool));
    }
  }

  /** What settling market `m` on `o` pays user `u`: the payouts of the winning bets
      they own and, for the house, the rest of the pool. */
  function Winnings(bets: seq<Bet>, pool: int, m: MarketId, o: string, u: UserId): int
    requires pool > 0
  {
    var total := Total(bets, OnMarket(m));
    var d := Distributable(Wrap(total));
    var gain := Wrap(total - Total(bets, PaidOn(m, o, d, pool)));
    Total(bets, WinsFor(m, o, u, d, pool)) + (if u == HOUSE && gain > 0 then gain else 0)
  }

  /** Settlement pays every user for exactly the winning bets they own at that
      moment, and the house, besides, the rest of the pool. */
  lemma {:induction false} ResolvePaysOwners(db: Db, m: MarketId, o: string, rows: seq<Holding>, u: UserId)
    requires MarketsOk(db) && PoolsOk(db) && BetsOk(db)
    requires multiset(rows) == multiset(Winners(db.bets, m, o))
    requires ResolveMarketTx(db, m, o, rows).Committed? && u < |db.balances|
    ensures var after, pool := ResolveMarketTx(db, m, o, rows).db, PoolOf(db.pools, PoolKey(m, o));
      && after.balances[u] == db.balances[u] + Winnings(db.bets, pool, m, o, u)
      && after.markets[m].winner == Some(o)
  {
    hide Total, Winners, Wrap, SettlementCredits, Postable, Post, MarketsOk, PoolsOk, BetsOk;
    var pool, total := PoolOf(db.pools, PoolKey(m, o)), MarketTotal(db, m);
    var winners, d := Winners(db.bets, m, o), Distributable(Wrap(total));
    PoolsAddUp(db, m);
    SettlementOrderFree(db.balances, Wrap(total), pool, winners, rows);
    PostAt(db.balances, SettlementCredits(Wrap(total), pool, winners), u);
    PayoutsByOwner(db.bets, m, o, u, d, pool);
    PaidByBet(db.bets, m, o, d, pool);
    CreditsTo(total, pool, winners, u);
  }

  lemma {:induction false} RefundsByOwner(bets: seq<Bet>, m: MarketId, u: UserId)
    ensures Total(Refunds(Holders(bets, m)), To(u)) == Total(bets, OwnedOn(m, u))
  {
    if |bets| > 0 {
      var n := |bets| - 1;
      RefundsByOwner(bets[..n], m, u);
      var early := Holders(bets[..n], m);
      assert early + [] == early;
      if bets[n].market == m {
        var c := Credit(bets[n].owner, bets[n].stake);
        assert Refunds(Holders(bets, m)) == Refunds(early) + [c];
        TotalAppend(Refunds(early), c, To(u));
      }
    }
  }

  /** A refund credits every user with exactly the stakes they own on the market. */
  lemma RefundPaysOwners(db: Db, m: MarketId, u: UserId)
    requires RefundMarketTx(db, m).Committed? && u < |db.balances|
    ensures RefundMarketTx(db, m).db.balances[u] == db.balances[u] + Total(db.bets, OwnedOn(m, u))
  {
    hide Holders, Post, Postable, Total, Refunds, WithdrawAll;
    PostAt(db.balances, Refunds(Holders(db.bets, m)), u);
    RefundsByOwner(db.bets, m, u);
  }

  // ------------------------------------------------------ a sale is as it was listed

  predicate SameTerms(l: Listing, later: Listing) {
    later.bet == l.bet && later.market == l.market && later.seller == l.seller && later.price == l.price
  }

  lemma TermsStay(db: Db, c: Call, l: ListingId)
    requires l < |db.listings|
    ensures l < |Next(db, c).listings| && SameTerms(db.listings[l], Next(db, c).listings[l])
  {
    hide Apply, Commits;
    if Commits(db, c) {
      ListingsWritten(db, c);
    }
  }

  lemma {:induction false} TermsStayForever(db: Db, cs: seq<Call>, l: ListingId)
    requires l < |db.listings|
    ensures l < |After(db, cs).listings| && SameTerms(db.listings[l], After(db, cs).listings[l])
  {
    hide Next;
    if |cs| > 0 {
      TermsStayForever(db, cs[..|cs| - 1], l);
      TermsStay(After(db, cs[..|cs| - 1]), cs[|cs| - 1], l);
    }
  }

  /** However long after it was listed, and whatever happened in between, a bet is
      sold at the price asked: the buyer pays it, the seller who listed the bet gets
      it, nobody else's balance moves, and the buyer owns that bet. */
  lemma {:induction false} SaleAtAskedPrice(db: Db, b: BetId, seller: UserId, price: int64, cs: seq<Call>,
      buyer: UserId)
    requires Valid(db) && ListBetTx(db, b, seller, price).Committed?
    requires BuyBetTx(After(ListBetTx(db, b, seller, price).db, cs), |db.listings|, buyer).Committed?
    ensures var before := After(ListBetTx(db, b, seller, price).db, cs);
      var after := BuyBetTx(before, |db.listings|, buyer).db;
      && |after.balances| == |before.balances| && seller != buyer
      && (forall u :: 0 <= u < |before.balances| ==>
            after.balances[u] == before.balances[u] + (if u == seller then price else if u == buyer then -price else 0))
      && b < |before.bets| && before.bets[b].owner == seller
      && after.bets == before.bets[b := before.bets[b].(owner := buyer)] && after.pools == before.pools
  {
    hide MarketsOk, PoolsOk, BetsOk, ListingsOk, ChainsOk, SeedsOk, After, HasListed;
    var listed := ListBetTx(db, b, seller, price).db;
    TermsStayForever(listed, cs, |db.listings|);
  }

  // ------------------------------------------------------- what a market costs you

  /** The request creates market `m` or moves stakes into or out of it. */
  predicate Concerns(db: Db, c: Call, m: MarketId) {
    match c.request
    case CreateMarket(_, _, _) => |db.markets| == m
    case PlaceBet(_, on, _, _) => on == m
    case ResolveMarket(on, _) => on == m
    case RefundMarket(on) => on == m
    case _ => false
  }

  /** Net change of `u`'s balance over the run from requests on market `m`. */
  function Flow(db: Db, cs: seq<Call>, m: MarketId, u: UserId): int {
    if |cs| == 0 then 0
    else
      var n := |cs| - 1;
      var before := After(db, cs[..n]);
      Flow(db, cs[..n], m, u) + StepFlow(before, cs[n], m, u)
  }

  function StepFlow(db: Db, c: Call, m: MarketId, u: UserId): int {
    var after := Next(db, c);
    if Concerns(db, c, m) && u < |db.balances| && u < |after.balances| then after.balances[u] - db.balances[u] else 0
  }

  function Placed(db: Db, m: MarketId, u: UserId): int { Total(db.bets, PlacedOn(m, u)) }

  function Owned(db: Db, m: MarketId, u: UserId): int { Total(db.bets, OwnedOn(m, u)) }

  /** Seed stakes the house did not pay for. */
  function Unfunded(market: Market, u: UserId): int {
    var debit := SeedDebit(market.seed, |market.outcomes|);
    if u == HOUSE then market.seed * |market.outcomes| - (if debit > 0 then debit else 0) else 0
  }

  /** There are none unless the seed product leaves int64. */
  lemma FundedIff(market: Market, u: UserId)
    requires market.seed >= 0
    ensures Unfunded(market, u) == 0 <==> u != HOUSE || market.seed * |market.outcomes| <= MAX
  {
    assert market.seed * |market.outcomes| >= 0;
    WrapShrinks(market.seed * |market.outcomes|);
    hide Wrap;
  }

  /** What market `m` should have cost user `u` so far. */
  predicate FlowMatches(db: Db, m: MarketId, u: UserId, flow: int) {
    if m >= |db.markets| then flow == 0
    else
      var market := db.markets[m];
      var cost := Placed(db, m, u) - Unfunded(market, u);
      match market.status
      case Open => flow == -cost
      case Locked => flow == -cost
      case Cancelled => flow == Owned(db, m, u) - cost
      case Resolved =>
        && market.winner.Some?
        && var o := market.winner.value;
        && var pool := PoolOf(db.pools, PoolKey(m, o));
        && pool > 0 && flow == Winnings(db.bets, pool, m, o, u) - cost
  }

  /** The seeds placed on a new market are the house's. */
  lemma SeedsPlaced(db: Db, m: MarketId, outcomes: seq<string>, seed: nat, u: UserId)
    requires BetsOk(db) && m == |db.markets|
    ensures Total(db.bets + SeedBets(m, outcomes, seed), PlacedOn(m, u)) == if u == HOUSE then seed * |outcomes| else 0
  {
    var added := SeedBets(m, outcomes, seed);
    TotalConcat(db.bets, added, PlacedOn(m, u));
    forall b | 0 <= b < |db.bets| ensures PlacedOn(m, u)(db.bets[b]) == 0 {
      assert BetOk(db, db.bets[b]);
    }
    TotalNothing(db.bets, PlacedOn(m, u));
    if u == HOUSE {
      SeedBetsStake(m, outcomes, seed, OnMarket(m));
      TotalPointwise(added, PlacedOn(m, u), OnMarket(m));
    } else {
      TotalNothing(added, PlacedOn(m, u));
    }
  }

  lemma CreationFlow(db: Db, c: Call, m: MarketId, u: UserId)
    requires Valid(db) && c.request.CreateMarket? && Commits(db, c) && m == |db.markets| && u < |db.balances|
    ensures m < |Next(db, c).markets| && Next(db, c).markets[m].status == Open
    ensures StepFlow(db, c, m, u) == Unfunded(Next(db, c).markets[m], u) - Placed(Next(db, c), m, u)
  {
    hide MarketsOk, PoolsOk, BetsOk, ListingsOk, ChainsOk, SeedsOk, SeedDebit, Total, SeedBets, SeedPools, Storable;
    SeedsPlaced(db, m, c.request.outcomes, c.request.seed, u);
  }

  /** How each committed request changes the bets table. */
  lemma BetsWritten(db: Db, c: Call)
    requires Commits(db, c)
    ensures var r := c.request;
      && (r.CreateMarket? ==> Next(db, c).bets == db.bets + SeedBets(|db.markets|, r.outcomes, r.seed))
      && (r.PlaceBet? ==> Next(db, c).bets == db.bets + [Bet(r.market, r.user, r.user, r.outcome, r.stake)])
      && (!r.CreateMarket? && !r.PlaceBet? && !r.BuyBet? ==> Next(db, c).bets == db.bets)
  {
    hide Possible, SettlementCredits, Postable, Winners, Holders, Refunds, WithdrawAll, Post, PoolTotals, Total;
  }

  /** A sale changes who holds a stake, never who placed it. */
  lemma SaleKeepsPlaced(db: Db, l: ListingId, buyer: UserId, m: MarketId, u: UserId)
    requires BuyBetTx(db, l, buyer).Committed?
    ensures Placed(BuyBetTx(db, l, buyer).db, m, u) == Placed(db, m, u)
  {
    var b := db.listings[l].bet;
    TotalUpdate(db.bets, b, db.bets[b].(owner := buyer), PlacedOn(m, u));
  }

  /** Only bets on open markets are sold. */
  lemma SaleElsewhere(db: Db, l: ListingId, buyer: UserId, m: MarketId, f: Bet -> int)
    requires ListingsOk(db) && BuyBetTx(db, l, buyer).Committed?
    requires m < |db.markets| && db.markets[m].status != Open
    requires forall b: Bet :: b.market != m ==> f(b) == 0
    ensures Total(BuyBetTx(db, l, buyer).db.bets, f) == Total(db.bets, f)
  {
    assert ListingOk(db, db.listings[l]);
    var b := db.listings[l].bet;
    TotalUpdate(db.bets, b, db.bets[b].(owner := buyer), f);
  }

  /** What others do elsewhere adds nothing to a quantity counted on market `m`. */
  lemma OtherMarketsBets(db: Db, c: Call, m: MarketId, f: Bet -> int)
    requires ListingsOk(db) && Commits(db, c) && !Concerns(db, c, m)
    requires forall b: Bet :: b.market != m ==> f(b) == 0
    requires c.request.BuyBet? ==> m < |db.markets| && db.markets[m].status != Open
    ensures Total(Next(db, c).bets, f) == Total(db.bets, f)
  {
    BetsWritten(db, c);
    if c.request.BuyBet? {
      SaleElsewhere(db, c.request.listing, c.request.buyer, m, f);
    }
    hide Apply, Next, Total, Commits, ListingsOk;
    match c.request
    case CreateMarket(_, outcomes, seed) =>
      var added := SeedBets(|db.markets|, outcomes, seed);
      TotalConcat(db.bets, added, f);
      TotalNothing(added, f);
    case PlaceBet(v, on, o, stake) =>
      TotalAppend(db.bets, Bet(on, v, v, o, stake), f);
    case _ =>
  }

  lemma PlacedElsewhere(db: Db, c: Call, m: MarketId, u: UserId)
    requires ListingsOk(db) && Commits(db, c) && !Concerns(db, c, m)
    ensures Placed(Next(db, c), m, u) == Placed(db, m, u)
  {
    hide Total, ListingsOk;
    if c.request.BuyBet? {
      SaleKeepsPlaced(db, c.request.listing, c.request.buyer, m, u);
    } else {
      OtherMarketsBets(db, c, m, PlacedOn(m, u));
    }
  }

  lemma WinningsElsewhere(db: Db, c: Call, pool: int, m: MarketId, o: string, u: UserId)
    requires ListingsOk(db) && Commits(db, c) && !Concerns(db, c, m) && pool > 0
    requires m < |db.markets| && db.markets[m].status != Open
    ensures Winnings(Next(db, c).bets, pool, m, o, u) == Winnings(db.bets, pool, m, o, u)
  {
    hide Total, ListingsOk, Commits, Next, Payout, Distributable, Wrap;
    OtherMarketsBets(db, c, m, OnMarket(m));
    var d := Distributable(Wrap(Total(db.bets, OnMarket(m))));
    OtherMarketsBets(db, c, m, PaidOn(m, o, d, pool));
    OtherMarketsBets(db, c, m, WinsFor(m, o, u, d, pool));
  }

  /** Requests on other markets leave market `m` as it is, or lock it. */
  lemma MarketRowStays(db: Db, c: Call, m: MarketId, o: string)
    requires Commits(db, c) && !Concerns(db, c, m)
    ensures var after := Next(db, c);
      && (m >= |db.markets| ==> m >= |after.markets|)
      && (m < |db.markets| ==>
            m < |after.markets| && PoolOf(after.pools, PoolKey(m, o)) == PoolOf(db.pools, PoolKey(m, o)) &&
            (after.markets[m] == db.markets[m] ||
             (db.markets[m].status == Open && after.markets[m] == db.markets[m].(status := Locked))))
  {
    hide Possible, SettlementCredits, Postable, Winners, Holders, Refunds, WithdrawAll, Post, PoolTotals, Total,
        SeedBets;
  }

  lemma UnconcernedFlow(db: Db, c: Call, m: MarketId, u: UserId, flow: int)
    requires ListingsOk(db) && Commits(db, c) && !Concerns(db, c, m)
    requires FlowMatches(db, m, u, flow)
    ensures FlowMatches(Next(db, c), m, u, flow)
  {
    hide Total, ListingsOk, Commits, Next, Placed, Owned, Winnings, Concerns, Unfunded;
    var o := if m < |db.markets| && db.markets[m].winner.Some? then db.markets[m].winner.value else "";
    MarketRowStays(db, c, m, o);
    PlacedElsewhere(db, c, m, u);
    if m < |db.markets| && db.markets[m].status == Resolved {
      WinningsElsewhere(db, c, PoolOf(db.pools, PoolKey(m, o)), m, o, u);
    } else if m < |db.markets| && db.markets[m].status == Cancelled {
      OwnedElsewhere(db, c, m, u);
    }
    SameSeeds(db, Next(db, c), m, u);
  }

  lemma OwnedElsewhere(db: Db, c: Call, m: MarketId, u: UserId)
    requires ListingsOk(db) && Commits(db, c) && !Concerns(db, c, m)
    requires m < |db.markets| && db.markets[m].status != Open
    ensures Owned(Next(db, c), m, u) == Owned(db, m, u)
  {
    hide Total, ListingsOk, Commits, Next;
    OtherMarketsBets(db, c, m, OwnedOn(m, u));
  }

  lemma SameSeeds(db: Db, after: Db, m: MarketId, u: UserId)
    requires m < |db.markets| ==>
      m < |after.markets| && after.markets[m].seed == db.markets[m].seed &&
      after.markets[m].outcomes == db.markets[m].outcomes
    ensures m < |db.markets| ==> Unfunded(after.markets[m], u) == Unfunded(db.markets[m], u)
  {
  }

  lemma PlacementFlow(db: Db, c: Call, m: MarketId, u: UserId)
    requires c.request.PlaceBet? && c.request.market == m && Commits(db, c) && u < |db.balances|
    ensures m < |db.markets| && db.markets[m].status == Open && Next(db, c).markets == db.markets
    ensures StepFlow(db, c, m, u) == Placed(db, m, u) - Placed(Next(db, c), m, u)
  {
    var r := c.request;
    TotalAppend(db.bets, Bet(m, r.user, r.user, r.outcome, r.stake), PlacedOn(m, u));
  }

  lemma RefundFlow(db: Db, c: Call, m: MarketId, u: UserId)
    requires c.request == RefundMarket(m) && Commits(db, c) && u < |db.balances|
    ensures m < |db.markets| && Live(db.markets[m].status)
    ensures StepFlow(db, c, m, u) == Owned(db, m, u)
    ensures Next(db, c).markets == db.markets[m := db.markets[m].(status := Cancelled)]
    ensures Next(db, c).bets == db.bets
  {
    hide Holders, Post, Postable, Total, Refunds, WithdrawAll;
    RefundPaysOwners(db, m, u);
  }

  lemma ResolveFlow(db: Db, c: Call, m: MarketId, o: string, u: UserId)
    requires MarketsOk(db) && PoolsOk(db) && BetsOk(db)
    requires c.request == ResolveMarket(m, o) && Commits(db, c) && u < |db.balances|
    ensures m < |db.markets| && Live(db.markets[m].status) && PoolOf(db.pools, PoolKey(m, o)) > 0
    ensures StepFlow(db, c, m, u) == Winnings(db.bets, PoolOf(db.pools, PoolKey(m, o)), m, o, u)
    ensures Next(db, c).markets == db.markets[m := db.markets[m].(status := Resolved, winner := Some(o))]
    ensures Next(db, c).bets == db.bets && Next(db, c).pools == db.pools
  {
    hide Post, Postable, Total, Winners, SettlementCredits, WithdrawAll, Winnings, MarketsOk, PoolsOk, BetsOk,
        TotalPool;
    ResolvePaysOwners(db, m, o, c.rows, u);
  }

  lemma ConcernedFlow(db: Db, c: Call, m: MarketId, u: UserId, flow: int)
    requires Valid(db) && Commits(db, c) && Concerns(db, c, m) && u < |db.balances|
    requires FlowMatches(db, m, u, flow)
    ensures FlowMatches(Next(db, c), m, u, flow + StepFlow(db, c, m, u))
  {
    hide Valid, StepFlow, Placed, Owned, Winnings, Unfunded, Next, Commits;
    match c.request
    case CreateMarket(_, _, _) => CreationFlow(db, c, m, u);
    case PlaceBet(_, _, _, _) => PlacementFlow(db, c, m, u);
    case RefundMarket(_) =>
      RefundFlow(db, c, m, u);
      SameBetsSameStakes(db, Next(db, c), m, u);
      SameSeeds(db, Next(db, c), m, u);
    case ResolveMarket(_, o) =>
      ValidTables(db);
      ResolveFlow(db, c, m, o, u);
      SameBetsSameStakes(db, Next(db, c), m, u);
      SameSeeds(db, Next(db, c), m, u);
  }

  lemma ValidTables(db: Db)
    requires Valid(db)
    ensures MarketsOk(db) && PoolsOk(db) && BetsOk(db) && ListingsOk(db)
  {
  }

  lemma SameBetsSameStakes(db: Db, after: Db, m: MarketId, u: UserId)
    requires after.bets == db.bets
    ensures Owned(after, m, u) == Owned(db, m, u) && Placed(after, m, u) == Placed(db, m, u)
  {
  }

  lemma UsersStay(db: Db, c: Call)
    ensures |Next(db, c).balances| == |db.balances|
  {
    hide Possible, SettlementCredits, Postable, Winners, Holders, Refunds, WithdrawAll, PoolTotals, Total, SeedPools,
        SeedBets, HasListed;
  }

  /** Over any run, what a market has cost each user: while it is live, exactly the
      stakes they placed on it; once cancelled, those minus the stakes they held;
      once resolved, those minus their payouts. From the house's stakes are taken
      the seeds it did not fund. */
  lemma {:induction false} MarketFlow(db: Db, cs: seq<Call>, m: MarketId, u: UserId)
    requires Valid(db) && m >= |db.markets| && u < |db.balances|
    ensures FlowMatches(After(db, cs), m, u, Flow(db, cs, m, u))
    ensures |After(db, cs).balances| == |db.balances|
  {
    if |cs| > 0 {
      var n := |cs| - 1;
      var before := After(db, cs[..n]);
      MarketFlow(db, cs[..n], m, u);
      UsersStay(before, cs[n]);
      RunKeepsValid(db, cs[..n]);
      StepFlowMatches(before, cs[n], m, u, Flow(db, cs[..n], m, u));
    }
  }

  lemma StepFlowMatches(db: Db, c: Call, m: MarketId, u: UserId, flow: int)
    requires Valid(db) && u < |db.balances|
    requires FlowMatches(db, m, u, flow)
    ensures FlowMatches(Next(db, c), m, u, flow + StepFlow(db, c, m, u))
  {
    hide FlowMatches, Valid, Apply, Possible;
    if Commits(db, c) {
      if Concerns(db, c, m) {
        ConcernedFlow(db, c, m, u, flow);
      } else {
        ValidTables(db);
        UnconcernedFlow(db, c, m, u, flow);
      }
    }
  }

  /** Created, bet on, perhaps locked, then cancelled without a resale: nobody
      gains or loses anything from the market, except the house from seeds it did
      not fund. */
  lemma {:induction false} CancelledMarketIsFree(db: Db, cs: seq<Call>, m: MarketId, u: UserId)
    requires Valid(db) && m >= |db.markets| && u < |db.balances|
    requires m < |After(db, cs).markets| && After(db, cs).markets[m].status == Cancelled
    requires forall l :: 0 <= l < |After(db, cs).listings| && After(db, cs).listings[l].market == m ==>
      After(db, cs).listings[l].status != Sold
    ensures var market := After(db, cs).markets[m];
      Flow(db, cs, m, u) == 0 <==> u != HOUSE || market.seed * |market.outcomes| <= MAX
  {
    var end := After(db, cs);
    MarketFlow(db, cs, m, u);
    RunKeepsValid(db, cs);
    forall b | 0 <= b < |end.bets| ensures OwnedOn(m, u)(end.bets[b]) == PlacedOn(m, u)(end.bets[b]) {
      if end.bets[b].market == m {
        forall l | 0 <= l < |end.listings| ensures !SaleOf(end.listings, l, b) {
          assert ListingOk(end, end.listings[l]);
        }
        UnsoldKeepsOwner(end, b);
      }
    }
    TotalPointwise(end.bets, OwnedOn(m, u), PlacedOn(m, u));
    assert MarketOk(end.markets[m], m, end.pools);
    FundedIff(end.markets[m], u);
  }
}
