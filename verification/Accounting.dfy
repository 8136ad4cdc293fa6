/** Where the money is after each transaction: balances plus escrowed stakes. */
module Accounting {
  import opened Int64
  import opened Sums
  import opened Tables
  import opened Wrappers
  import opened Settlement
  import opened Transactions
  import opened Invariants

  function MarketTotal(db: Db, m: MarketId): int { Total(db.bets, OnMarket(m)) }

  // ------------------------------------------------------- pools index the bets

  function OnOutcomes(m: MarketId, outcomes: seq<string>): Bet -> int {
    (b: Bet) => if b.market == m && b.outcome in outcomes then b.stake else 0
  }

  lemma {:induction false} OutcomesPartitionBets(bets: seq<Bet>, m: MarketId, outcomes: seq<string>, rows: seq<int>)
    requires forall i, j :: 0 <= i < j < |outcomes| ==> outcomes[i] != outcomes[j]
    requires |rows| == |outcomes|
    requires forall i :: 0 <= i < |rows| ==> rows[i] == Total(bets, OnPool(PoolKey(m, outcomes[i])))
    ensures Total(rows, Id) == Total(bets, OnOutcomes(m, outcomes))
  {
    if |outcomes| == 0 {
      TotalNothing(bets, OnOutcomes(m, outcomes));
    } else {
      var n := |outcomes| - 1;
      OutcomesPartitionBets(bets, m, outcomes[..n], rows[..n]);
      assert outcomes == outcomes[..n] + [outcomes[n]];
      assert outcomes[n] !in outcomes[..n];
      TotalSplit(bets, OnOutcomes(m, outcomes), OnOutcomes(m, outcomes[..n]), OnPool(PoolKey(m, outcomes[n])));
    }
  }

  lemma {:induction false} TotalNothing<T>(s: seq<T>, f: T -> int)
    requires forall i :: 0 <= i < |s| ==> f(s[i]) == 0
    ensures Total(s, f) == 0
  {
    if |s| > 0 {
      TotalNothing(s[..|s| - 1], f);
    }
  }

  /** The pool rows of a market add up to the stakes placed on it. */
  lemma PoolsAddUp(db: Db, m: MarketId)
    requires MarketsOk(db) && PoolsOk(db) && BetsOk(db) && m < |db.markets|
    ensures Total(PoolTotals(db.pools, m, db.markets[m].outcomes), Id) == MarketTotal(db, m)
  {
    var outcomes := db.markets[m].outcomes;
    var rows := PoolTotals(db.pools, m, outcomes);
    assert MarketOk(db.markets[m], m, db.pools);
    forall i | 0 <= i < |rows| ensures rows[i] == Total(db.bets, OnPool(PoolKey(m, outcomes[i]))) {
      assert outcomes[i] in outcomes;
      assert PoolOk(db, PoolKey(m, outcomes[i]));
    }
    OutcomesPartitionBets(db.bets, m, outcomes, rows);
    forall b | 0 <= b < |db.bets| ensures OnOutcomes(m, outcomes)(db.bets[b]) == OnMarket(m)(db.bets[b]) {
      assert BetOk(db, db.bets[b]);
    }
    TotalPointwise(db.bets, OnOutcomes(m, outcomes), OnMarket(m));
  }

  lemma {:induction false} LastWinner(bets: seq<Bet>, m: MarketId, o: string)
    requires |bets| > 0
    ensures var n := |bets| - 1;
      Winners(bets, m, o) ==
        if bets[n].market == m && bets[n].outcome == o then
          Winners(bets[..n], m, o) + [Holding(bets[n].owner, bets[n].stake)]
        else Winners(bets[..n], m, o)
  {
  }

  lemma {:induction false} LastHolder(bets: seq<Bet>, m: MarketId)
    requires |bets| > 0
    ensures var n := |bets| - 1;
      Holders(bets, m) ==
        if bets[n].market == m then Holders(bets[..n], m) + [Holding(bets[n].owner, bets[n].stake)]
        else Holders(bets[..n], m)
  {
  }

  lemma {:induction false} NoRows(m: MarketId, o: string)
    ensures Winners([], m, o) == [] && Holders([], m) == []
  {
  }

  lemma {:induction false} WinnersAreBets(bets: seq<Bet>, m: MarketId, o: string)
    requires forall b :: 0 <= b < |bets| ==> bets[b].stake > 0
    ensures Total(Winners(bets, m, o), HeldStake) == Total(bets, OnPool(PoolKey(m, o)))
    ensures forall i :: 0 <= i < |Winners(bets, m, o)| ==> Winners(bets, m, o)[i].stake > 0
  {
    hide Winners;
    if |bets| == 0 {
      assert bets == [];
      NoRows(m, o);
    } else {
      var n := |bets| - 1;
      WinnersAreBets(bets[..n], m, o);
      LastWinner(bets, m, o);
      TotalAppend(Winners(bets[..n], m, o), Holding(bets[n].owner, bets[n].stake), HeldStake);
    }
  }

  lemma {:induction false} WinnersAreOwners(bets: seq<Bet>, m: MarketId, o: string, users: nat)
    requires forall b :: 0 <= b < |bets| ==> bets[b].owner < users
    ensures forall h :: h in Winners(bets, m, o) || h in Holders(bets, m) ==> h.owner < users
  {
    if |bets| > 0 {
      WinnersAreOwners(bets[..|bets| - 1], m, o, users);
    }
  }

  lemma {:induction false} HoldersAreBets(bets: seq<Bet>, m: MarketId)
    ensures Total(Refunds(Holders(bets, m)), Amount) == Total(bets, OnMarket(m))
  {
    if |bets| > 0 {
      var n := |bets| - 1;
      HoldersAreBets(bets[..n], m);
      assert Holders(bets[..n], m) + [] == Holders(bets[..n], m);
      if bets[n].market == m {
        var c := Credit(bets[n].owner, bets[n].stake);
        assert Refunds(Holders(bets, m)) == Refunds(Holders(bets[..n], m)) + [c];
        TotalAppend(Refunds(Holders(bets[..n], m)), c, Amount);
      }
    }
  }

  /** Winning stakes add up to the divisor, so no division is by zero, and exact
      floored shares leave at least zero and less than the number of winning bets. */
  lemma {:induction false} RemainderBelowWinnerCount(db: Db, m: MarketId, o: string, d: int)
    requires Valid(db) && m < |db.markets| && o in db.markets[m].outcomes
    requires PoolOf(db.pools, PoolKey(m, o)) > 0
    ensures var pool, winners := PoolOf(db.pools, PoolKey(m, o)), Winners(db.bets, m, o);
      && Total(winners, HeldStake) == pool
      && 0 <= d - Total(winners, Shares(d, pool)) < |winners|
  {
    var k := PoolKey(m, o);
    assert PoolOk(db, k);
    assert forall b :: 0 <= b < |db.bets| ==> BetOk(db, db.bets[b]);
    WinnersAreBets(db.bets, m, o);
    DustBound(Winners(db.bets, m, o), d, PoolOf(db.pools, k));
  }

  // --------------------------------------------------------------- escrow moves

  lemma SettlementEmptiesEscrow(db: Db, m: MarketId, market: Market)
    requires m < |db.markets| && Live(db.markets[m].status) && !Live(market.status)
    ensures Total(db.bets, InEscrow(db.markets[m := market])) == Escrow(db) - MarketTotal(db, m)
  {
    TotalSplit(db.bets, InEscrow(db.markets), InEscrow(db.markets[m := market]), OnMarket(m));
  }

  lemma {:induction false} SeedBetsStake(m: MarketId, outcomes: seq<string>, seed: nat, f: Bet -> int)
    requires forall b: Bet :: b.market == m ==> f(b) == b.stake
    ensures Total(SeedBets(m, outcomes, seed), f) == seed * |outcomes|
  {
    if |outcomes| > 0 && seed > 0 {
      var n := |outcomes| - 1;
      assert SeedBets(m, outcomes, seed)[..n] == SeedBets(m, outcomes[..n], seed);
      SeedBetsStake(m, outcomes[..n], seed, f);
      assert seed * |outcomes| == seed * n + seed;
    }
  }

  lemma EscrowOfOldBets(db: Db, market: Market)
    requires BetsOk(db)
    ensures Total(db.bets, InEscrow(db.markets + [market])) == Escrow(db)
  {
    forall b | 0 <= b < |db.bets|
      ensures InEscrow(db.markets + [market])(db.bets[b]) == InEscrow(db.markets)(db.bets[b])
    {
      assert BetOk(db, db.bets[b]);
    }
    TotalPointwise(db.bets, InEscrow(db.markets + [market]), InEscrow(db.markets));
  }

  lemma CreateMarketSupply(db: Db, question: string, outcomes: seq<string>, seed: int64)
    requires Valid(db) && CreateMarketTx(db, question, outcomes, seed).Committed?
    ensures var debit := SeedDebit(seed, |outcomes|);
      Supply(CreateMarketTx(db, question, outcomes, seed).db) ==
        Supply(db) + seed * |outcomes| - (if debit > 0 then debit else 0)
  {
    hide MarketsOk, PoolsOk, ListingsOk, ChainsOk, SeedsOk, Total, SeedDebit, SeedBets, SeedPools, BetsOk;
    var m := |db.markets|;
    var markets := db.markets + [Market(question, outcomes, Open, seed, None)];
    var debit := SeedDebit(seed, |outcomes|);
    if debit > 0 {
      TotalUpdate(db.balances, HOUSE, db.balances[HOUSE] - debit, Id);
    }
    TotalConcat(db.bets, SeedBets(m, outcomes, seed), InEscrow(markets));
    SeedBetsStake(m, outcomes, seed, InEscrow(markets));
    EscrowOfOldBets(db, Market(question, outcomes, Open, seed, None));
  }

  /** Creating a market keeps the supply if and only if the seed product fits. */
  lemma CreateMarketSupplyIff(db: Db, question: string, outcomes: seq<string>, seed: int64)
    requires Valid(db) && CreateMarketTx(db, question, outcomes, seed).Committed?
    ensures Supply(CreateMarketTx(db, question, outcomes, seed).db) == Supply(db) <==> seed * |outcomes| <= MAX
  {
    hide CreateMarketTx, Valid, Supply, Wrap;
    CreateMarketSupply(db, question, outcomes, seed);
    SeedNotNegative(db, question, outcomes, seed);
    assert seed * |outcomes| >= 0;
    WrapShrinks(seed * |outcomes|);
  }

  lemma SeedNotNegative(db: Db, question: string, outcomes: seq<string>, seed: int64)
    requires CreateMarketTx(db, question, outcomes, seed).Committed?
    ensures seed >= 0
  {
    hide SeedDebit, Storable;
  }

  lemma PlaceBetSupply(db: Db, u: UserId, m: MarketId, o: string, stake: int64)
    requires PlaceBetTx(db, u, m, o, stake).Committed?
    ensures Supply(PlaceBetTx(db, u, m, o, stake).db) == Supply(db)
  {
    TotalUpdate(db.balances, u, db.balances[u] - stake, Id);
    TotalAppend(db.bets, Bet(m, u, u, o, stake), InEscrow(db.markets));
  }

  lemma LockSupply(db: Db, m: MarketId)
    requires LockMarketTx(db, m).Committed?
    ensures Supply(LockMarketTx(db, m).db) == Supply(db)
  {
    var after := LockMarketTx(db, m).db;
    TotalPointwise(db.bets, InEscrow(after.markets), InEscrow(db.markets));
  }

  /** Every bet's owner has a balance row to credit. */
  lemma {:induction false} OwnersExist(db: Db, m: MarketId, o: string)
    requires BalancesOk(db) && BetsOk(db)
    ensures forall h :: h in Winners(db.bets, m, o) || h in Holders(db.bets, m) ==> h.owner < |db.balances|
  {
    forall b | 0 <= b < |db.bets| ensures db.bets[b].owner < |db.balances| {
      assert BetOk(db, db.bets[b]);
    }
    WinnersAreOwners(db.bets, m, o, |db.balances|);
  }

  lemma {:induction false} StakesArePositive(bets: seq<Bet>, m: MarketId)
    requires forall b :: 0 <= b < |bets| ==> bets[b].stake > 0
    ensures forall h :: h in Holders(bets, m) ==> h.stake > 0
  {
    if |bets| > 0 {
      StakesArePositive(bets[..|bets| - 1], m);
    }
  }

  lemma {:induction false} HoldersArePositive(db: Db, m: MarketId)
    requires BetsOk(db)
    ensures forall h :: h in Holders(db.bets, m) ==> h.stake > 0
  {
    assert forall b :: 0 <= b < |db.bets| ==> BetOk(db, db.bets[b]);
    StakesArePositive(db.bets, m);
  }

  /** What the winners are paid in total. */
  function PaidToWinners(db: Db, m: MarketId, o: string): int
    requires PoolOf(db.pools, PoolKey(m, o)) > 0
  {
    Total(Winners(db.bets, m, o),
          Pays(Distributable(Wrap(MarketTotal(db, m))), PoolOf(db.pools, PoolKey(m, o))))
  }

  lemma {:induction false} ResolvedSupply(db: Db, m: MarketId, o: string, rows: seq<Holding>)
    requires Valid(db) && ResolveMarketTx(db, m, o, rows).Committed?
    requires multiset(rows) == multiset(Winners(db.bets, m, o))
    ensures Supply(ResolveMarketTx(db, m, o, rows).db) ==
      Supply(db) - MarketTotal(db, m) + Total(PayoutCredits(db, m, o, Winners(db.bets, m, o)), Amount)
  {
    hide MarketsOk, PoolsOk, BetsOk, ListingsOk, ChainsOk, SeedsOk, Postable, Post, Winners, Total, Wrap;
    var pool, total, winners := PoolOf(db.pools, PoolKey(m, o)), TotalPool(db, m), Winners(db.bets, m, o);
    var credits := SettlementCredits(total, pool, winners);
    OwnersExist(db, m, o);
    assert UsersExist(db.balances, credits);
    SettlementOrderFree(db.balances, total, pool, winners, rows);
    PostTotal(db.balances, credits);
    SettlementEmptiesEscrow(db, m, db.markets[m].(status := Resolved, winner := Some(o)));
  }

  /** Resolving keeps the supply if and only if the payouts leave the house a
      non-negative int64 amount. */
  lemma {:induction false} ResolveSupplyIff(db: Db, m: MarketId, o: string, rows: seq<Holding>)
    requires Valid(db) && ResolveMarketTx(db, m, o, rows).Committed?
    requires multiset(rows) == multiset(Winners(db.bets, m, o))
    ensures PoolOf(db.pools, PoolKey(m, o)) > 0
    ensures Supply(ResolveMarketTx(db, m, o, rows).db) == Supply(db) <==>
      0 <= MarketTotal(db, m) - PaidToWinners(db, m, o) <= MAX
  {
    hide MarketsOk, PoolsOk, BetsOk, ListingsOk, ChainsOk, SeedsOk, Postable, Post, Winners, Total, Wrap, Supply;
    PoolsAddUp(db, m);
    SettlementConservesIff(MarketTotal(db, m), PoolOf(db.pools, PoolKey(m, o)), Winners(db.bets, m, o));
    ResolvedSupply(db, m, o, rows);
  }

  lemma {:induction false} WinningPoolBounds(db: Db, m: MarketId, o: string)
    requires PoolsOk(db) && BetsOk(db) && PoolKey(m, o) in db.pools
    ensures PoolOf(db.pools, PoolKey(m, o)) <= MarketTotal(db, m)
    ensures Total(Winners(db.bets, m, o), HeldStake) == PoolOf(db.pools, PoolKey(m, o))
    ensures forall i :: 0 <= i < |Winners(db.bets, m, o)| ==> Winners(db.bets, m, o)[i].stake > 0
  {
    var k := PoolKey(m, o);
    forall b | 0 <= b < |db.bets|
      ensures OnPool(k)(db.bets[b]) <= OnMarket(m)(db.bets[b]) && db.bets[b].stake > 0
    {
      assert BetOk(db, db.bets[b]);
    }
    TotalMonotone(db.bets, OnPool(k), OnMarket(m));
    assert PoolOk(db, k);
    WinnersAreBets(db.bets, m, o);
  }

  /** The guard holds for every market whose tripled total fits in 64 bits. */
  lemma {:induction false} ResolveSupply(db: Db, m: MarketId, o: string, rows: seq<Holding>)
    requires Valid(db) && ResolveMarketTx(db, m, o, rows).Committed?
    requires multiset(rows) == multiset(Winners(db.bets, m, o))
    requires MarketTotal(db, m) * 3 <= MAX
    ensures Supply(ResolveMarketTx(db, m, o, rows).db) == Supply(db)
  {
    hide BalancesOk, MarketsOk, PoolsOk, BetsOk, ListingsOk, ChainsOk, SeedsOk, Postable, Post, Wrap, Total,
        Winners, SettlementCredits, Commission, Distributable;
    var k := PoolKey(m, o);
    WinningPoolBounds(db, m, o);
    SettlementConserves(MarketTotal(db, m), PoolOf(db.pools, k), Winners(db.bets, m, o));
    SettlementConservesIff(MarketTotal(db, m), PoolOf(db.pools, k), Winners(db.bets, m, o));
    WrapShrinks(MarketTotal(db, m));
    ResolveSupplyIff(db, m, o, rows);
  }

  lemma RefundSupply(db: Db, m: MarketId)
    requires Valid(db) && RefundMarketTx(db, m).Committed?
    ensures Supply(RefundMarketTx(db, m).db) == Supply(db)
  {
    var credits := Refunds(Holders(db.bets, m));
    OwnersExist(db, m, "");
    forall i | 0 <= i < |credits| ensures credits[i].user < |db.balances| {
      assert Holders(db.bets, m)[i] in Holders(db.bets, m);
    }
    PostTotal(db.balances, credits);
    HoldersAreBets(db.bets, m);
    assert MarketOk(db.markets[m], m, db.pools);
    SettlementEmptiesEscrow(db, m, db.markets[m].(status := Cancelled));
  }

  lemma AdjustSupply(db: Db, u: UserId, delta: int64)
    requires BalancesOk(db) && AdjustBalanceTx(db, u, delta).Committed?
    ensures AdjustBalanceTx(db, u, delta).db.balances == db.balances[u := db.balances[u] + delta]
    ensures Supply(AdjustBalanceTx(db, u, delta).db) == Supply(db) + delta
  {
    var exact := db.balances[u] + delta;
    if exact > MAX {
      WrapUnique(exact, exact - TWO_TO_64);
    } else {
      WrapUnique(exact, exact);
    }
    TotalUpdate(db.balances, u, exact, Id);
  }

  lemma BuySupply(db: Db, l: ListingId, buyer: UserId)
    requires BuyBetTx(db, l, buyer).Committed?
    ensures Supply(BuyBetTx(db, l, buyer).db) == Supply(db)
  {
    var listing := db.listings[l];
    var paid := db.balances[buyer := db.balances[buyer] - listing.price];
    TotalUpdate(db.balances, buyer, db.balances[buyer] - listing.price, Id);
    TotalUpdate(paid, listing.seller, paid[listing.seller] + listing.price, Id);
    var b := listing.bet;
    TotalUpdate(db.bets, b, db.bets[b].(owner := buyer), InEscrow(db.markets));
  }

  // ------------------------------------------------------------ conservation

  /** Money entering or leaving through the wallet. */
  function Injected(r: Request): int {
    if r.AdjustBalance? then r.delta else 0
  }

  /** The two places where int64 arithmetic can break conservation. */
  predicate NoOverflow(db: Db, r: Request) {
    match r
    case CreateMarket(_, outcomes, seed) => seed * |outcomes| <= MAX
    case ResolveMarket(m, o) =>
      PoolOf(db.pools, PoolKey(m, o)) > 0 ==> 0 <= MarketTotal(db, m) - PaidToWinners(db, m, o) <= MAX
    case _ => true
  }

  lemma ListingSupply(db: Db, c: Call)
    requires c.request.ListBet? || c.request.CancelListing? || c.request.InvalidateListing?
    requires Apply(db, c).Committed?
    ensures Supply(Apply(db, c).db) == Supply(db)
  {
  }

  lemma OtherSupply(db: Db, c: Call)
    requires Valid(db) && Apply(db, c).Committed?
    requires !c.request.CreateMarket? && !c.request.ResolveMarket?
    ensures Supply(Apply(db, c).db) == Supply(db) + Injected(c.request)
  {
    match c.request
    case PlaceBet(u, m, o, stake) => PlaceBetSupply(db, u, m, o, stake);
    case LockMarket(m) => LockSupply(db, m);
    case RefundMarket(m) => RefundSupply(db, m);
    case AdjustBalance(u, delta) => AdjustSupply(db, u, delta);
    case BuyBet(l, buyer) => BuySupply(db, l, buyer);
    case _ => ListingSupply(db, c);
  }

  /** A committed transaction conserves money if and only if neither the seed
      product nor the settlement overflows. */
  lemma ApplyConservesIff(db: Db, c: Call)
    requires Valid(db) && Possible(db, c) && Apply(db, c).Committed?
    ensures Supply(Apply(db, c).db) == Supply(db) + Injected(c.request) <==> NoOverflow(db, c.request)
  {
    hide Valid, Supply, CreateMarketTx, PlaceBetTx, LockMarketTx, ResolveMarketTx, RefundMarketTx, AdjustBalanceTx,
        ListBetTx, CancelListingTx, InvalidateListingTx, BuyBetTx, PaidToWinners, MarketTotal;
    match c.request
    case CreateMarket(question, outcomes, seed) => CreateMarketSupplyIff(db, question, outcomes, seed);
    case ResolveMarket(m, o) => ResolveSupplyIff(db, m, o, c.rows);
    case _ => OtherSupply(db, c);
  }

  /** Seeding four outcomes with 2^62 each costs the house nothing and puts 2^64
      into escrow, in any state. */
  lemma OverflowingSeedMints(db: Db)
    requires Valid(db)
    ensures var tx := CreateMarketTx(db, "q", ["a", "b", "c", "d"], 0x4000_0000_0000_0000);
      tx.Committed? && Supply(tx.db) == Supply(db) + TWO_TO_64
  {
    var outcomes := ["a", "b", "c", "d"];
    WrapUnique(0x4000_0000_0000_0000 * 4, 0);
    assert outcomes[0] == "a" && outcomes[1] == "b" && outcomes[2] == "c" && outcomes[3] == "d";
    assert Storable(outcomes);
    CreateMarketSupply(db, "q", outcomes, 0x4000_0000_0000_0000);
  }
}
