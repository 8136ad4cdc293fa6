/** What the market pages derive from the pools and the bet list, and why it
    agrees with both. */
module Views {
  import opened Int64
  import opened Sums
  import opened Tables
  import opened Wrappers
  import opened Settlement
  import opened Transactions
  import opened Invariants
  import opened Accounting

  const SIM := "SIM"

  // ------------------------------------------------------------------ real bets

  /** Anything above the seeds in the pool is a real bet. */
  predicate HasRealBets(seed: int64, outcomes: nat, totalPool: int64) {
    totalPool > Wrap(seed * outcomes)
  }

  /** Some bet on the market is not one of the seeds it was created with. */
  predicate RealBetPlaced(db: Db, m: MarketId)
    requires m < |db.markets|
  {
    |Wagers(db.bets, m)| > |SeedWagers(db.markets[m])|
  }

  function Staked(w: Wager): int { w.stake }

  lemma {:induction false} WagersAddUp(bets: seq<Bet>, m: MarketId)
    ensures Total(Wagers(bets, m), Staked) == Total(bets, OnMarket(m))
  {
    if |bets| > 0 {
      var n := |bets| - 1;
      var early := Wagers(bets[..n], m);
      WagersAddUp(bets[..n], m);
      assert early + [] == early;
      TotalAppend(early, Wager(bets[n].outcome, bets[n].stake), Staked);
    }
  }

  lemma {:induction false} WagersArePositive(bets: seq<Bet>, m: MarketId)
    requires forall b :: 0 <= b < |bets| ==> bets[b].stake > 0
    ensures forall i :: 0 <= i < |Wagers(bets, m)| ==> Wagers(bets, m)[i].stake > 0
  {
    if |bets| > 0 {
      WagersArePositive(bets[..|bets| - 1], m);
    }
  }

  lemma {:induction false} EqualStakes(s: seq<Wager>, stake: int)
    requires forall i :: 0 <= i < |s| ==> s[i].stake == stake
    ensures Total(s, Staked) == stake * |s|
  {
    if |s| > 0 {
      EqualStakes(s[..|s| - 1], stake);
      assert stake * |s| == stake * (|s| - 1) + stake;
    }
  }

  lemma {:induction false} SeedsComeFirst(db: Db, m: MarketId)
    requires Valid(db) && m < |db.markets|
    ensures db.markets[m].seed >= 0 && SeedWagers(db.markets[m]) <= Wagers(db.bets, m)
    ensures forall i :: 0 <= i < |Wagers(db.bets, m)| ==> Wagers(db.bets, m)[i].stake > 0
  {
    hide Wagers, SeedWagers;
    assert MarketOk(db.markets[m], m, db.pools);
    assert forall b :: 0 <= b < |db.bets| ==> BetOk(db, db.bets[b]);
    WagersArePositive(db.bets, m);
  }

  /** The pool is the seeds plus what was really bet, and only the latter exceeds
      them. */
  lemma PoolAboveSeeds(db: Db, m: MarketId)
    requires Valid(db) && m < |db.markets|
    ensures var seeds := db.markets[m].seed * |db.markets[m].outcomes|;
      0 <= seeds <= MarketTotal(db, m) && (MarketTotal(db, m) > seeds <==> RealBetPlaced(db, m))
  {
    hide Valid, Wagers, Total, SeedWagers;
    var market, wagers := db.markets[m], Wagers(db.bets, m);
    SeedsComeFirst(db, m);
    WagersAddUp(db.bets, m);
    var seeds := SeedWagers(market);
    var rest := wagers[|seeds|..];
    assert wagers == seeds + rest;
    TotalConcat(seeds, rest, Staked);
    SeedStakes(market);
    EqualStakes(seeds, market.seed);
    SeedsTotal(market);
    PositiveTotal(rest);
  }

  lemma SeedStakes(market: Market)
    ensures forall i :: 0 <= i < |SeedWagers(market)| ==> SeedWagers(market)[i].stake == market.seed
  {
  }

  lemma SeedsTotal(market: Market)
    requires market.seed >= 0
    ensures market.seed * |SeedWagers(market)| == market.seed * |market.outcomes| >= 0
  {
  }

  lemma {:induction false} PositiveTotal(s: seq<Wager>)
    requires forall i :: 0 <= i < |s| ==> s[i].stake > 0
    ensures Total(s, Staked) >= 0 && (Total(s, Staked) > 0 <==> |s| > 0)
  {
    if |s| > 0 {
      PositiveTotal(s[..|s| - 1]);
    }
  }

  /** How often int64 has wrapped around on the way to `x`. */
  function Wraps(x: int): int { (x + 9_223_372_036_854_775_808) / 18_446_744_073_709_551_616 }

  lemma WrapsIs(x: int)
    ensures Wrap(x) == x - TWO_TO_64 * Wraps(x)
    ensures MIN <= x <= MAX <==> Wraps(x) == 0
  {
    WrapUnique(x, x - TWO_TO_64 * Wraps(x));
  }

  /** What was bet on a market besides its seeds. */
  function RealStakes(db: Db, m: MarketId): int
    requires m < |db.markets|
  {
    MarketTotal(db, m) - db.markets[m].seed * |db.markets[m].outcomes|
  }

  /** The flag is raised if and only if the real stakes exceed 2^64 for each time
      int64 wraps between the seed total and the pool total - with no wrap between
      them, whenever there are any. */
  lemma HasRealBetsIff(db: Db, m: MarketId)
    requires Valid(db) && m < |db.markets|
    ensures var seeds := db.markets[m].seed * |db.markets[m].outcomes|;
      var shown := HasRealBets(db.markets[m].seed, |db.markets[m].outcomes|, TotalPool(db, m));
      var wraps := Wraps(MarketTotal(db, m)) - Wraps(seeds);
      && (shown <==> RealStakes(db, m) > 18_446_744_073_709_551_616 * wraps)
      && (RealBetPlaced(db, m) <==> RealStakes(db, m) > 0)
      && (shown ==> RealBetPlaced(db, m)) && wraps >= 0 && (MarketTotal(db, m) <= MAX ==> wraps == 0)
  {
    hide BalancesOk, ListingsOk, ChainsOk, SeedsOk, BetsOk, PoolsOk, MarketsOk, Wagers, Total, Wrap, RealBetPlaced;
    var seeds := db.markets[m].seed * |db.markets[m].outcomes|;
    PoolAboveSeeds(db, m);
    PoolsAddUp(db, m);
    WrapsIs(MarketTotal(db, m));
    WrapsIs(seeds);
    WrapsGrow(seeds, MarketTotal(db, m));
  }

  lemma WrapsGrow(a: int, b: int)
    requires 0 <= a <= b
    ensures 0 <= Wraps(a) <= Wraps(b)
  {
  }

  /** Two users have bet 2^62 each, on different outcomes of a market without seed. */
  const HUGE := Db(
    [0, 0, 0],
    [Market("q", ["SIM", "NAO"], Open, 0, None)],
    map[PoolKey(0, "SIM") := 0x4000_0000_0000_0000, PoolKey(0, "NAO") := 0x4000_0000_0000_0000],
    [Bet(0, 1, 1, "SIM", 0x4000_0000_0000_0000), Bet(0, 2, 2, "NAO", 0x4000_0000_0000_0000)],
    [])

  lemma HugeTotals(f: Bet -> int)
    ensures Total(HUGE.bets, f) == f(HUGE.bets[0]) + f(HUGE.bets[1])
  {
    assert HUGE.bets == [] + [HUGE.bets[0]] + [HUGE.bets[1]];
    TotalAppend([] + [HUGE.bets[0]], HUGE.bets[1], f);
    TotalAppend([], HUGE.bets[0], f);
  }

  lemma HugePools()
    ensures PoolsOk(HUGE) && MarketsOk(HUGE)
  {
    hide Total;
    var outcomes := HUGE.markets[0].outcomes;
    assert outcomes[0] == "SIM" && outcomes[1] == "NAO" && "SIM"[0] != "NAO"[0];
    forall k | k in HUGE.pools ensures PoolOk(HUGE, k) {
      HugeTotals(OnPool(k));
    }
  }

  lemma HugeIsValid()
    ensures Valid(HUGE)
  {
    hide PoolsOk, MarketsOk;
    HugePools();
    var outcomes := HUGE.markets[0].outcomes;
    assert outcomes[0] == "SIM" && outcomes[1] == "NAO";
  }

  /** Its int64 total is negative, and the market looks as if nobody had bet. */
  lemma HugePoolHidesBets()
    ensures Valid(HUGE) && RealBetPlaced(HUGE, 0)
    ensures !HasRealBets(HUGE.markets[0].seed, |HUGE.markets[0].outcomes|, TotalPool(HUGE, 0))
  {
    hide Valid, RealBetPlaced, Total, Wrap;
    HugeIsValid();
    HugeTotals(OnMarket(0));
    HasRealBetsIff(HUGE, 0);
  }

  // ------------------------------------------------------------------- sparkline

  /** One plotted point, before it becomes a percentage: SIM and total so far. */
  datatype Point = Point(sim: int64, total: int64)

  function OnSim(w: Wager): int { if w.outcome == SIM then w.stake else 0 }

  function OffSim(w: Wager): int { if w.outcome == SIM then 0 else w.stake }

  function PointAfter(bets: seq<Wager>): Point {
    Point(Wrap(Total(bets, OnSim)), Wrap(Total(bets, Staked)))
  }

  /** The replay of buildSparklinePoly: one point per bet, each the totals of the
      bets so far. */
  method ReplaySparkline(bets: seq<Wager>) returns (simTotal: int64, naoTotal: int64, points: seq<Point>)
    ensures simTotal == Wrap(Total(bets, OnSim)) && naoTotal == Wrap(Total(bets, OffSim))
    ensures |points| == |bets|
    ensures forall i :: 0 <= i < |bets| ==> points[i] == PointAfter(bets[..i + 1])
  {
    hide Wrap, Total, PointAfter;
    NothingYet();
    simTotal, naoTotal, points := 0, 0, [];
    assert bets[..0] == [];
    for i := 0 to |bets|
      invariant simTotal == Wrap(Total(bets[..i], OnSim)) && naoTotal == Wrap(Total(bets[..i], OffSim))
      invariant |points| == i
      invariant forall k :: 0 <= k < i ==> points[k] == PointAfter(bets[..k + 1])
    {
      OneMore(bets, i);
      if bets[i].outcome == SIM {
        simTotal := Wrap(simTotal + bets[i].stake);
      } else {
        naoTotal := Wrap(naoTotal + bets[i].stake);
      }
      PointIs(bets[..i + 1]);
      points := points + [Point(simTotal, Wrap(simTotal + naoTotal))];
    }
    assert bets[..|bets|] == bets;
  }

  lemma NothingYet()
    ensures Wrap(Total([], OnSim)) == 0 && Wrap(Total([], OffSim)) == 0
  {
  }

  lemma OneMore(bets: seq<Wager>, i: nat)
    requires i < |bets|
    ensures var sim, off, b := Wrap(Total(bets[..i], OnSim)), Wrap(Total(bets[..i], OffSim)), bets[i];
      && Wrap(Total(bets[..i + 1], OnSim)) == (if b.outcome == SIM then Wrap(sim + b.stake) else sim)
      && Wrap(Total(bets[..i + 1], OffSim)) == (if b.outcome == SIM then off else Wrap(off + b.stake))
  {
    hide Wrap, Total;
    assert bets[..i + 1] == bets[..i] + [bets[i]];
    TotalAppend(bets[..i], bets[i], OnSim);
    TotalAppend(bets[..i], bets[i], OffSim);
    WrapSum(Total(bets[..i], OnSim), bets[i].stake);
    WrapSum(Total(bets[..i], OffSim), bets[i].stake);
  }

  lemma {:induction false} PointIs(bets: seq<Wager>)
    ensures var sim, off := Wrap(Total(bets, OnSim)), Wrap(Total(bets, OffSim));
      PointAfter(bets) == Point(sim, Wrap(sim + off))
  {
    hide Wrap, Total;
    SplitTotal(bets);
    WrapSum(Total(bets, OnSim), Wrap(Total(bets, OffSim)));
    WrapSum(Total(bets, OffSim), Total(bets, OnSim));
  }

  lemma {:induction false} SplitTotal(bets: seq<Wager>)
    ensures Total(bets, Staked) == Total(bets, OnSim) + Total(bets, OffSim)
  {
    TotalSplit(bets, Staked, OnSim, OffSim);
  }

  lemma {:induction false} SimIsPool(bets: seq<Bet>, m: MarketId)
    ensures Total(Wagers(bets, m), OnSim) == Total(bets, OnPool(PoolKey(m, SIM)))
  {
    if |bets| > 0 {
      var n := |bets| - 1;
      var early := Wagers(bets[..n], m);
      SimIsPool(bets[..n], m);
      assert early + [] == early;
      TotalAppend(early, Wager(bets[n].outcome, bets[n].stake), OnSim);
    }
  }

  /** The replay of a market's bets ends at its SIM pool - zero if it has no such
      outcome - and at its total pool, for any history, resales included. */
  lemma {:induction false} SparklineEndsAtPools(db: Db, m: MarketId)
    requires Valid(db) && m < |db.markets|
    ensures PointAfter(Wagers(db.bets, m)) == Point(PoolOf(db.pools, PoolKey(m, "SIM")), TotalPool(db, m))
    ensures Wrap(Wrap(Total(Wagers(db.bets, m), OnSim)) + Wrap(Total(Wagers(db.bets, m), OffSim))) == TotalPool(db, m)
  {
    hide MarketsOk, PoolsOk, BetsOk, ListingsOk, ChainsOk, SeedsOk, BalancesOk, Wagers, Total, Wrap;
    var wagers := Wagers(db.bets, m);
    SimPool(db, m);
    SimIsPool(db.bets, m);
    WagersAddUp(db.bets, m);
    PoolsAddUp(db, m);
    WrapShrinks(PoolOf(db.pools, PoolKey(m, SIM)));
    PointIs(wagers);
  }

  lemma SimPool(db: Db, m: MarketId)
    requires Valid(db) && m < |db.markets|
    ensures PoolOf(db.pools, PoolKey(m, SIM)) == Total(db.bets, OnPool(PoolKey(m, SIM))) <= MAX
  {
    var k := PoolKey(m, SIM);
    if k in db.pools {
      assert PoolOk(db, k);
    } else {
      forall b | 0 <= b < |db.bets| ensures OnPool(k)(db.bets[b]) == 0 {
        assert BetOk(db, db.bets[b]);
        assert MarketOk(db.markets[m], m, db.pools);
      }
      TotalNothing(db.bets, OnPool(k));
    }
  }

  // ----------------------------------------------------------------- percentages

  function Pct(part: int64, total: int64): int {
    if total <= 0 then 0 else var exact: int := part; Quot(Wrap(exact * 100), total)
  }

  /** A share of the pool is shown as its floored percentage if and only if a
      hundred times the part fits int64. */
  lemma PctExactIff(part: int64, total: int64)
    requires 0 <= part <= total && total > 0
    ensures Pct(part, total) == part * 100 / total <==> part * 100 <= MAX
    ensures part * 100 <= MAX ==> 0 <= Pct(part, total) <= 100
  {
    var exact: int := part;
    WrappedQuotient(exact * 100, total);
    QuotientMonotone(0, exact * 100, total);
    QuotientMonotone(exact * 100, total * 100, total);
    assert (total * 100) / total == 100 by { Hundred(total); }
  }

  /** The other side is shown as what is missing to 100: its own percentage, rounded
      up. */
  lemma OtherSideRoundsUp(part: int64, other: int64, total: int64)
    requires part >= 0 && other >= 0 && part + other == total && total > 0 && part * 100 <= MAX
    ensures var shown := 100 - Pct(part, total);
      0 <= shown && (shown - 1) * total < other * 100 <= shown * total
  {
    var exact: int := part;
    PctExactIff(part, total);
    var pct := exact * 100 / total;
    assert pct * total <= exact * 100 < pct * total + total;
    Complement(pct, exact, other, total);
  }

  lemma Complement(pct: int, part: int, other: int, total: int)
    requires part + other == total && pct * total <= part * 100 < pct * total + total
    ensures (99 - pct) * total < other * 100 <= (100 - pct) * total
  {
    assert (100 - pct) * total == 100 * total - pct * total;
    assert (99 - pct) * total == 100 * total - pct * total - total;
  }

  lemma Hundred(total: int)
    requires total > 0
    ensures (total * 100) / total == 100
  {
  }
}
