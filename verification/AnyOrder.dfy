/** Settlement reads its bets without ORDER BY: what depends on the order in which
    they come back, and what does not. */
module AnyOrder {
  import opened Int64
  import opened Sums
  import opened Tables
  import opened Wrappers
  import opened Settlement
  import opened Transactions
  import opened Invariants
  import opened Accounting

  lemma {:induction false} RefundOrderFree(balances: seq<int>, hs: seq<Holding>, rows: seq<Holding>)
    requires multiset(hs) == multiset(rows)
    ensures multiset(Refunds(hs)) == multiset(Refunds(rows))
    ensures Post(balances, Refunds(hs)) == Post(balances, Refunds(rows))
  {
    MapOrderFree(hs, rows, RefundCredit);
    PostOrderFree(balances, Refunds(hs), Refunds(rows));
  }

  predicate NoneNegative(credits: seq<Credit>) {
    forall c :: c in credits ==> c.amount >= 0
  }

  predicate AllExist(balances: seq<int>, credits: seq<Credit>) {
    forall c :: c in credits ==> c.user < |balances|
  }

  /** Reordering credits keeps their users and signs. */
  lemma SameMembers(credits: seq<Credit>, reordered: seq<Credit>)
    requires multiset(credits) == multiset(reordered)
    ensures forall c :: c in credits <==> c in reordered
  {
    forall c ensures c in credits <==> c in reordered {
      assert c in credits <==> c in multiset(credits);
      assert c in reordered <==> c in multiset(reordered);
    }
  }

  /** With no negative credit, whether the updates abort does not depend on the
      order either. */
  lemma {:induction false} PostableOrderFree(balances: seq<int>, credits: seq<Credit>, reordered: seq<Credit>)
    requires multiset(credits) == multiset(reordered)
    requires AllExist(balances, credits) && NoneNegative(credits) && WithinColumn(balances)
    ensures Postable(balances, credits) <==> Postable(balances, reordered)
    ensures Postable(balances, credits) <==> WithinColumn(Post(balances, credits))
  {
    SameMembers(credits, reordered);
    PostOrderFree(balances, credits, reordered);
    PostableIff(balances, credits);
    PostableIff(balances, reordered);
  }

  /** A refund pays the same and fails the same, whatever the order. */
  lemma {:induction false} RefundFacts(db: Db, m: MarketId, rows: seq<Holding>)
    requires Valid(db) && multiset(rows) == multiset(Holders(db.bets, m))
    ensures forall i :: 0 <= i < |rows| ==> rows[i].owner < |db.balances|
    ensures Post(db.balances, Refunds(rows)) == Post(db.balances, Refunds(Holders(db.bets, m)))
    ensures Postable(db.balances, Refunds(rows)) <==> Postable(db.balances, Refunds(Holders(db.bets, m)))
  {
    var credits, spec := Refunds(rows), Refunds(Holders(db.bets, m));
    OwnersExist(db, m, "");
    HoldersArePositive(db, m);
    RefundOrderFree(db.balances, Holders(db.bets, m), rows);
    SameMembers(credits, spec);
    forall c | c in spec ensures c.user < |db.balances| && c.amount >= 0 {
      var i :| 0 <= i < |spec| && spec[i] == c;
      assert Holders(db.bets, m)[i] in Holders(db.bets, m);
    }
    PostableOrderFree(db.balances, spec, credits);
    forall i | 0 <= i < |rows| ensures rows[i].owner < |db.balances| {
      assert credits[i] in spec;
    }
  }

  lemma WithinValid(db: Db)
    requires BalancesOk(db)
    ensures WithinColumn(db.balances) && HOUSE < |db.balances|
  {
  }

  lemma {:induction false} PoolsAreTotals(db: Db, m: MarketId, o: string)
    requires Valid(db) && m < |db.markets| && PoolOf(db.pools, PoolKey(m, o)) > 0
    requires MarketTotal(db, m) <= SAFE_POOL
    ensures TotalPool(db, m) == MarketTotal(db, m) && PoolOf(db.pools, PoolKey(m, o)) <= MarketTotal(db, m)
    ensures Total(Winners(db.bets, m, o), HeldStake) == PoolOf(db.pools, PoolKey(m, o))
    ensures forall i :: 0 <= i < |Winners(db.bets, m, o)| ==> Winners(db.bets, m, o)[i].stake > 0
  {
    hide BalancesOk, MarketsOk, PoolsOk, BetsOk, ListingsOk, ChainsOk, SeedsOk, Total, Winners, Wrap;
    PoolsAddUp(db, m);
    WinningPoolBounds(db, m, o);
    WrapShrinks(MarketTotal(db, m));
  }

  /** Up to SAFE_POOL no credit is negative, so neither the outcome of a settlement
      nor the balances after it depend on the order of its rows. */
  lemma {:induction false} SafePoolNoneNegative(db: Db, m: MarketId, o: string)
    requires Valid(db) && m < |db.markets| && PoolOf(db.pools, PoolKey(m, o)) > 0
    requires MarketTotal(db, m) <= SAFE_POOL
    ensures NoneNegative(PayoutCredits(db, m, o, Winners(db.bets, m, o)))
  {
    hide Valid, Total, Winners, Wrap, TotalPool, Distributable, HouseGain, Payout;
    var pool, total, winners := PoolOf(db.pools, PoolKey(m, o)), MarketTotal(db, m), Winners(db.bets, m, o);
    PoolsAreTotals(db, m, o);
    var d := total - total * 3 / 100;
    SafePayouts(total, pool, winners);
    var credits := PayoutCredits(db, m, o, winners);
    forall c | c in credits ensures c.amount >= 0 {
      var i :| 0 <= i < |credits| && credits[i] == c;
      if i < |winners| {
        SharesNotNegative(winners[i].stake, d, pool);
      }
    }
  }

  lemma SharesNotNegative(stake: int, d: int, pool: int)
    requires stake >= 0 && d >= 0 && pool > 0
    ensures Share(stake, d, pool) >= 0
  {
    assert stake * d >= 0;
    QuotientMonotone(0, stake * d, pool);
  }

  lemma PrefixPostable(balances: seq<int>, payouts: seq<Credit>, credits: seq<Credit>)
    ensures payouts <= credits && Postable(balances, credits) ==> Postable(balances, payouts)
  {
    if payouts <= credits {
      assert forall k :: 0 <= k <= |payouts| ==> payouts[..k] == credits[..k];
    }
  }

  lemma {:induction false} HouseStep(balances: seq<int>, payouts: seq<Credit>, gain: int)
    requires HOUSE < |balances| && Postable(balances, payouts) && WithinColumn(balances) && gain > 0
    ensures var p, credits := Post(balances, payouts), payouts + [Credit(HOUSE, gain)];
      && Post(balances, credits) == p[HOUSE := p[HOUSE] + gain]
      && (Postable(balances, credits) <==> p[HOUSE] + gain <= MAX)
  {
    var credits := payouts + [Credit(HOUSE, gain)];
    assert credits[..|payouts|] == payouts && credits[..|payouts| + 1] == credits;
    PostStep(balances, credits, |payouts|);
    PostableWithin(balances, payouts);
  }

  // ------------------------------------------------ what any order can be applied

  function Losses(u: UserId): Credit -> int {
    (c: Credit) => if c.user == u && c.amount < 0 then c.amount else 0
  }

  function Gains(u: UserId): Credit -> int {
    (c: Credit) => if c.user == u && c.amount > 0 then c.amount else 0
  }

  /** Every user could take all their losses first, or all their gains. */
  predicate NeverOutOfRange(balances: seq<int>, credits: seq<Credit>) {
    forall u :: 0 <= u < |balances| ==>
      0 <= balances[u] + Total(credits, Losses(u)) && balances[u] + Total(credits, Gains(u)) <= MAX
  }

  ghost predicate PostableInAnyOrder(balances: seq<int>, credits: seq<Credit>) {
    forall s: seq<Credit> :: multiset(s) == multiset(credits) ==> Postable(balances, s)
  }

  lemma {:induction false} ToSplits(s: seq<Credit>, u: UserId)
    ensures Total(s, To(u)) == Total(s, Losses(u)) + Total(s, Gains(u))
  {
    TotalSplit(s, To(u), Losses(u), Gains(u));
  }

  /** A prefix loses no more and gains no more than the whole. */
  lemma {:induction false} PrefixBetween(s: seq<Credit>, k: nat, u: UserId)
    requires k <= |s|
    ensures Total(s, Losses(u)) <= Total(s[..k], To(u)) <= Total(s, Gains(u))
  {
    assert s == s[..k] + s[k..];
    TotalConcat(s[..k], s[k..], Losses(u));
    TotalConcat(s[..k], s[k..], Gains(u));
    ToSplits(s[..k], u);
    hide Total;
    SignedTotals(s[..k], u);
    SignedTotals(s[k..], u);
  }

  lemma {:induction false} SignedTotals(s: seq<Credit>, u: UserId)
    ensures Total(s, Losses(u)) <= 0 <= Total(s, Gains(u))
  {
    if |s| > 0 {
      SignedTotals(s[..|s| - 1], u);
    }
  }

  lemma InRangeIsPostable(balances: seq<int>, credits: seq<Credit>, s: seq<Credit>)
    requires multiset(s) == multiset(credits) && NeverOutOfRange(balances, credits)
    ensures Postable(balances, s)
  {
    hide Post, Total;
    forall k | 0 < k <= |s| && s[k - 1].user < |balances|
      ensures 0 <= Post(balances, s[..k])[s[k - 1].user] <= MAX
    {
      var u := s[k - 1].user;
      PostAt(balances, s[..k], u);
      PrefixBetween(s, k, u);
      TotalOrderFree(s, credits, Losses(u));
      TotalOrderFree(s, credits, Gains(u));
    }
  }

  function Loses(u: UserId): Credit -> bool { (c: Credit) => c.user == u && c.amount < 0 }

  function LosesNot(u: UserId): Credit -> bool { (c: Credit) => !(c.user == u && c.amount < 0) }

  function Gets(u: UserId): Credit -> bool { (c: Credit) => c.user == u && c.amount > 0 }

  function GetsNot(u: UserId): Credit -> bool { (c: Credit) => !(c.user == u && c.amount > 0) }

  /** With all of `u`'s credits of one sign first, the last of them shows what they
      add up to. */
  lemma {:induction false} FirstShow(balances: seq<int>, first: seq<Credit>, rest: seq<Credit>, u: UserId)
    requires u < |balances| && |first| > 0 && first[|first| - 1].user == u && Postable(balances, first + rest)
    ensures 0 <= balances[u] + Total(first, To(u)) <= MAX
  {
    hide Post, Total;
    var s, k := first + rest, |first|;
    assert s[..k] == first && s[k - 1] == first[k - 1];
    PostAt(balances, first, u);
  }

  lemma {:induction false} PostableBoundsLosses(balances: seq<int>, credits: seq<Credit>, u: UserId)
    requires PostableInAnyOrder(balances, credits) && WithinColumn(balances) && u < |balances|
    ensures 0 <= balances[u] + Total(credits, Losses(u))
  {
    hide Postable, Total, Keep;
    var first, rest := Keep(credits, Loses(u)), Keep(credits, LosesNot(u));
    KeepSplits(credits, Loses(u), LosesNot(u));
    KeptSatisfy(credits, Loses(u));
    KeepTotal(credits, Loses(u), To(u), Losses(u));
    if |first| > 0 {
      assert first[|first| - 1] in first;
      FirstShow(balances, first, rest, u);
    } else {
      NothingTo(first, u);
    }
  }

  lemma {:induction false} PostableBoundsGains(balances: seq<int>, credits: seq<Credit>, u: UserId)
    requires PostableInAnyOrder(balances, credits) && WithinColumn(balances) && u < |balances|
    ensures balances[u] + Total(credits, Gains(u)) <= MAX
  {
    hide Postable, Total, Keep;
    var first, rest := Keep(credits, Gets(u)), Keep(credits, GetsNot(u));
    KeepSplits(credits, Gets(u), GetsNot(u));
    KeptSatisfy(credits, Gets(u));
    KeepTotal(credits, Gets(u), To(u), Gains(u));
    if |first| > 0 {
      assert first[|first| - 1] in first;
      FirstShow(balances, first, rest, u);
    } else {
      NothingTo(first, u);
    }
  }

  lemma {:induction false} NothingTo(s: seq<Credit>, u: UserId)
    requires |s| == 0
    ensures Total(s, To(u)) == 0
  {
  }

  /** Every order of the updates succeeds if and only if each user can take their
      losses alone and their gains alone. */
  lemma AnyOrderIff(balances: seq<int>, credits: seq<Credit>)
    requires WithinColumn(balances)
    ensures PostableInAnyOrder(balances, credits) <==> NeverOutOfRange(balances, credits)
  {
    hide Postable, Total;
    if NeverOutOfRange(balances, credits) {
      forall s: seq<Credit> | multiset(s) == multiset(credits) ensures Postable(balances, s) {
        InRangeIsPostable(balances, credits, s);
      }
    }
    if PostableInAnyOrder(balances, credits) {
      forall u | 0 <= u < |balances|
        ensures 0 <= balances[u] + Total(credits, Losses(u)) && balances[u] + Total(credits, Gains(u)) <= MAX
      {
        PostableBoundsLosses(balances, credits, u);
        PostableBoundsGains(balances, credits, u);
      }
    }
  }

  // ---------------------------------------------- which settlements can be applied

  ghost predicate SettlesInAnyOrder(balances: seq<int>, total: int, pool: int, winners: seq<Holding>)
    requires pool > 0
  {
    forall rows: seq<Holding> :: multiset(rows) == multiset(winners) ==>
      Postable(balances, SettlementCredits(total, pool, rows))
  }

  /** Each winner can take their losses alone and their gains alone, and the house
      its share after all of them. */
  predicate SettlementFits(balances: seq<int>, total: int, pool: int, winners: seq<Holding>)
    requires pool > 0 && HOUSE < |balances|
  {
    var payouts := Payouts(winners, Distributable(total), pool);
    var gain := HouseGain(total, Total(payouts, Amount));
    && NeverOutOfRange(balances, payouts)
    && (gain > 0 ==> balances[HOUSE] + Total(payouts, To(HOUSE)) + gain <= MAX)
  }

  lemma PayoutsOrderFree(winners: seq<Holding>, rows: seq<Holding>, d: int, pool: int)
    requires pool > 0 && multiset(rows) == multiset(winners)
    ensures multiset(Payouts(rows, d, pool)) == multiset(Payouts(winners, d, pool))
    ensures Total(Payouts(rows, d, pool), Amount) == Total(Payouts(winners, d, pool), Amount)
    ensures Total(Payouts(rows, d, pool), To(HOUSE)) == Total(Payouts(winners, d, pool), To(HOUSE))
  {
    MapOrderFree(rows, winners, PayoutCredit(d, pool));
    TotalOrderFree(Payouts(rows, d, pool), Payouts(winners, d, pool), Amount);
    TotalOrderFree(Payouts(rows, d, pool), Payouts(winners, d, pool), To(HOUSE));
  }

  /** The payouts are applied first, the house share last. */
  lemma HouseLast(balances: seq<int>, total: int, pool: int, rows: seq<Holding>)
    requires pool > 0 && HOUSE < |balances| && WithinColumn(balances)
    ensures var payouts := Payouts(rows, Distributable(total), pool);
      var gain := HouseGain(total, Total(payouts, Amount));
      Postable(balances, SettlementCredits(total, pool, rows)) <==>
        && Postable(balances, payouts)
        && (gain > 0 ==> balances[HOUSE] + Total(payouts, To(HOUSE)) + gain <= MAX)
  {
    hide Postable, Post, Total, Payouts, Distributable, HouseGain;
    var payouts := Payouts(rows, Distributable(total), pool);
    var gain := HouseGain(total, Total(payouts, Amount));
    PostAt(balances, payouts, HOUSE);
    PrefixPostable(balances, payouts, payouts + [Credit(HOUSE, gain)]);
    if gain > 0 && Postable(balances, payouts) {
      HouseStep(balances, payouts, gain);
    }
  }

  /** Every order of the winning bets settles if and only if nobody's balance leaves
      the column when losses or gains are taken alone. */
  lemma SettlementAnyOrderIff(balances: seq<int>, total: int, pool: int, winners: seq<Holding>)
    requires pool > 0 && HOUSE < |balances| && WithinColumn(balances)
    ensures SettlesInAnyOrder(balances, total, pool, winners) <==> SettlementFits(balances, total, pool, winners)
  {
    hide Postable, Total, Payouts, Distributable, HouseGain, SettlementCredits, NeverOutOfRange;
    var d := Distributable(total);
    var payouts := Payouts(winners, d, pool);
    if SettlementFits(balances, total, pool, winners) {
      forall rows: seq<Holding> | multiset(rows) == multiset(winners)
        ensures Postable(balances, SettlementCredits(total, pool, rows))
      {
        PayoutsOrderFree(winners, rows, d, pool);
        InRangeIsPostable(balances, payouts, Payouts(rows, d, pool));
        HouseLast(balances, total, pool, rows);
      }
    }
    if SettlesInAnyOrder(balances, total, pool, winners) {
      HouseLast(balances, total, pool, winners);
      forall s: seq<Credit> | multiset(s) == multiset(payouts) ensures Postable(balances, s) {
        PayoutsReorder(winners, d, pool, s);
        var rows: seq<Holding> :| multiset(rows) == multiset(winners) && Payouts(rows, d, pool) == s;
        HouseLast(balances, total, pool, rows);
      }
      AnyOrderIff(balances, payouts);
    }
  }

  lemma PayoutsReorder(winners: seq<Holding>, d: int, pool: int, s: seq<Credit>)
    requires pool > 0 && multiset(s) == multiset(Payouts(winners, d, pool))
    ensures exists rows: seq<Holding> :: multiset(rows) == multiset(winners) && Payouts(rows, d, pool) == s
  {
    var rows := MapReorder(winners, s, PayoutCredit(d, pool));
    assert Payouts(rows, d, pool) == s;
  }

  /** Settling market `m` on `o` succeeds whatever order its winning bets come in. */
  predicate PayableInAnyOrder(db: Db, m: MarketId, o: string)
    requires m < |db.markets| && PoolOf(db.pools, PoolKey(m, o)) > 0 && HOUSE < |db.balances|
  {
    SettlementFits(db.balances, TotalPool(db, m), PoolOf(db.pools, PoolKey(m, o)), Winners(db.bets, m, o))
  }

  // ------------------------------------------------- a settlement that depends on it

  /** A locked market with seven billion in its pools: user 1 holds both winning
      bets, user 2 the losing one. */
  const SPLIT := Db(
    [0, 0, 0],
    [Market("q", ["SIM", "NAO"], Locked, 0, None)],
    map[PoolKey(0, "SIM") := 3_500_000_000, PoolKey(0, "NAO") := 3_500_000_000],
    [Bet(0, 1, 1, "SIM", 2_716_000_000), Bet(0, 1, 1, "SIM", 784_000_000), Bet(0, 2, 2, "NAO", 3_500_000_000)],
    [])

  lemma SplitPools()
    ensures PoolsOk(SPLIT) && MarketsOk(SPLIT)
  {
    hide Total;
    var outcomes := SPLIT.markets[0].outcomes;
    assert outcomes[0] == "SIM" && outcomes[1] == "NAO" && "SIM"[0] != "NAO"[0];
    forall k | k in SPLIT.pools ensures PoolOk(SPLIT, k) {
      TotalOfThree(SPLIT.bets, OnPool(k));
    }
  }

  lemma SplitIsValid()
    ensures Valid(SPLIT)
  {
    hide PoolsOk, MarketsOk;
    SplitPools();
    var outcomes := SPLIT.markets[0].outcomes;
    assert outcomes[0] == "SIM" && outcomes[1] == "NAO";
  }

  lemma SplitRows()
    ensures Winners(SPLIT.bets, 0, "SIM") == [Holding(1, 2_716_000_000), Holding(1, 784_000_000)]
    ensures TotalPool(SPLIT, 0) == 7_000_000_000 && PoolOf(SPLIT.pools, PoolKey(0, "SIM")) == 3_500_000_000
    ensures ResolveGuard(SPLIT.markets[0], "SIM").None?
  {
    var bs := SPLIT.bets;
    assert "SIM"[0] != "NAO"[0];
    assert bs[..2] == [bs[0], bs[1]] && [bs[0], bs[1]][..1] == [bs[0]] && [bs[0]][..0] == [];
    assert Winners([bs[0]], 0, "SIM") == [Holding(1, 2_716_000_000)];
    assert Winners([bs[0], bs[1]], 0, "SIM") == [Holding(1, 2_716_000_000), Holding(1, 784_000_000)];
    var outcomes := SPLIT.markets[0].outcomes;
    assert outcomes[0] == "SIM" && outcomes[1] == "NAO";
    var totals := PoolTotals(SPLIT.pools, 0, outcomes);
    assert totals == [] + [3_500_000_000] + [3_500_000_000];
    TotalAppend([] + [3_500_000_000], 3_500_000_000, Id);
    TotalAppend([], 3_500_000_000, Id);
    WrapUnique(7_000_000_000, 7_000_000_000);
  }

  /** The larger product wraps below zero, the smaller one fits. */
  lemma SplitPayouts()
    ensures Distributable(7_000_000_000) == 6_790_000_000
    ensures Payout(2_716_000_000, 6_790_000_000, 3_500_000_000) == -1_458_306
    ensures Payout(784_000_000, 6_790_000_000, 3_500_000_000) == 1_520_960_000
  {
    CommissionExact(7_000_000_000);
    WrapUnique(2_716_000_000 * 6_790_000_000, 2_716_000_000 * 6_790_000_000 - TWO_TO_64);
    WrapUnique(784_000_000 * 6_790_000_000, 784_000_000 * 6_790_000_000);
  }

  lemma SplitFirstWay(gain: int)
    ensures !Postable([0, 0, 0], [Credit(1, -1_458_306), Credit(1, 1_520_960_000)] + [Credit(HOUSE, gain)])
    ensures !Postable([0, 0, 0], [Credit(1, -1_458_306), Credit(1, 1_520_960_000)])
  {
    var credits := [Credit(1, -1_458_306), Credit(1, 1_520_960_000)];
    var first := [Credit(1, -1_458_306)];
    assert credits[..1] == first && (credits + [Credit(HOUSE, gain)])[..1] == first && first[..0] == [];
    assert Post([0, 0, 0], []) == [0, 0, 0];
    assert Post([0, 0, 0], first)[1] == -1_458_306;
  }

  lemma SplitOtherWay()
    ensures Postable([0, 0, 0], [Credit(1, 1_520_960_000), Credit(1, -1_458_306)])
  {
    var credits := [Credit(1, 1_520_960_000), Credit(1, -1_458_306)];
    assert credits[..1] == [credits[0]] && credits[..2] == credits && [credits[0]][..0] == [];
    assert Post([0, 0, 0], []) == [0, 0, 0];
    assert Post([0, 0, 0], [credits[0]]) == [0, 1_520_960_000, 0];
    assert Post([0, 0, 0], credits) == [0, 1_519_501_694, 0];
  }

  /** With the bets read oldest first the settlement aborts on a negative balance;
      read the other way round, it commits. */
  lemma RowOrderDecides()
    ensures Valid(SPLIT) && ResolveMarketTx(SPLIT, 0, "SIM", Winners(SPLIT.bets, 0, "SIM")) == RolledBack(OutOfRange)
    ensures var rows := [Holding(1, 784_000_000), Holding(1, 2_716_000_000)];
      && multiset(rows) == multiset(Winners(SPLIT.bets, 0, "SIM"))
      && Postable(SPLIT.balances, SettlementCredits(TotalPool(SPLIT, 0), PoolOf(SPLIT.pools, PoolKey(0, "SIM")), rows))
  {
    hide Postable, Post, Winners, TotalPool, Distributable, Payout, HouseGain, Total, Valid, Wrap;
    var winners, rows := Winners(SPLIT.bets, 0, "SIM"), [Holding(1, 784_000_000), Holding(1, 2_716_000_000)];
    var d, pool := 6_790_000_000, 3_500_000_000;
    SplitIsValid();
    SplitRows();
    SplitPayouts();
    assert Payouts(winners, d, pool) == [Credit(1, -1_458_306), Credit(1, 1_520_960_000)];
    assert Payouts(rows, d, pool) == [Credit(1, 1_520_960_000), Credit(1, -1_458_306)];
    SplitFirstWay(HouseGain(7_000_000_000, Total(Payouts(winners, d, pool), Amount)));
    SplitOtherWay();
    HouseLast(SPLIT.balances, 7_000_000_000, pool, rows);
    SplitGain();
  }

  lemma SplitGain()
    ensures var payouts := [Credit(1, 1_520_960_000), Credit(1, -1_458_306)];
      && HouseGain(7_000_000_000, Total(payouts, Amount)) == 5_480_498_306
      && Total(payouts, To(HOUSE)) == 0
  {
    var payouts := [Credit(1, 1_520_960_000), Credit(1, -1_458_306)];
    assert payouts == [] + [Credit(1, 1_520_960_000)] + [Credit(1, -1_458_306)];
    TotalAppend([] + [Credit(1, 1_520_960_000)], Credit(1, -1_458_306), Amount);
    TotalAppend([], Credit(1, 1_520_960_000), Amount);
    TotalAppend([] + [Credit(1, 1_520_960_000)], Credit(1, -1_458_306), To(HOUSE));
    TotalAppend([], Credit(1, 1_520_960_000), To(HOUSE));
    HouseGainExact(7_000_000_000, 1_519_501_694);
  }

  // ----------------------------------------------------- what a settlement leaves over

  /** The market has this total, and stakes on the outcome to pay out. */
  predicate PaysOut(db: Db, m: MarketId, o: string, total: int) {
    && Valid(db) && m < |db.markets| && o in db.markets[m].outcomes
    && PoolOf(db.pools, PoolKey(m, o)) > 0 && MarketTotal(db, m) == total
  }

  /** The remainder ResolveMarket adds to the commission is at least zero and smaller
      than the number of winning bets. */
  predicate RemainderIsDust(db: Db, m: MarketId, o: string)
    requires m < |db.markets| && PoolOf(db.pools, PoolKey(m, o)) > 0
  {
    0 <= Remainder(TotalPool(db, m), PaidToWinners(db, m, o)) < |Winners(db.bets, m, o)|
  }

  lemma WinnersMakePool(db: Db, m: MarketId, o: string, total: int)
    requires PaysOut(db, m, o, total)
    ensures var pool, winners := PoolOf(db.pools, PoolKey(m, o)), Winners(db.bets, m, o);
      && Makes(total, pool, winners)
      && (RemainderIsDust(db, m, o) <==> LeavesDust(total, pool, winners))
  {
    hide BalancesOk, ListingsOk, ChainsOk, SeedsOk, Total, Winners, Wrap, Remainder, Distributable, Pays;
    assert MarketOk(db.markets[m], m, db.pools);
    assert PoolOk(db, PoolKey(m, o));
    hide MarketsOk, PoolsOk, BetsOk;
    PoolsAddUp(db, m);
    WinningPoolBounds(db, m, o);
  }

  /** A locked market all of whose stakes are one bet. */
  function Sole(total: nat): Db {
    Db([0, 0],
       [Market("q", ["SIM", "NAO"], Locked, 0, None)],
       map[PoolKey(0, "SIM") := total, PoolKey(0, "NAO") := 0],
       [Bet(0, 1, 1, "SIM", total)],
       [])
  }

  lemma SoleTotal(total: nat, f: Bet -> int)
    ensures Total(Sole(total).bets, f) == f(Bet(0, 1, 1, "SIM", total))
  {
    assert Sole(total).bets[..0] == [];
  }

  lemma SolePools(total: nat)
    requires 0 < total <= MAX
    ensures PoolsOk(Sole(total)) && MarketsOk(Sole(total))
  {
    hide Total;
    var db := Sole(total);
    var outcomes := db.markets[0].outcomes;
    assert outcomes[0] == "SIM" && outcomes[1] == "NAO" && "SIM"[0] != "NAO"[0];
    forall k | k in db.pools ensures PoolOk(db, k) {
      SoleTotal(total, OnPool(k));
    }
  }

  lemma SolePaysOut(total: nat)
    requires 0 < total <= MAX
    ensures PaysOut(Sole(total), 0, "SIM", total) && PoolOf(Sole(total).pools, PoolKey(0, "SIM")) == total
    ensures Winners(Sole(total).bets, 0, "SIM") == [Holding(1, total)]
  {
    hide PoolsOk, MarketsOk, Total;
    var db := Sole(total);
    SolePools(total);
    SoleTotal(total, OnMarket(0));
    assert db.markets[0].outcomes[0] == "SIM" && "SIM"[0] != "NAO"[0];
    assert db.bets[..0] == [];
  }

  /** The law over databases: settling a market of this total always leaves dust if and
      only if the total times its own 97% fits int64. */
  lemma RemainderIsDustIff(total: int)
    requires 0 < total <= MAX
    ensures (forall db, m, o :: PaysOut(db, m, o, total) ==> RemainderIsDust(db, m, o)) <==>
      total * (total - total * 3 / 100) <= MAX
  {
    hide Valid, MarketTotal, RemainderIsDust, LeavesDust, Makes, Winners, PoolOf;
    SafePoolIff(total);
    if total <= SAFE_POOL {
      forall db, m, o | PaysOut(db, m, o, total) ensures RemainderIsDust(db, m, o) {
        WinnersMakePool(db, m, o, total);
        SafeLeavesDust(total, PoolOf(db.pools, PoolKey(m, o)), Winners(db.bets, m, o));
      }
    } else {
      SolePaysOut(total);
      WinnersMakePool(Sole(total), 0, "SIM", total);
      SoleWinnerRemainder(total);
    }
  }

  /** The two winning bets of SPLIT leave 5,270,498,306 over. */
  lemma SplitRemainder()
    ensures PaysOut(SPLIT, 0, "SIM", 7_000_000_000) && |Winners(SPLIT.bets, 0, "SIM")| == 2
    ensures Remainder(TotalPool(SPLIT, 0), PaidToWinners(SPLIT, 0, "SIM")) == 5_270_498_306
  {
    hide Valid, Total, Winners, TotalPool, Payout, Wrap, Distributable;
    SplitIsValid();
    SplitRows();
    SplitPayouts();
    TotalOfThree(SPLIT.bets, OnMarket(0));
    WrapShrinks(7_000_000_000);
    var winners, d := Winners(SPLIT.bets, 0, "SIM"), 6_790_000_000;
    TwoPays(winners[0], winners[1], d, 3_500_000_000);
    WrapShrinks(1_519_501_694);
    WrapShrinks(5_270_498_306);
  }

  lemma TwoPays(a: Holding, b: Holding, d: int, pool: int)
    requires pool > 0
    ensures Total([a, b], Pays(d, pool)) == Payout(a.stake, d, pool) + Payout(b.stake, d, pool)
  {
    assert [a, b] == [] + [a] + [b];
    TotalAppend([] + [a], b, Pays(d, pool));
    TotalAppend([], a, Pays(d, pool));
  }
}
