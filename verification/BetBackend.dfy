/** The betting service as it runs: each method is one call, changing the tables
    in place. A method works on local copies until its COMMIT, and a failed
    check returns with nothing written. Every method is proved against the
    transaction function of the same name. */
module BetBackend {
  import opened Int64
  import opened Sums
  import opened Tables
  import opened Wrappers
  import opened Settlement
  import opened Transactions
  import opened Invariants
  import opened Accounting
  import opened AnyOrder
  import opened Rules

  /** `tx` run on `before` left the database at `after` and reported `error`. */
  predicate Reports(tx: TxResult, before: Db, after: Db, error: Option<Error>) {
    match tx
    case Committed(db) => error.None? && after == db
    case RolledBack(e) => error == Some(e) && after == before
  }

  datatype PoolRow = PoolRow(outcome: string, total: nat)

  function RowTotal(r: PoolRow): int { r.total }

  function PoolRows(pools: map<PoolKey, nat>, m: MarketId, outcomes: seq<string>): (rows: seq<PoolRow>)
    ensures |rows| == |outcomes|
    ensures forall i :: 0 <= i < |rows| ==> rows[i] == PoolRow(outcomes[i], PoolOf(pools, PoolKey(m, outcomes[i])))
  {
    seq(|outcomes|, i requires 0 <= i < |outcomes| => PoolRow(outcomes[i], PoolOf(pools, PoolKey(m, outcomes[i]))))
  }

  lemma {:induction false} PoolRowsTotal(pools: map<PoolKey, nat>, m: MarketId, outcomes: seq<string>)
    ensures Total(PoolRows(pools, m, outcomes), RowTotal) == Total(PoolTotals(pools, m, outcomes), Id)
  {
    if |outcomes| > 0 {
      var n := |outcomes| - 1;
      assert PoolRows(pools, m, outcomes)[..n] == PoolRows(pools, m, outcomes[..n]);
      assert PoolTotals(pools, m, outcomes)[..n] == PoolTotals(pools, m, outcomes[..n]);
      PoolRowsTotal(pools, m, outcomes[..n]);
    }
  }

  // ------------------------------------------------- loops over returned rows

  /** The scan both PlaceBet and ResolveMarket make over a market's outcomes. */
  method HasOutcome(outcomes: seq<string>, o: string) returns (valid: bool)
    ensures valid <==> o in outcomes
  {
    valid := false;
    for i := 0 to |outcomes|
      invariant valid <==> o in outcomes[..i]
    {
      if outcomes[i] == o {
        valid := true;
        break;
      }
      assert outcomes[..i + 1] == outcomes[..i] + [outcomes[i]];
    }
    assert outcomes[..|outcomes|] == outcomes;
  }

  /** The pool rows' int64 sum, and the winning one's total. */
  method SumPools(rows: seq<PoolRow>, o: string) returns (totalPool: int64, pool: nat)
    requires forall i, j :: 0 <= i < j < |rows| ==> rows[i].outcome != rows[j].outcome
    ensures totalPool == Wrap(Total(rows, RowTotal))
    ensures forall i :: 0 <= i < |rows| && rows[i].outcome == o ==> pool == rows[i].total
    ensures (forall i :: 0 <= i < |rows| ==> rows[i].outcome != o) ==> pool == 0
  {
    totalPool, pool := 0, 0;
    for i := 0 to |rows|
      invariant totalPool == Wrap(Total(rows[..i], RowTotal))
      invariant forall k :: 0 <= k < i && rows[k].outcome == o ==> pool == rows[k].total
      invariant (forall k :: 0 <= k < i ==> rows[k].outcome != o) ==> pool == 0
    {
      WrapSum(Total(rows[..i], RowTotal), rows[i].total);
      assert rows[..i + 1][..i] == rows[..i];
      totalPool := Wrap(totalPool + rows[i].total);
      if rows[i].outcome == o {
        pool := rows[i].total;
      }
    }
    assert rows[..|rows|] == rows;
  }

  /** The payout loop, on balances not yet committed: `ok` is false when some
      update leaves the balance column's range. */
  method PayWinners(balances: seq<int>, winners: seq<Holding>, distributable: int, pool: nat)
    returns (newBalances: seq<int>, distributed: int, ok: bool)
    requires pool > 0 && forall i :: 0 <= i < |winners| ==> winners[i].owner < |balances|
    ensures ok <==> Postable(balances, Payouts(winners, distributable, pool))
    ensures ok ==> newBalances == Post(balances, Payouts(winners, distributable, pool))
    ensures ok ==> distributed == Wrap(Total(Payouts(winners, distributable, pool), Amount))
  {
    hide Post, Postable, Total, Wrap, Quot, Payouts;
    newBalances, distributed, ok := balances, 0, true;
    ghost var payouts := Payouts(winners, distributable, pool);
    EmptyPost(balances);
    assert payouts[..0] == [];
    for i := 0 to |winners|
      invariant ok
      invariant newBalances == Post(balances, payouts[..i])
      invariant distributed == Wrap(Total(payouts[..i], Amount))
      invariant Postable(balances, payouts[..i])
    {
      var w := winners[i];
      var payout := Quot(Wrap(w.stake * distributable), pool);
      PayoutAt(winners, distributable, pool, i);
      PostStep(balances, payouts, i);
      TotalStep(payouts, i);
      WrapSum(Total(payouts[..i], Amount), payout);
      distributed := Wrap(distributed + payout);
      if !(0 <= newBalances[w.owner] + payout <= MAX) {
        ok := false;
        return;
      }
      newBalances := newBalances[w.owner := newBalances[w.owner] + payout];
    }
    assert payouts[..|winners|] == payouts;
  }

  lemma PayoutAt(winners: seq<Holding>, d: int, pool: nat, i: nat)
    requires pool > 0 && i < |winners|
    ensures Payouts(winners, d, pool)[i] == Credit(winners[i].owner, Quot(Wrap(winners[i].stake * d), pool))
  {
    hide Quot, Wrap;
  }

  lemma TotalStep(credits: seq<Credit>, i: nat)
    requires i < |credits|
    ensures Total(credits[..i + 1], Amount) == Total(credits[..i], Amount) + credits[i].amount
  {
    assert credits[..i + 1][..i] == credits[..i];
  }

  lemma {:induction false} EmptyPost(balances: seq<int>)
    ensures Post(balances, []) == balances && Postable(balances, [])
    ensures Total<Credit>([], Amount) == 0 && Wrap(0) == 0
  {
  }

  /** Commission, payouts, and the remainder to the house. */
  method Distribute(balances: seq<int>, totalPool: int, pool: nat, winners: seq<Holding>)
    returns (newBalances: seq<int>, ok: bool)
    requires HOUSE < |balances| && WithinColumn(balances)
    requires pool > 0 && forall i :: 0 <= i < |winners| ==> winners[i].owner < |balances|
    ensures ok <==> Postable(balances, SettlementCredits(totalPool, pool, winners))
    ensures ok ==> newBalances == Post(balances, SettlementCredits(totalPool, pool, winners))
  {
    hide Post, Postable, Total, Wrap, Quot, Payouts, SettlementCredits;
    var commission: int := Quot(Wrap(totalPool * 3), 100);
    var distributable: int := Wrap(totalPool - commission);
    ghost var payouts := Payouts(winners, distributable, pool);
    CreditsShape(totalPool, pool, winners);
    var distributed;
    newBalances, distributed, ok := PayWinners(balances, winners, distributable, pool);
    PrefixPostable(balances, payouts, SettlementCredits(totalPool, pool, winners));
    if !ok {
      return;
    }
    var remainder: int := Wrap(distributable - distributed);
    var houseGain: int := Wrap(commission + remainder);
    if houseGain > 0 {
      HouseStep(balances, payouts, houseGain);
      if newBalances[HOUSE] + houseGain > MAX {
        ok := false;
        return;
      }
      newBalances := newBalances[HOUSE := newBalances[HOUSE] + houseGain];
    }
  }

  lemma CreditsShape(totalPool: int, pool: nat, winners: seq<Holding>)
    requires pool > 0
    ensures var commission: int := Quot(Wrap(totalPool * 3), 100);
      var distributable: int := Wrap(totalPool - commission);
      var payouts := Payouts(winners, distributable, pool);
      var houseGain: int := Wrap(commission + Wrap(distributable - Wrap(Total(payouts, Amount))));
      SettlementCredits(totalPool, pool, winners) ==
        (if houseGain > 0 then payouts + [Credit(HOUSE, houseGain)] else payouts)
  {
    hide Wrap, Total, Payouts, Quot;
  }

  /** The refund loop, likewise. */
  method PayRefunds(balances: seq<int>, holders: seq<Holding>) returns (newBalances: seq<int>, ok: bool)
    requires forall i :: 0 <= i < |holders| ==> holders[i].owner < |balances|
    ensures ok <==> Postable(balances, Refunds(holders))
    ensures ok ==> newBalances == Post(balances, Refunds(holders))
  {
    hide Post, Postable, Total;
    newBalances, ok := balances, true;
    ghost var credits := Refunds(holders);
    EmptyPost(balances);
    assert credits[..0] == [];
    for i := 0 to |holders|
      invariant ok
      invariant newBalances == Post(balances, credits[..i])
      invariant Postable(balances, credits[..i])
    {
      var b := holders[i];
      assert credits[i] == Credit(b.owner, b.stake);
      PostStep(balances, credits, i);
      if !(0 <= newBalances[b.owner] + b.stake <= MAX) {
        ok := false;
        return;
      }
      newBalances := newBalances[b.owner := newBalances[b.owner] + b.stake];
    }
    assert credits[..|holders|] == credits;
  }

  /** The loop of CreateMarket: a pool row per outcome, and a seed bet if there is
      a seed. A repeated or overlong outcome makes an INSERT fail. */
  method InsertPoolsAndSeeds(m: MarketId, outcomes: seq<string>, seed: int64, pools: map<PoolKey, nat>, bets: seq<Bet>)
    returns (newPools: map<PoolKey, nat>, newBets: seq<Bet>, ok: bool)
    requires seed >= 0 && forall k :: k in pools ==> k.market != m
    ensures ok <==> Storable(outcomes)
    ensures ok ==> newPools == pools + SeedPools(m, outcomes, seed) && newBets == bets + SeedBets(m, outcomes, seed)
  {
    newPools, newBets, ok := pools, bets, true;
    NothingInserted(m, outcomes, seed);
    hide Storable, SeedPools, SeedBets;
    for i := 0 to |outcomes|
      invariant ok && Storable(outcomes[..i])
      invariant newPools == pools + SeedPools(m, outcomes[..i], seed)
      invariant newBets == bets + SeedBets(m, outcomes[..i], seed)
    {
      var k := PoolKey(m, outcomes[i]);
      InsertStep(m, outcomes, seed, i);
      InsertInto(m, outcomes, seed, i, pools, bets);
      if k in newPools || |outcomes[i]| > MAX_OUTCOME_LENGTH {
        ok := false;
        return;
      }
      newPools := newPools[k := seed];
      if seed > 0 {
        newBets := newBets + [Bet(m, HOUSE, HOUSE, outcomes[i], seed)];
      }
    }
    assert outcomes[..|outcomes|] == outcomes;
  }

  lemma InsertInto(m: MarketId, outcomes: seq<string>, seed: nat, i: nat, pools: map<PoolKey,
      nat>, bets: seq<Bet>)
    requires i < |outcomes|
    ensures var k, before, after := PoolKey(m, outcomes[i]), outcomes[..i], outcomes[..i + 1];
      && pools + SeedPools(m, after, seed) == (pools + SeedPools(m, before, seed))[k := seed]
      && bets + SeedBets(m, after, seed) ==
           bets + SeedBets(m, before, seed) + (if seed > 0 then [Bet(m, HOUSE, HOUSE, outcomes[i], seed)] else [])
  {
    InsertStep(m, outcomes, seed, i);
    hide SeedPools, SeedBets;
  }

  lemma NothingInserted(m: MarketId, outcomes: seq<string>, seed: nat)
    ensures Storable(outcomes[..0])
    ensures SeedPools(m, outcomes[..0], seed) == map[] && SeedBets(m, outcomes[..0], seed) == []
  {
  }

  lemma InsertStep(m: MarketId, outcomes: seq<string>, seed: nat, i: nat)
    requires i < |outcomes|
    ensures var k, before, after := PoolKey(m, outcomes[i]), outcomes[..i], outcomes[..i + 1];
      && SeedPools(m, after, seed) == SeedPools(m, before, seed)[k := seed]
      && SeedBets(m, after, seed) ==
           SeedBets(m, before, seed) + (if seed > 0 then [Bet(m, HOUSE, HOUSE, outcomes[i], seed)] else [])
      && (Storable(after) <==>
            Storable(before) && k !in SeedPools(m, before, seed) && |outcomes[i]| <= MAX_OUTCOME_LENGTH)
      && (Storable(outcomes) ==> Storable(after))
  {
    hide Storable;
    var before, after := outcomes[..i], outcomes[..i + 1];
    assert after == before + [outcomes[i]];
    assert outcomes[i] in before <==> PoolKey(m, outcomes[i]) in SeedPools(m, before, seed);
    assert SeedPools(m, after, seed).Keys == SeedPools(m, before, seed).Keys + {PoolKey(m, outcomes[i])};
    StorableStep(outcomes, i);
  }

  lemma StorableStep(outcomes: seq<string>, i: nat)
    requires i < |outcomes|
    ensures Storable(outcomes[..i + 1]) <==>
      Storable(outcomes[..i]) && outcomes[i] !in outcomes[..i] && |outcomes[i]| <= MAX_OUTCOME_LENGTH
    ensures Storable(outcomes) ==> Storable(outcomes[..i + 1])
  {
    var before, after := outcomes[..i], outcomes[..i + 1];
    assert forall k :: 0 <= k < i ==> before[k] == after[k];
    assert after[i] == outcomes[i];
    if outcomes[i] in before {
      var k :| 0 <= k < i && before[k] == outcomes[i];
      assert after[k] == after[i];
    }
  }

  // --------------------------------------- what a valid state gives each method

  lemma HouseExists(db: Db)
    requires Valid(db)
    ensures HOUSE < |db.balances| && WithinColumn(db.balances)
    ensures forall k :: k in db.pools ==> k.market != |db.markets|
  {
    forall k | k in db.pools ensures k.market != |db.markets| {
      assert PoolOk(db, k);
    }
  }

  lemma HasPool(db: Db, m: MarketId, o: string)
    requires Valid(db) && m < |db.markets| && o in db.markets[m].outcomes
    ensures PoolKey(m, o) in db.pools && db.pools[PoolKey(m, o)] == Total(db.bets, OnPool(PoolKey(m, o)))
  {
    OutcomeHasPool(db, m, o);
    assert PoolOk(db, PoolKey(m, o));
  }

  lemma BetHasMarket(db: Db, b: BetId)
    requires Valid(db) && b < |db.bets|
    ensures BetOk(db, db.bets[b])
  {
  }

  lemma ListingInRange(db: Db, l: ListingId)
    requires Valid(db) && l < |db.listings|
    ensures ListingOk(db, db.listings[l])
  {
    ListingHasBet(db, l);
  }

  /** The pool rows of a market, in whatever order, name its distinct outcomes. */
  lemma {:induction false} RowsOfMarket(db: Db, m: MarketId, rows: seq<PoolRow>)
    requires Valid(db) && m < |db.markets|
    requires multiset(rows) == multiset(PoolRows(db.pools, m, db.markets[m].outcomes))
    ensures Total(rows, RowTotal) == Total(PoolTotals(db.pools, m, db.markets[m].outcomes), Id) == MarketTotal(db, m)
    ensures forall o :: o in db.markets[m].outcomes ==> PoolRow(o, PoolOf(db.pools, PoolKey(m, o))) in rows
    ensures forall i, j :: 0 <= i < j < |rows| ==> rows[i].outcome != rows[j].outcome
    ensures forall r :: r in rows ==>
      r.outcome in db.markets[m].outcomes && r.total == PoolOf(db.pools, PoolKey(m, r.outcome))
  {
    var outcomes := db.markets[m].outcomes;
    var expected := PoolRows(db.pools, m, outcomes);
    assert MarketOk(db.markets[m], m, db.pools);
    PoolsAddUp(db, m);
    hide Valid;
    TotalOrderFree(rows, expected, RowTotal);
    PoolRowsTotal(db.pools, m, outcomes);
    RowsNameOutcomes(db.pools, m, outcomes, rows);
  }

  lemma RowsNameOutcomes(pools: map<PoolKey, nat>, m: MarketId, outcomes: seq<string>,
      rows: seq<PoolRow>)
    requires Storable(outcomes) && multiset(rows) == multiset(PoolRows(pools, m, outcomes))
    ensures forall r :: r in rows ==> r.outcome in outcomes && r.total == PoolOf(pools, PoolKey(m, r.outcome))
    ensures forall o :: o in outcomes ==> PoolRow(o, PoolOf(pools, PoolKey(m, o))) in rows
    ensures forall i, j :: 0 <= i < j < |rows| ==> rows[i].outcome != rows[j].outcome
  {
    var expected := PoolRows(pools, m, outcomes);
    SameRows(rows, expected);
    forall o | o in outcomes ensures PoolRow(o, PoolOf(pools, PoolKey(m, o))) in rows {
      var i :| 0 <= i < |outcomes| && outcomes[i] == o;
      assert expected[i] in rows;
    }
    forall i, j | 0 <= i < j < |expected| ensures expected[i] != expected[j] {
      assert outcomes[i] != outcomes[j];
    }
    NoRepeats(expected, rows);
    forall i, j | 0 <= i < j < |rows| ensures rows[i].outcome != rows[j].outcome {
      assert rows[i] in rows && rows[j] in rows;
    }
  }

  lemma SameRows<T>(s: seq<T>, t: seq<T>)
    requires multiset(s) == multiset(t)
    ensures forall r :: r in s <==> r in t
  {
    forall r ensures r in s <==> r in t {
      assert r in s <==> r in multiset(s);
      assert r in t <==> r in multiset(t);
    }
  }

  /** A reordering of distinct rows has distinct rows. */
  lemma NoRepeats<T>(s: seq<T>, t: seq<T>)
    requires multiset(s) == multiset(t)
    requires forall i, j :: 0 <= i < j < |s| ==> s[i] != s[j]
    ensures forall i, j :: 0 <= i < j < |t| ==> t[i] != t[j]
  {
    forall i, j | 0 <= i < j < |t| ensures t[i] != t[j] {
      OnceIn(s, t[i]);
      if t[i] == t[j] {
        TwiceIn(t, i, j);
      }
    }
  }

  lemma OnceIn<T>(s: seq<T>, x: T)
    requires forall i, j :: 0 <= i < j < |s| ==> s[i] != s[j]
    ensures multiset(s)[x] <= 1
  {
    if x in s {
      var k :| 0 <= k < |s| && s[k] == x;
      assert s == s[..k] + [x] + s[k + 1..];
      assert x !in s[..k] && x !in s[k + 1..];
    } else {
      assert x !in multiset(s);
    }
  }

  lemma TwiceIn<T>(t: seq<T>, i: nat, j: nat)
    requires i < j < |t| && t[i] == t[j]
    ensures multiset(t)[t[i]] >= 2
  {
    assert t == t[..i] + [t[i]] + (t[i + 1..j] + [t[j]] + t[j + 1..]);
  }

  class BetBackend {
    var balances: seq<int>
    var markets: seq<Market>
    var pools: map<PoolKey, nat>
    var bets: seq<Bet>
    var listings: seq<Listing>

    ghost function State(): Db
      reads this
    {
      Db(balances, markets, pools, bets, listings)
    }

    /** A fresh database with the given users, the house first. */
    constructor (users: seq<int>)
      requires |users| > 0 && WithinColumn(users)
      ensures Valid(State()) && State() == Db(users, [], map[], [], [])
    {
      balances, markets, pools, bets, listings := users, [], map[], [], [];
    }

    // ------------------------------------------------------------------ queries

    /** SELECT with no ORDER BY: the rows come back in any order. */
    method SelectPools(m: MarketId) returns (rows: seq<PoolRow>)
      requires m < |markets|
      ensures multiset(rows) == multiset(PoolRows(pools, m, markets[m].outcomes))
    {
      rows := PoolRows(pools, m, markets[m].outcomes);
    }

    method SelectWinners(m: MarketId, o: string) returns (rows: seq<Holding>)
      ensures multiset(rows) == multiset(Winners(bets, m, o))
    {
      rows := Winners(bets, m, o);
    }

    method SelectHolders(m: MarketId) returns (rows: seq<Holding>)
      ensures multiset(rows) == multiset(Holders(bets, m))
    {
      rows := Holders(bets, m);
    }

    /** The pools a market page shows: each outcome's stakes, and their sum. */
    method GetMarketDetails(m: MarketId) returns (error: Option<Error>, byOutcome: map<string, int>, totalPool: int64)
      requires Valid(State())
      ensures error == if m < |markets| then None else Some(MarketNotFound)
      ensures error.None? ==>
        && byOutcome.Keys == (set o | o in markets[m].outcomes)
        && (forall o :: o in byOutcome ==> byOutcome[o] == Total(bets, OnPool(PoolKey(m, o))))
        && totalPool == Wrap(Total(bets, OnMarket(m)))
    {
      hide Valid, Total, Wrap;
      error, byOutcome, totalPool := None, map[], 0;
      if m >= |markets| {
        return Some(MarketNotFound), map[], 0;
      }
      var outcomes := markets[m].outcomes;
      byOutcome := map o | o in outcomes :: 0;
      var rows := SelectPools(m);
      RowsOfMarket(State(), m, rows);
      for i := 0 to |rows|
        invariant byOutcome.Keys == set o | o in outcomes
        invariant forall k :: 0 <= k < i ==> byOutcome[rows[k].outcome] == rows[k].total
      {
        byOutcome := byOutcome[rows[i].outcome := rows[i].total];
      }
      var unused;
      totalPool, unused := SumPools(rows, "");
      forall o | o in byOutcome ensures byOutcome[o] == Total(bets, OnPool(PoolKey(m, o))) {
        HasPool(State(), m, o);
        assert PoolRow(o, PoolOf(pools, PoolKey(m, o))) in rows;
      }
    }

    // ------------------------------------------------------------------ markets

    method CreateMarket(question: string, outcomes: seq<string>, seed: int64) returns (error: Option<Error>)
      requires Valid(State())
      modifies this
      ensures Valid(State())
      ensures Reports(CreateMarketTx(old(State()), question, outcomes, seed), old(State()), State(), error)
    {
      hide Valid, Storable, SeedPools, SeedBets, Wrap;
      HouseExists(State());
      if |outcomes| < 2 {
        return Some(TooFewOutcomes);
      }
      if seed < 0 {
        return Some(NegativeSeed);
      }
      var m := |markets|;
      var newBalances := balances;
      var required := Wrap(seed * |outcomes|);
      assert required == SeedDebit(seed, |outcomes|) && (seed == 0 ==> required == 0) by {
        NoSeedNoDebit(seed, |outcomes|);
      }
      if required > 0 {
        if balances[HOUSE] < required {
          return Some(HouseShort);
        }
        newBalances := balances[HOUSE := balances[HOUSE] - required];
      }
      var newPools, newBets, ok := InsertPoolsAndSeeds(m, outcomes, seed, pools, bets);
      if !ok {
        return Some(OutcomeRejected);
      }
      CreateMarketKeepsValid(State(), question, outcomes, seed);
      balances, pools, bets := newBalances, newPools, newBets;
      markets := markets + [Market(question, outcomes, Open, seed, None)];
      return None;
    }

    lemma NoSeedNoDebit(seed: int64, n: nat)
      ensures seed == 0 ==> Wrap(seed * n) == 0
    {
    }

    method PlaceBet(u: UserId, m: MarketId, o: string, stake: int64) returns (error: Option<Error>)
      requires Valid(State())
      modifies this
      ensures Valid(State())
      ensures Reports(PlaceBetTx(old(State()), u, m, o, stake), old(State()), State(), error)
    {
      hide Valid;
      if stake <= 0 {
        return Some(StakeNotPositive);
      }
      if m >= |markets| {
        return Some(MarketNotFound);
      }
      if markets[m].status != Open {
        return Some(MarketNotOpen);
      }
      var valid := HasOutcome(markets[m].outcomes, o);
      if !valid {
        return Some(InvalidOutcome);
      }
      if u >= |balances| {
        return Some(UserNotFound);
      }
      if balances[u] < stake {
        return Some(InsufficientBalance);
      }
      HasPool(State(), m, o);
      var k := PoolKey(m, o);
      if pools[k] + stake > MAX {
        return Some(OutOfRange);
      }
      PlaceBetKeepsValid(State(), u, m, o, stake);
      balances := balances[u := balances[u] - stake];
      pools := pools[k := pools[k] + stake];
      bets := bets + [Bet(m, u, u, o, stake)];
      return None;
    }

    method LockMarket(m: MarketId) returns (error: Option<Error>)
      requires Valid(State())
      modifies this
      ensures Valid(State())
      ensures Reports(LockMarketTx(old(State()), m), old(State()), State(), error)
      ensures error == Some(MarketNotFound) <==> m >= |old(markets)|
      ensures error == Some(InvalidStateTransition) <==> m < |old(markets)| && old(markets)[m].status != Open
      ensures error.None? <==> InState(old(State()), m, Open)
      ensures error.None? ==> markets == old(markets)[m := old(markets)[m].(status := Locked)]
    {
      hide Valid;
      if m >= |markets| {
        return Some(MarketNotFound);
      }
      if markets[m].status != Open {
        return Some(InvalidStateTransition);
      }
      LockKeepsValid(State(), m);
      listings := WithdrawAll(listings, m);
      markets := markets[m := markets[m].(status := Locked)];
      return None;
    }

    /** Settlement. With an empty winning pool it rolls back and refunds instead.
        The winning bets come back in some order; a successful call reaches the
        same state whatever that order was. Whether it succeeds does not depend on
        it either unless an overflowed payout is negative, and even then it does
        succeed as long as no order would fail. */
    method ResolveMarket(m: MarketId, o: string) returns (error: Option<Error>)
      requires Valid(State())
      modifies this
      ensures Valid(State())
      ensures error == Some(MarketNotFound) <==> m >= |old(markets)|
      ensures error == Some(MarketAlreadyResolved) <==> InState(old(State()), m, Resolved)
      ensures error == Some(MarketAlreadyCancelled) <==> InState(old(State()), m, Cancelled)
      ensures error == Some(MarketNotLocked) <==> InState(old(State()), m, Open)
      ensures error == Some(InvalidOutcome) <==> InState(old(State()), m, Locked) && o !in old(markets)[m].outcomes
      ensures error.Some? ==> State() == old(State())
      ensures error.None? ==> InState(old(State()), m, Locked) && o in old(markets)[m].outcomes
      ensures error.None? ==>
        markets == old(markets)[m := if PoolKey(m, o) in old(pools) && old(pools)[PoolKey(m, o)] > 0
                                     then old(markets)[m].(status := Resolved, winner := Some(o))
                                     else old(markets)[m].(status := Cancelled)]
      ensures m < |old(markets)| ==>
        var before, guard := old(State()), ResolveGuard(old(markets[m]), o);
        if guard.Some? then error == guard && State() == before
        else if PoolOf(before.pools, PoolKey(m, o)) == 0 then Reports(RefundMarketTx(before, m), before, State(), error)
        else
          var winners := Winners(before.bets, m, o);
          && (error == None || error == Some(OutOfRange))
          && State() == (if error.None? then ResolvedDb(before, m, o, winners) else before)
          && (exists rows: seq<Holding> :: multiset(rows) == multiset(winners) &&
                Reports(ResolveMarketTx(before, m, o, rows), before, State(), error))
          && (NoneNegative(PayoutCredits(before, m, o, winners)) ==>
                Reports(ResolveMarketTx(before, m, o, winners), before, State(), error))
          && (PayableInAnyOrder(before, m, o) ==> error.None?)
    {
      hide Valid, Post, Postable, SettlementCredits, TotalPool, WithdrawAll, NoneNegative, RefundMarketTx, Total,
          Wrap, PayableInAnyOrder, Winners, ResolvedDb;
      if m >= |markets| {
        return Some(MarketNotFound);
      }
      var market := markets[m];
      if market.status == Resolved {
        return Some(MarketAlreadyResolved);
      }
      if market.status == Cancelled {
        return Some(MarketAlreadyCancelled);
      }
      if market.status != Locked {
        return Some(MarketNotLocked);
      }
      var valid := HasOutcome(market.outcomes, o);
      if !valid {
        return Some(InvalidOutcome);
      }
      var rows := SelectPools(m);
      RowsOfMarket(State(), m, rows);
      var totalPool, pool := SumPools(rows, o);
      assert PoolRow(o, PoolOf(pools, PoolKey(m, o))) in rows;
      assert totalPool == TotalPool(State(), m) by {
        TotalPoolIs(State(), m, totalPool);
      }
      if pool == 0 {
        error := RefundMarket(m);
        return;
      }
      var winners := SelectWinners(m, o);
      HouseExists(State());
      CreditFacts(State(), m, o, winners);
      var newBalances, ok := Distribute(balances, totalPool, pool, winners);
      ghost var before := State();
      ResolvedIs(before, m, o, winners);
      if !ok {
        assert Reports(ResolveMarketTx(before, m, o, winners), before, State(), Some(OutOfRange));
        return Some(OutOfRange);
      }
      ResolveKeepsValid(State(), m, o, winners);
      balances := newBalances;
      listings := WithdrawAll(listings, m);
      markets := markets[m := market.(status := Resolved, winner := Some(o))];
      assert Reports(ResolveMarketTx(before, m, o, winners), before, State(), None);
      return None;
    }

    /** The state settlement leaves, whatever order its rows came in. */
    lemma {:induction false} ResolvedIs(db: Db, m: MarketId, o: string, rows: seq<Holding>)
      requires m < |db.markets| && PoolOf(db.pools, PoolKey(m, o)) > 0
      requires multiset(rows) == multiset(Winners(db.bets, m, o))
      ensures ResolvedDb(db, m, o, rows) == ResolvedDb(db, m, o, Winners(db.bets, m, o))
      ensures ResolvedDb(db, m, o, rows) ==
        Db(Post(db.balances, PayoutCredits(db, m, o, rows)),
           db.markets[m := db.markets[m].(status := Resolved, winner := Some(o))], db.pools, db.bets,
           WithdrawAll(db.listings, m))
    {
      hide Winners, Post, SettlementCredits, TotalPool, WithdrawAll;
      SettlementOrderFree(db.balances, TotalPool(db, m), PoolOf(db.pools, PoolKey(m, o)), Winners(db.bets, m, o), rows);
    }

    lemma TotalPoolIs(db: Db, m: MarketId, t: int64)
      requires m < |db.markets| && t == Wrap(Total(PoolTotals(db.pools, m, db.markets[m].outcomes), Id))
      ensures t == TotalPool(db, m)
    {
    }

    /** The credits in the order returned are the transaction's, reordered. */
    lemma {:induction false} CreditFacts(db: Db, m: MarketId, o: string, rows: seq<Holding>)
      requires Valid(db) && m < |db.markets| && PoolOf(db.pools, PoolKey(m, o)) > 0
      requires multiset(rows) == multiset(Winners(db.bets, m, o))
      ensures var credits, spec := SettlementCredits(TotalPool(db, m), PoolOf(db.pools, PoolKey(m, o)), rows),
          PayoutCredits(db, m, o, Winners(db.bets, m, o));
        && AllExist(db.balances, credits)
        && Post(db.balances, credits) == Post(db.balances, spec)
        && (NoneNegative(spec) ==> (Postable(db.balances, spec) <==> Postable(db.balances, credits)))
        && (PayableInAnyOrder(db, m, o) ==> Postable(db.balances, credits))
      ensures forall i :: 0 <= i < |rows| ==> rows[i].owner < |db.balances|
    {
      hide MarketsOk, PoolsOk, BetsOk, ListingsOk, ChainsOk, SeedsOk, Wrap, Total, Payouts, Post, Postable, Winners,
        Holders, SettlementCredits, SettlementFits;
      var pool, total, winners := PoolOf(db.pools, PoolKey(m, o)), TotalPool(db, m), Winners(db.bets, m, o);
      OwnersExist(db, m, o);
      SameRows(rows, winners);
      SettlementOrderFree(db.balances, total, pool, winners, rows);
      var credits, spec := SettlementCredits(total, pool, rows), PayoutCredits(db, m, o, winners);
      SameMembers(credits, spec);
      forall c | c in credits ensures c.user < |db.balances| {
        var i :| 0 <= i < |credits| && credits[i] == c;
      }
      WithinValid(db);
      SettlementAnyOrderIff(db.balances, total, pool, winners);
      if NoneNegative(spec) {
        PostableOrderFree(db.balances, spec, credits);
      }
    }

    /** Refunds every bet to its current owner. */
    method RefundMarket(m: MarketId) returns (error: Option<Error>)
      requires Valid(State())
      modifies this
      ensures Valid(State())
      ensures Reports(RefundMarketTx(old(State()), m), old(State()), State(), error)
      ensures error == Some(MarketNotFound) <==> m >= |old(markets)|
      ensures error == Some(MarketAlreadyResolved) <==> InState(old(State()), m, Resolved)
      ensures error == Some(MarketAlreadyCancelled) <==> InState(old(State()), m, Cancelled)
      ensures error == None || error == Some(OutOfRange) <==>
        InState(old(State()), m, Open) || InState(old(State()), m, Locked)
      ensures error.None? ==> markets == old(markets)[m := old(markets)[m].(status := Cancelled)]
    {
      hide Valid, Post, Postable, WithdrawAll, Refunds, Holders, AllExist;
      if m >= |markets| {
        return Some(MarketNotFound);
      }
      if markets[m].status == Resolved {
        return Some(MarketAlreadyResolved);
      }
      if markets[m].status == Cancelled {
        return Some(MarketAlreadyCancelled);
      }
      var rows := SelectHolders(m);
      RefundFacts(State(), m, rows);
      var newBalances, ok := PayRefunds(balances, rows);
      if !ok {
        return Some(OutOfRange);
      }
      RefundKeepsValid(State(), m);
      balances := newBalances;
      listings := WithdrawAll(listings, m);
      markets := markets[m := markets[m].(status := Cancelled)];
      return None;
    }

    // ----------------------------------------------------------------- balances

    method AdjustBalance(u: UserId, delta: int64) returns (error: Option<Error>)
      requires Valid(State())
      modifies this
      ensures Valid(State())
      ensures Reports(AdjustBalanceTx(old(State()), u, delta), old(State()), State(), error)
      ensures error.None? <==> u < |old(balances)| && 0 <= old(balances)[u] + delta <= MAX
      ensures error.None? ==> balances == old(balances)[u := old(balances)[u] + delta]
    {
      hide Valid;
      if u >= |balances| {
        return Some(UserNotFound);
      }
      HouseExists(State());
      var exact := balances[u] + delta;
      WrapUnique(exact, if exact > MAX then exact - TWO_TO_64 else exact);
      var newBalance := Wrap(balances[u] + delta);
      if newBalance < 0 {
        return Some(InsufficientBalance);
      }
      AdjustKeepsValid(State(), u, delta);
      balances := balances[u := newBalance];
      return None;
    }

    // ----------------------------------------------------------------- listings

    method ListBetForSale(b: BetId, seller: UserId, price: int64) returns (error: Option<Error>)
      requires Valid(State())
      modifies this
      ensures Valid(State())
      ensures Reports(ListBetTx(old(State()), b, seller, price), old(State()), State(), error)
    {
      hide Valid;
      if price <= 0 {
        return Some(PriceNotPositive);
      }
      if b >= |bets| {
        return Some(BetNotFound);
      }
      BetHasMarket(State(), b);
      var m := bets[b].market;
      if markets[m].status != Open {
        return Some(MarketNotOpen);
      }
      if bets[b].owner != seller {
        return Some(NotBetOwner);
      }
      if seller == HOUSE {
        return Some(CannotListHouseBet);
      }
      if HasListed(listings, b) {
        return Some(BetAlreadyListed);
      }
      ListBetKeepsValid(State(), b, seller, price);
      listings := listings + [Listing(b, m, seller, None, price, Listed)];
      return None;
    }

    method CancelListing(l: ListingId, seller: UserId) returns (error: Option<Error>)
      requires Valid(State())
      modifies this
      ensures Valid(State())
      ensures Reports(CancelListingTx(old(State()), l, seller), old(State()), State(), error)
    {
      hide Valid;
      if l >= |listings| {
        return Some(ListingNotFound);
      }
      if listings[l].seller != seller {
        return Some(NotListingOwner);
      }
      if listings[l].status != Listed {
        return Some(ListingNotActive);
      }
      WithdrawKeepsValid(State(), l);
      listings := listings[l := listings[l].(status := Withdrawn)];
      return None;
    }

    method InvalidateStaleListing(l: ListingId) returns (error: Option<Error>)
      requires Valid(State())
      modifies this
      ensures Valid(State())
      ensures Reports(InvalidateListingTx(old(State()), l), old(State()), State(), error)
    {
      hide Valid;
      if l >= |listings| {
        return Some(ListingNotFound);
      }
      if listings[l].status == Listed {
        WithdrawKeepsValid(State(), l);
        listings := listings[l := listings[l].(status := Withdrawn)];
      }
      return None;
    }

    /** The money-critical path. Its stale branch rolls back and invalidates the
        listing in a second transaction, which in a valid state finds it already
        withdrawn. */
    method BuyListedBet(l: ListingId, buyer: UserId) returns (error: Option<Error>)
      requires Valid(State())
      modifies this
      ensures Valid(State())
      ensures Reports(BuyBetTx(old(State()), l, buyer), old(State()), State(), error)
      ensures balances[HOUSE] == old(balances[HOUSE]) || buyer == HOUSE
    {
      hide Valid;
      if l >= |listings| {
        return Some(ListingNotFound);
      }
      ListingInRange(State(), l);
      HouseExists(State());
      var m, b, seller, price := listings[l].market, listings[l].bet, listings[l].seller, listings[l].price;
      if markets[m].status != Open {
        error := InvalidateStaleListing(l);
        return if error.Some? then error else Some(ListingMarketNoLongerOpen);
      }
      if listings[l].status != Listed {
        return Some(ListingNotActive);
      }
      if seller == buyer {
        return Some(CannotBuyOwnListing);
      }
      if bets[b].owner != seller {
        return Some(OwnerIsNotSeller);
      }
      var firstId, secondId := buyer, seller;
      if secondId < firstId {
        firstId, secondId := secondId, firstId;
      }
      if firstId >= |balances| || secondId >= |balances| {
        return Some(UserNotFound);
      }
      var firstBalance, secondBalance := balances[firstId], balances[secondId];
      var buyerBalance := if firstId == buyer then firstBalance else secondBalance;
      if buyerBalance < price {
        return Some(InsufficientBalance);
      }
      if balances[seller] + price > MAX {
        return Some(OutOfRange);
      }
      BuyKeepsValid(State(), l, buyer);
      balances := balances[buyer := balances[buyer] - price];
      balances := balances[seller := balances[seller] + price];
      bets := bets[b := bets[b].(owner := buyer)];
      listings := listings[l := listings[l].(status := Sold, buyer := Some(buyer))];
      return None;
    }
  }
}
