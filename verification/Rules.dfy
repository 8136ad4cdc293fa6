/** What each request asks of the database and what it changes there, row by row and
    error by error: when it is refused and with which error, and which rows a
    success leaves different. */
module Rules {
  import opened Int64
  import opened Sums
  import opened Tables
  import opened Wrappers
  import opened Settlement
  import opened Transactions
  import opened Invariants
  import opened Accounting
  import opened AnyOrder
  import opened Runs

  /** The house account comes first among the users, as the all-zero UUID does. */
  lemma HouseIsFirst(u: UserId)
    ensures HOUSE <= u
  {
  }

  /** Go's int64: the one value in its range that differs by a multiple of 2^64. */
  lemma WrapIs(x: int)
    ensures -9_223_372_036_854_775_808 <= Wrap(x) <= 9_223_372_036_854_775_807
    ensures (x - Wrap(x)) % 18_446_744_073_709_551_616 == 0
  {
  }

  /** Go's division: towards zero, so a remainder has the sign of the dividend. */
  lemma QuotIs(a: int, b: int)
    requires b > 0
    ensures var r := a - Quot(a, b) * b;
      -b < r < b && (a >= 0 ==> r >= 0) && (a <= 0 ==> r <= 0)
  {
    assert a >= 0 ==> a == (a / b) * b + a % b;
    assert a < 0 ==> -a == ((-a) / b) * b + (-a) % b;
  }

  predicate InState(db: Db, m: MarketId, status: MarketStatus) {
    m < |db.markets| && db.markets[m].status == status
  }

  /** The active listings of the market have been withdrawn, and only they. */
  predicate ListingsWithdrawn(before: seq<Listing>, after: seq<Listing>, m: MarketId) {
    && |after| == |before|
    && forall l :: 0 <= l < |before| ==>
         after[l] == if before[l].market == m && before[l].status == Listed then before[l].(status := Withdrawn)
                     else before[l]
  }

  // ------------------------------------------------------------------ LockMarket

  /** Only an OPEN market can be locked. */
  lemma LockRefusals(db: Db, m: MarketId)
    ensures var r := LockMarketTx(db, m);
      && (r == RolledBack(MarketNotFound) <==> m >= |db.markets|)
      && (r == RolledBack(InvalidStateTransition) <==>
            InState(db, m, Locked) || InState(db, m, Resolved) || InState(db, m, Cancelled))
      && (r.Committed? <==> InState(db, m, Open))
  {
  }

  /** Then it is LOCKED, its active listings are withdrawn, and nothing else changes. */
  lemma LockChanges(db: Db, m: MarketId)
    requires LockMarketTx(db, m).Committed?
    ensures var after := LockMarketTx(db, m).db;
      && |after.markets| == |db.markets| && after.markets[m] == db.markets[m].(status := Locked)
      && (forall n :: 0 <= n < |db.markets| && n != m ==> after.markets[n] == db.markets[n])
      && ListingsWithdrawn(db.listings, after.listings, m)
      && after.balances == db.balances && after.pools == db.pools && after.bets == db.bets
  {
  }

  // --------------------------------------------------------------- ResolveMarket

  /** The update of some credit, after those before it, leaves the balance column. */
  predicate SomeCreditFails(balances: seq<int>, credits: seq<Credit>) {
    exists k :: 0 <= k < |credits| && CreditFails(balances, credits, k)
  }

  predicate CreditFails(balances: seq<int>, credits: seq<Credit>, k: nat)
    requires k < |credits|
  {
    var u := credits[k].user;
    u < |balances| && !(0 <= balances[u] + Total(credits[..k + 1], To(u)) <= 9_223_372_036_854_775_807)
  }

  lemma PostableMeans(balances: seq<int>, credits: seq<Credit>)
    ensures Postable(balances, credits) <==> !SomeCreditFails(balances, credits)
  {
    hide Post, Total;
    forall k | 0 <= k < |credits| && credits[k].user < |balances|
      ensures Post(balances, credits[..k + 1])[credits[k].user] ==
        balances[credits[k].user] + Total(credits[..k + 1], To(credits[k].user))
    {
      PostAt(balances, credits[..k + 1], credits[k].user);
    }
    if !SomeCreditFails(balances, credits) {
      forall k | 0 < k <= |credits| && credits[k - 1].user < |balances|
        ensures 0 <= Post(balances, credits[..k])[credits[k - 1].user] <= MAX
      {
        assert !CreditFails(balances, credits, k - 1);
      }
    }
    if Postable(balances, credits) {
      forall k | 0 <= k < |credits| ensures !CreditFails(balances, credits, k) {
        assert credits[k + 1 - 1].user == credits[k].user;
      }
    }
  }

  /** ResolveMarket settles LOCKED markets only, on one of their outcomes, and only if
      something was staked on it; each refusal is reported as what it is, the market's
      status first. */
  lemma ResolveRefusals(db: Db, m: MarketId, o: string, rows: seq<Holding>)
    ensures var r := ResolveMarketTx(db, m, o, rows);
      var stakes := if PoolKey(m, o) in db.pools then db.pools[PoolKey(m, o)] else 0;
      && (r == RolledBack(MarketNotFound) <==> m >= |db.markets|)
      && (r == RolledBack(MarketAlreadyResolved) <==> InState(db, m, Resolved))
      && (r == RolledBack(MarketAlreadyCancelled) <==> InState(db, m, Cancelled))
      && (r == RolledBack(MarketNotLocked) <==> InState(db, m, Open))
      && (r == RolledBack(InvalidOutcome) <==> InState(db, m, Locked) && o !in db.markets[m].outcomes)
      && (r == RolledBack(ZeroWinningPool) <==>
            InState(db, m, Locked) && o in db.markets[m].outcomes && stakes == 0)
      && (r == RolledBack(OutOfRange) <==>
            InState(db, m, Locked) && o in db.markets[m].outcomes && stakes > 0 &&
            SomeCreditFails(db.balances, PayoutCredits(db, m, o, rows)))
      && (r.Committed? <==>
            InState(db, m, Locked) && o in db.markets[m].outcomes && stakes > 0 &&
            !SomeCreditFails(db.balances, PayoutCredits(db, m, o, rows)))
  {
    hide PayoutCredits, Postable, SomeCreditFails, Post, WithdrawAll, TotalPool;
    if m < |db.markets| && PoolOf(db.pools, PoolKey(m, o)) > 0 {
      PostableMeans(db.balances, PayoutCredits(db, m, o, rows));
    }
  }

  /** Then it is RESOLVED with that winner, and its active listings are withdrawn; no
      pool, no bet and no other market changes. (For the balances see ResolvePaysOwners.) */
  lemma ResolveChanges(db: Db, m: MarketId, o: string, rows: seq<Holding>)
    requires ResolveMarketTx(db, m, o, rows).Committed?
    ensures var after := ResolveMarketTx(db, m, o, rows).db;
      && |after.markets| == |db.markets|
      && after.markets[m] == db.markets[m].(status := Resolved, winner := Some(o))
      && (forall n :: 0 <= n < |db.markets| && n != m ==> after.markets[n] == db.markets[n])
      && ListingsWithdrawn(db.listings, after.listings, m)
      && |after.balances| == |db.balances| && after.pools == db.pools && after.bets == db.bets
  {
    hide PayoutCredits, Postable, Post, TotalPool;
  }

  /** The exact floored share of a winning bet, if `u` owns it. */
  function WonBy(m: MarketId, o: string, u: UserId, d: int, pool: int): Bet -> int
    requires pool > 0
  {
    (b: Bet) => if b.market == m && b.outcome == o && b.owner == u then b.stake * d / pool else 0
  }

  function Won(m: MarketId, o: string, d: int, pool: int): Bet -> int
    requires pool > 0
  {
    (b: Bet) => if b.market == m && b.outcome == o then b.stake * d / pool else 0
  }

  /** What it comes to while no product overflows: of all the stakes on the market, 3%
      are kept, the rest goes to the owners of the winning bets in proportion to their
      stakes, rounded down, and what neither covers to the house. */
  lemma SettlementPays(db: Db, m: MarketId, o: string, rows: seq<Holding>, u: UserId)
    requires Valid(db) && multiset(rows) == multiset(Winners(db.bets, m, o))
    requires ResolveMarketTx(db, m, o, rows).Committed? && u < |db.balances|
    requires var total := Total(db.bets, OnMarket(m));
      total * (total - total * 3 / 100) <= 9_223_372_036_854_775_807
    ensures var total, pool := Total(db.bets, OnMarket(m)), Total(db.bets, OnPool(PoolKey(m, o)));
      var d := total - total * 3 / 100;
      && pool > 0
      && ResolveMarketTx(db, m, o, rows).db.balances[u] ==
           db.balances[u] + Total(db.bets, WonBy(m, o, u, d, pool))
           + (if u == 0 then total - Total(db.bets, Won(m, o, d, pool)) else 0)
  {
    hide BalancesOk, ListingsOk, ChainsOk, SeedsOk, Total, Winners, Wrap, Distributable, Postable, Post, TotalPool,
        PayoutCredits, Payout, WithdrawAll;
    ResolveRefusals(db, m, o, rows);
    assert MarketOk(db.markets[m], m, db.pools) && PoolOk(db, PoolKey(m, o));
    hide MarketsOk, PoolsOk, BetsOk, ResolveMarketTx;
    var total, pool, winners := MarketTotal(db, m), PoolOf(db.pools, PoolKey(m, o)), Winners(db.bets, m, o);
    var d := total - total * 3 / 100;
    WinnersMakePool(db, m, o, total);
    SafePoolIff(total);
    SafePayouts(total, pool, winners);
    DustBound(winners, d, pool);
    ResolvePaysOwners(db, m, o, rows, u);
    PaidByBet(db.bets, m, o, d, pool);
    ExactWins(db, m, o, u, total);
    WrapShrinks(total - Total(db.bets, PaidOn(m, o, d, pool)));
  }

  lemma ExactWins(db: Db, m: MarketId, o: string, u: UserId, total: int)
    requires BetsOk(db) && total == Total(db.bets, OnMarket(m)) <= SAFE_POOL
    requires 0 < Total(db.bets, OnPool(PoolKey(m, o))) <= MAX
    ensures var d, pool := total - total * 3 / 100, Total(db.bets, OnPool(PoolKey(m, o)));
      && Total(db.bets, WinsFor(m, o, u, d, pool)) == Total(db.bets, WonBy(m, o, u, d, pool))
      && Total(db.bets, PaidOn(m, o, d, pool)) == Total(db.bets, Won(m, o, d, pool))
  {
    hide Total, Payout;
    var d, pool := total - total * 3 / 100, Total(db.bets, OnPool(PoolKey(m, o)));
    forall b | 0 <= b < |db.bets|
      ensures db.bets[b].stake > 0
      ensures db.bets[b].market == m && db.bets[b].outcome == o ==>
        Payout(db.bets[b].stake, d, pool) == db.bets[b].stake * d / pool
    {
      assert BetOk(db, db.bets[b]);
      if db.bets[b].market == m && db.bets[b].outcome == o {
        StakeWithin(db, m, b);
        SafePoolIsExact(db.bets[b].stake, total);
        PayoutExactIff(db.bets[b].stake, d, pool);
      }
    }
    TotalPointwise(db.bets, WinsFor(m, o, u, d, pool), WonBy(m, o, u, d, pool));
    TotalPointwise(db.bets, PaidOn(m, o, d, pool), Won(m, o, d, pool));
  }

  lemma StakeWithin(db: Db, m: MarketId, b: BetId)
    requires BetsOk(db) && b < |db.bets| && db.bets[b].market == m
    ensures db.bets[b].stake <= Total(db.bets, OnMarket(m))
  {
    hide Total;
    forall i | 0 <= i < |db.bets| ensures OnMarket(m)(db.bets[i]) >= 0 {
      assert BetOk(db, db.bets[i]);
    }
    TotalNonNegative(db.bets, OnMarket(m));
    assert OnMarket(m)(db.bets[b]) == db.bets[b].stake;
  }

  // ---------------------------------------------------------------- RefundMarket

  /** A market is refunded once, whether OPEN or LOCKED, and never after settlement. */
  lemma RefundRefusals(db: Db, m: MarketId)
    ensures var r := RefundMarketTx(db, m);
      && (r == RolledBack(MarketNotFound) <==> m >= |db.markets|)
      && (r == RolledBack(MarketAlreadyResolved) <==> InState(db, m, Resolved))
      && (r == RolledBack(MarketAlreadyCancelled) <==> InState(db, m, Cancelled))
      && (r == RolledBack(OutOfRange) <==>
            (InState(db, m, Open) || InState(db, m, Locked)) &&
            SomeCreditFails(db.balances, Refunds(Holders(db.bets, m))))
      && (r.Committed? <==>
            (InState(db, m, Open) || InState(db, m, Locked)) &&
            !SomeCreditFails(db.balances, Refunds(Holders(db.bets, m))))
  {
    hide Postable, SomeCreditFails, Post, WithdrawAll, Holders, Refunds;
    PostableMeans(db.balances, Refunds(Holders(db.bets, m)));
  }

  /** In valid tables that is a matter of the owners' final balances. */
  lemma RefundFitsIff(db: Db, m: MarketId)
    requires Valid(db)
    ensures RefundMarketTx(db, m).Committed? <==>
      && (InState(db, m, Open) || InState(db, m, Locked))
      && forall u :: 0 <= u < |db.balances| ==>
           db.balances[u] + Total(db.bets, OwnedOn(m, u)) <= 9_223_372_036_854_775_807
  {
    hide Valid, Total, Post, Postable, Holders, Refunds, SomeCreditFails, WithdrawAll;
    var credits := Refunds(Holders(db.bets, m));
    RefundRefusals(db, m);
    PostableMeans(db.balances, credits);
    RefundCreditsOk(db, m);
    WithinValid(db) by { BalancesOfValid(db); }
    PostableIff(db.balances, credits);
    forall u | 0 <= u < |db.balances|
      ensures Post(db.balances, credits)[u] == db.balances[u] + Total(db.bets, OwnedOn(m, u))
    {
      PostAt(db.balances, credits, u);
      RefundsByOwner(db.bets, m, u);
    }
  }

  lemma BalancesOfValid(db: Db)
    requires Valid(db)
    ensures BalancesOk(db) && BetsOk(db)
  {
  }

  lemma RefundCreditsOk(db: Db, m: MarketId)
    requires Valid(db)
    ensures var credits := Refunds(Holders(db.bets, m));
      UsersExist(db.balances, credits) && forall i :: 0 <= i < |credits| ==> credits[i].amount >= 0
  {
    hide Holders;
    OwnersExist(db, m, "");
    HoldersArePositive(db, m);
    var rows := Holders(db.bets, m);
    forall i | 0 <= i < |rows| ensures rows[i].owner < |db.balances| && rows[i].stake > 0 {
      assert rows[i] in rows;
    }
  }

  /** Then it is CANCELLED, its active listings are withdrawn, and no pool, bet or other
      market changes. (For the balances see RefundPaysOwners.) */
  lemma RefundChanges(db: Db, m: MarketId)
    requires RefundMarketTx(db, m).Committed?
    ensures var after := RefundMarketTx(db, m).db;
      && |after.markets| == |db.markets| && after.markets[m] == db.markets[m].(status := Cancelled)
      && (forall n :: 0 <= n < |db.markets| && n != m ==> after.markets[n] == db.markets[n])
      && ListingsWithdrawn(db.listings, after.listings, m)
      && |after.balances| == |db.balances| && after.pools == db.pools && after.bets == db.bets
  {
    hide Postable, Post, Holders, Refunds;
  }

  // -------------------------------------------------------------------- PlaceBet

  /** What a bet must satisfy, in the order in which it is checked. */
  lemma PlaceBetRefusals(db: Db, u: UserId, m: MarketId, o: string, stake: int64)
    ensures var r, k := PlaceBetTx(db, u, m, o, stake), PoolKey(m, o);
      var offered := InState(db, m, Open) && o in db.markets[m].outcomes;
      && (r == RolledBack(StakeNotPositive) <==> stake <= 0)
      && (r == RolledBack(MarketNotFound) <==> stake > 0 && m >= |db.markets|)
      && (r == RolledBack(MarketNotOpen) <==> stake > 0 && m < |db.markets| && !InState(db, m, Open))
      && (r == RolledBack(InvalidOutcome) <==> stake > 0 && InState(db, m, Open) && o !in db.markets[m].outcomes)
      && (r == RolledBack(UserNotFound) <==> stake > 0 && offered && u >= |db.balances|)
      && (r == RolledBack(InsufficientBalance) <==>
            stake > 0 && offered && u < |db.balances| && db.balances[u] < stake)
      && (r == RolledBack(OutOfRange) <==>
            stake > 0 && offered && u < |db.balances| && db.balances[u] >= stake &&
            k in db.pools && db.pools[k] + stake > 9_223_372_036_854_775_807)
      && (r.Committed? <==>
            stake > 0 && offered && u < |db.balances| && db.balances[u] >= stake &&
            (k in db.pools ==> db.pools[k] + stake <= 9_223_372_036_854_775_807))
  {
  }

  /** It moves the stake from the bettor to the pool of its outcome, and is recorded as
      theirs; no other balance, pool or bet and no market or listing changes. */
  lemma PlaceBetChanges(db: Db, u: UserId, m: MarketId, o: string, stake: int64)
    requires PlaceBetTx(db, u, m, o, stake).Committed? && PoolKey(m, o) in db.pools
    ensures var after, k := PlaceBetTx(db, u, m, o, stake).db, PoolKey(m, o);
      && |after.balances| == |db.balances| && after.balances[u] == db.balances[u] - stake
      && (forall v :: 0 <= v < |db.balances| && v != u ==> after.balances[v] == db.balances[v])
      && after.pools.Keys == db.pools.Keys && after.pools[k] == db.pools[k] + stake
      && (forall j :: j in db.pools && j != k ==> after.pools[j] == db.pools[j])
      && after.bets == db.bets + [Bet(m, u, u, o, stake)]
      && after.markets == db.markets && after.listings == db.listings
  {
  }

  // ---------------------------------------------------------------- CreateMarket

  /** The int64 debit of a seed per outcome. */
  predicate SeedUnpaid(db: Db, outcomes: seq<string>, seed: int64) {
    var debit := Wrap(seed * |outcomes|);
    debit > 0 && |db.balances| > 0 && db.balances[0] < debit
  }

  /** Distinct outcomes of at most a hundred characters. */
  predicate OutcomesFit(outcomes: seq<string>) {
    && (forall i, j :: 0 <= i < j < |outcomes| ==> outcomes[i] != outcomes[j])
    && (forall i :: 0 <= i < |outcomes| ==> |outcomes[i]| <= 100)
  }

  lemma CreateMarketRefusals(db: Db, question: string, outcomes: seq<string>, seed: int64)
    ensures var r := CreateMarketTx(db, question, outcomes, seed);
      var housed := |outcomes| >= 2 && (seed == 0 || (seed > 0 && |db.balances| > 0));
      && (r == RolledBack(TooFewOutcomes) <==> |outcomes| < 2)
      && (r == RolledBack(NegativeSeed) <==> |outcomes| >= 2 && seed < 0)
      && (r == RolledBack(UserNotFound) <==> |outcomes| >= 2 && seed > 0 && |db.balances| == 0)
      && (r == RolledBack(HouseShort) <==> housed && SeedUnpaid(db, outcomes, seed))
      && (r == RolledBack(OutcomeRejected) <==>
            housed && !SeedUnpaid(db, outcomes, seed) && !OutcomesFit(outcomes))
      && (r.Committed? <==> housed && !SeedUnpaid(db, outcomes, seed) && OutcomesFit(outcomes))
  {
    hide Wrap, SeedPools, SeedBets;
  }

  /** The market starts OPEN and undecided, with a pool and, if there is a seed, a bet of
      the house per outcome, for which the house pays and nobody else. */
  lemma CreateMarketChanges(db: Db, question: string, outcomes: seq<string>, seed: int64)
    requires CreateMarketTx(db, question, outcomes, seed).Committed? && |db.balances| > 0
    ensures var after, m, n := CreateMarketTx(db, question, outcomes, seed).db, |db.markets|, |db.bets|;
      var debit := Wrap(seed * |outcomes|);
      && after.markets == db.markets + [Market(question, outcomes, Open, seed, None)]
      && |after.balances| == |db.balances|
      && after.balances[0] == db.balances[0] - (if debit > 0 then debit else 0)
      && (forall u :: 0 < u < |db.balances| ==> after.balances[u] == db.balances[u])
      && (forall k :: k in after.pools <==> k in db.pools || (k.market == m && k.outcome in outcomes))
      && (forall o :: o in outcomes ==> after.pools[PoolKey(m, o)] == seed)
      && (forall k :: k in db.pools && !(k.market == m && k.outcome in outcomes) ==> after.pools[k] == db.pools[k])
      && |after.bets| == n + (if seed > 0 then |outcomes| else 0) && db.bets <= after.bets
      && (seed > 0 ==> forall i :: 0 <= i < |outcomes| ==> after.bets[n + i] == Bet(m, 0, 0, outcomes[i], seed))
      && after.listings == db.listings
  {
    hide Wrap, Storable;
  }

  // --------------------------------------------------------------- AdjustBalance

  lemma AdjustRefusals(db: Db, u: UserId, delta: int64)
    requires BalancesOk(db)
    ensures var r := AdjustBalanceTx(db, u, delta);
      && (r == RolledBack(UserNotFound) <==> u >= |db.balances|)
      && (r == RolledBack(InsufficientBalance) <==>
            u < |db.balances| && !(0 <= db.balances[u] + delta <= 9_223_372_036_854_775_807))
      && (r.Committed? <==> u < |db.balances| && 0 <= db.balances[u] + delta <= 9_223_372_036_854_775_807)
  {
    if u < |db.balances| {
      var exact := db.balances[u] + delta;
      WrapUnique(exact, if exact > MAX then exact - TWO_TO_64 else exact);
    }
  }

  lemma AdjustChanges(db: Db, u: UserId, delta: int64)
    requires BalancesOk(db) && AdjustBalanceTx(db, u, delta).Committed?
    ensures var after := AdjustBalanceTx(db, u, delta).db;
      && |after.balances| == |db.balances| && after.balances[u] == db.balances[u] + delta
      && (forall v :: 0 <= v < |db.balances| && v != u ==> after.balances[v] == db.balances[v])
      && after.markets == db.markets && after.pools == db.pools && after.bets == db.bets
      && after.listings == db.listings
  {
    AdjustRefusals(db, u, delta);
    WrapUnique(db.balances[u] + delta, db.balances[u] + delta);
  }

  // -------------------------------------------------------------------- listings

  /** Some listing of the bet is active. */
  predicate ForSale(db: Db, b: BetId) {
    exists l :: 0 <= l < |db.listings| && db.listings[l].bet == b && db.listings[l].status == Listed
  }

  lemma ListBetRefusals(db: Db, b: BetId, seller: UserId, price: int64)
    requires b < |db.bets| ==> db.bets[b].market < |db.markets|
    ensures var r := ListBetTx(db, b, seller, price);
      var offered := price > 0 && b < |db.bets| && InState(db, db.bets[b].market, Open);
      && (r == RolledBack(PriceNotPositive) <==> price <= 0)
      && (r == RolledBack(BetNotFound) <==> price > 0 && b >= |db.bets|)
      && (r == RolledBack(MarketNotOpen) <==>
            price > 0 && b < |db.bets| && !InState(db, db.bets[b].market, Open))
      && (r == RolledBack(NotBetOwner) <==> offered && db.bets[b].owner != seller)
      && (r == RolledBack(CannotListHouseBet) <==> offered && db.bets[b].owner == seller && seller == 0)
      && (r == RolledBack(BetAlreadyListed) <==>
            offered && db.bets[b].owner == seller && seller != 0 && ForSale(db, b))
      && (r.Committed? <==> offered && db.bets[b].owner == seller && seller != 0 && !ForSale(db, b))
  {
  }

  lemma ListBetChanges(db: Db, b: BetId, seller: UserId, price: int64)
    requires ListBetTx(db, b, seller, price).Committed?
    ensures var after := ListBetTx(db, b, seller, price).db;
      && b < |db.bets|
      && after.listings == db.listings + [Listing(b, db.bets[b].market, seller, None, price, Listed)]
      && after.balances == db.balances && after.markets == db.markets && after.pools == db.pools
      && after.bets == db.bets
  {
  }

  lemma CancelListingRefusals(db: Db, l: ListingId, seller: UserId)
    ensures var r := CancelListingTx(db, l, seller);
      && (r == RolledBack(ListingNotFound) <==> l >= |db.listings|)
      && (r == RolledBack(NotListingOwner) <==> l < |db.listings| && db.listings[l].seller != seller)
      && (r == RolledBack(ListingNotActive) <==>
            l < |db.listings| && db.listings[l].seller == seller &&
            (db.listings[l].status == Sold || db.listings[l].status == Withdrawn))
      && (r.Committed? <==>
            l < |db.listings| && db.listings[l].seller == seller && db.listings[l].status == Listed)
  {
  }

  /** Only this listing, and only its status, is different. */
  predicate OnlyListing(db: Db, after: Db, l: ListingId, status: ListingStatus) {
    && l < |db.listings| == |after.listings| && after.listings[l] == db.listings[l].(status := status)
    && (forall k :: 0 <= k < |db.listings| && k != l ==> after.listings[k] == db.listings[k])
    && after.balances == db.balances && after.markets == db.markets && after.pools == db.pools
    && after.bets == db.bets
  }

  lemma CancelListingChanges(db: Db, l: ListingId, seller: UserId)
    requires CancelListingTx(db, l, seller).Committed?
    ensures OnlyListing(db, CancelListingTx(db, l, seller).db, l, Withdrawn)
  {
  }

  /** A stale listing is withdrawn if it is still active, and left alone otherwise. */
  lemma InvalidateRule(db: Db, l: ListingId)
    ensures var r := InvalidateListingTx(db, l);
      && (r == RolledBack(ListingNotFound) <==> l >= |db.listings|)
      && (r.Committed? <==> l < |db.listings|)
      && (r.Committed? ==>
            OnlyListing(db, r.db, l, if db.listings[l].status == Listed then Withdrawn else db.listings[l].status))
  {
  }

  // ---------------------------------------------------------------- BuyListedBet

  /** In valid tables, what a purchase must satisfy, in the order in which it is checked:
      the market's status before the listing's, and the money last. */
  lemma BuyRefusals(db: Db, l: ListingId, buyer: UserId)
    requires Valid(db)
    ensures var r := BuyBetTx(db, l, buyer);
      l >= |db.listings| ==> r == RolledBack(ListingNotFound)
    ensures l < |db.listings| ==>
      var r, listing := BuyBetTx(db, l, buyer), db.listings[l];
      var open := InState(db, listing.market, Open);
      var offered := open && listing.status == Listed && listing.seller != buyer;
      && listing.seller < |db.balances|
      && (r == RolledBack(ListingMarketNoLongerOpen) <==> !open)
      && (r == RolledBack(ListingNotActive) <==> open && listing.status != Listed)
      && (r == RolledBack(CannotBuyOwnListing) <==> open && listing.status == Listed && listing.seller == buyer)
      && (r == RolledBack(UserNotFound) <==> offered && buyer >= |db.balances|)
      && (r == RolledBack(InsufficientBalance) <==>
            offered && buyer < |db.balances| && db.balances[buyer] < listing.price)
      && (r == RolledBack(OutOfRange) <==>
            offered && buyer < |db.balances| && db.balances[buyer] >= listing.price &&
            db.balances[listing.seller] + listing.price > 9_223_372_036_854_775_807)
      && (r.Committed? <==>
            offered && buyer < |db.balances| && db.balances[buyer] >= listing.price &&
            db.balances[listing.seller] + listing.price <= 9_223_372_036_854_775_807)
  {
    hide BalancesOk, MarketsOk, PoolsOk, BetsOk, ChainsOk, SeedsOk, ActiveIsLast;
    if l < |db.listings| {
      assert ListingOk(db, db.listings[l]);
    }
  }

  /** The price goes from buyer to seller, the bet to the buyer, and the listing is sold
      to them; nothing else changes. */
  lemma BuyChanges(db: Db, l: ListingId, buyer: UserId)
    requires BuyBetTx(db, l, buyer).Committed?
    ensures var after := BuyBetTx(db, l, buyer).db;
      && l < |db.listings| && var listing := db.listings[l];
      && listing.seller != buyer && |after.balances| == |db.balances|
      && after.balances[buyer] == db.balances[buyer] - listing.price
      && after.balances[listing.seller] == db.balances[listing.seller] + listing.price
      && (forall u :: 0 <= u < |db.balances| && u != buyer && u != listing.seller ==>
            after.balances[u] == db.balances[u])
      && listing.bet < |db.bets| == |after.bets|
      && after.bets[listing.bet] == db.bets[listing.bet].(owner := buyer)
      && (forall b :: 0 <= b < |db.bets| && b != listing.bet ==> after.bets[b] == db.bets[b])
      && |after.listings| == |db.listings|
      && after.listings[l] == listing.(status := Sold, buyer := Some(buyer))
      && (forall k :: 0 <= k < |db.listings| && k != l ==> after.listings[k] == db.listings[k])
      && after.markets == db.markets && after.pools == db.pools
  {
  }
}
