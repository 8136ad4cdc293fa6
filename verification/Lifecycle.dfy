/** The life of a market over whole runs: OPEN until it is locked or refunded, LOCKED
    until it is resolved or refunded, and each of these at most once and only by the
    request for it. What betting has closed on stays as it was. */
module Lifecycle {
  import opened Int64
  import opened Tables
  import opened Wrappers
  import opened Transactions
  import opened Invariants
  import opened Runs
  import opened Rules
  import Serializability

  // -------------------------------------------------------------------- one request

  /** Nothing about the market row changes but its status, and its winner with it. */
  predicate SameMarket(before: Market, after: Market) {
    after.question == before.question && after.outcomes == before.outcomes && after.seed == before.seed
  }

  /** The request the market's status changed by, if it did. */
  predicate Moves(before: Market, after: Market, r: Request, m: MarketId) {
    match r
    case LockMarket(n) => n == m && before.status == Open && after == before.(status := Locked)
    case ResolveMarket(n, o) =>
      n == m && before.status == Locked && after == before.(status := Resolved, winner := Some(o))
    case RefundMarket(n) =>
      n == m && (before.status == Open || before.status == Locked) && after == before.(status := Cancelled)
    case _ => false
  }

  /** A request for this market's next state. */
  predicate Aims(r: Request, m: MarketId) {
    (r.LockMarket? || r.ResolveMarket? || r.RefundMarket?) && r.market == m
  }

  /** A request leaves an existing market as it is, unless it is one for its next state
      and commits; then it moves it there. */
  lemma MarketMovesIff(db: Db, c: Call, m: MarketId)
    requires m < |db.markets|
    ensures |db.markets| <= |Next(db, c).markets|
    ensures if Commits(db, c) && Aims(c.request, m) then Moves(db.markets[m], Next(db, c).markets[m], c.request, m)
            else Next(db, c).markets[m] == db.markets[m]
  {
    hide Apply, Possible;
    if Commits(db, c) {
      MarketsWritten(db, c, m);
    }
  }

  lemma MarketsWritten(db: Db, c: Call, m: MarketId)
    requires m < |db.markets| && Apply(db, c).Committed?
    ensures var after := Apply(db, c).db.markets;
      && |db.markets| <= |after|
      && (if Aims(c.request, m) then Moves(db.markets[m], after[m], c.request, m) else after[m] == db.markets[m])
  {
    hide LockMarketTx, ResolveMarketTx, RefundMarketTx, CreateMarketTx, BuyBetTx, SomeCreditFails, ListingsWithdrawn;
    match c.request
    case LockMarket(n) =>
      LockRefusals(db, n);
      LockChanges(db, n);
    case ResolveMarket(n, o) =>
      ResolveRefusals(db, n, o, c.rows);
      ResolveChanges(db, n, o, c.rows);
    case RefundMarket(n) =>
      RefundRefusals(db, n);
      RefundChanges(db, n);
    case CreateMarket(question, outcomes, seed) => CreationAppends(db, question, outcomes, seed);
    case BuyBet(l, buyer) => BuyChanges(db, l, buyer);
    case _ =>
  }

  lemma CreationAppends(db: Db, question: string, outcomes: seq<string>, seed: int64)
    requires CreateMarketTx(db, question, outcomes, seed).Committed?
    ensures var after := CreateMarketTx(db, question, outcomes, seed).db;
      after.markets == db.markets + [Market(question, outcomes, Open, seed, None)]
  {
  }

  /** A market that was not there starts OPEN. */
  lemma NewMarketIsOpen(db: Db, c: Call, m: MarketId)
    requires |db.markets| <= m < |Next(db, c).markets|
    ensures InState(Next(db, c), m, Open) && c.request.CreateMarket? && Commits(db, c)
  {
    hide Possible, LockMarketTx, ResolveMarketTx, RefundMarketTx, CreateMarketTx, BuyBetTx, SomeCreditFails,
        ListingsWithdrawn;
    match c.request
    case LockMarket(n) =>
      if Commits(db, c) {
        LockChanges(db, n);
      }
    case ResolveMarket(n, o) =>
      if Commits(db, c) {
        ResolveChanges(db, n, o, c.rows);
      }
    case RefundMarket(n) =>
      if Commits(db, c) {
        RefundChanges(db, n);
      }
    case CreateMarket(question, outcomes, seed) =>
      if Commits(db, c) {
        CreationAppends(db, question, outcomes, seed);
      }
    case BuyBet(l, buyer) =>
      if Commits(db, c) {
        BuyChanges(db, l, buyer);
      }
    case _ =>
  }

  // -------------------------------------------------------------------- whole runs

  predicate CommitsAt(db: Db, cs: seq<Call>, i: nat) {
    i < |cs| && Commits(After(db, cs[..i]), cs[i])
  }

  /** Some request of this kind committed in the run. */
  ghost predicate Happened(db: Db, cs: seq<Call>, kind: Request -> bool) {
    exists i: nat :: CommitsAt(db, cs, i) && kind(cs[i].request)
  }

  function Locking(m: MarketId): Request -> bool { (r: Request) => r.LockMarket? && r.market == m }

  function Resolving(m: MarketId): Request -> bool { (r: Request) => r.ResolveMarket? && r.market == m }

  function Refunding(m: MarketId): Request -> bool { (r: Request) => r.RefundMarket? && r.market == m }

  /** A run's history is that of its first steps and its last. */
  lemma HistoryStep(db: Db, cs: seq<Call>, kind: Request -> bool)
    requires |cs| > 0
    ensures var n := |cs| - 1;
      Happened(db, cs, kind) <==>
        Happened(db, cs[..n], kind) || (Commits(After(db, cs[..n]), cs[n]) && kind(cs[n].request))
  {
    hide Commits, After;
    var n := |cs| - 1;
    forall i: nat | i < n ensures CommitsAt(db, cs, i) <==> CommitsAt(db, cs[..n], i) {
      assert cs[..n][..i] == cs[..i];
    }
    assert CommitsAt(db, cs, n) <==> Commits(After(db, cs[..n]), cs[n]);
  }

  lemma MarketHistory(db: Db, cs: seq<Call>, m: MarketId)
    requires |cs| > 0
    ensures var n := |cs| - 1;
      var last := Commits(After(db, cs[..n]), cs[n]) && Aims(cs[n].request, m);
      && (Happened(db, cs, Locking(m)) <==> Happened(db, cs[..n], Locking(m)) || (last && cs[n].request.LockMarket?))
      && (Happened(db, cs, Resolving(m)) <==>
            Happened(db, cs[..n], Resolving(m)) || (last && cs[n].request.ResolveMarket?))
      && (Happened(db, cs, Refunding(m)) <==>
            Happened(db, cs[..n], Refunding(m)) || (last && cs[n].request.RefundMarket?))
  {
    hide Commits, After, Happened;
    HistoryStep(db, cs, Locking(m));
    HistoryStep(db, cs, Resolving(m));
    HistoryStep(db, cs, Refunding(m));
  }

  lemma {:induction false} MarketsGrow(db: Db, cs: seq<Call>, m: MarketId)
    ensures m < |db.markets| ==> m < |After(db, cs).markets|
  {
    hide Next;
    if |cs| > 0 {
      var n := |cs| - 1;
      MarketsGrow(db, cs[..n], m);
      if m < |After(db, cs[..n]).markets| {
        MarketMovesIff(After(db, cs[..n]), cs[n], m);
      }
    }
  }

  /** No such request commits for a market that is not there. */
  lemma {:induction false} NothingYet(db: Db, cs: seq<Call>, m: MarketId)
    requires m >= |After(db, cs).markets|
    ensures !Happened(db, cs, Locking(m)) && !Happened(db, cs, Resolving(m)) && !Happened(db, cs, Refunding(m))
  {
    hide Next, Happened, Commits;
    if |cs| > 0 {
      var n := |cs| - 1;
      MarketHistory(db, cs, m);
      if m < |After(db, cs[..n]).markets| {
        MarketMovesIff(After(db, cs[..n]), cs[n], m);
      } else {
        NothingYet(db, cs[..n], m);
        if Commits(After(db, cs[..n]), cs[n]) && Aims(cs[n].request, m) {
          AimsInRange(After(db, cs[..n]), cs[n], m);
        }
      }
    } else {
      NoHistory(db, m);
    }
  }

  lemma NoHistory(db: Db, m: MarketId)
    ensures !Happened(db, [], Locking(m)) && !Happened(db, [], Resolving(m)) && !Happened(db, [], Refunding(m))
  {
  }

  lemma AimsInRange(db: Db, c: Call, m: MarketId)
    requires Commits(db, c) && Aims(c.request, m)
    ensures m < |db.markets|
  {
    hide Possible, LockMarketTx, ResolveMarketTx, RefundMarketTx, SomeCreditFails;
    match c.request
    case LockMarket(n) => LockRefusals(db, n);
    case ResolveMarket(n, o) => ResolveRefusals(db, n, o, c.rows);
    case RefundMarket(n) => RefundRefusals(db, n);
  }

  /** In any run that found the market OPEN or created it, its status says exactly which
      of these requests have committed. */
  lemma {:induction false} StatusIs(db: Db, cs: seq<Call>, m: MarketId)
    requires m < |After(db, cs).markets| && (m < |db.markets| ==> InState(db, m, Open))
    ensures var status := After(db, cs).markets[m].status;
      && (status == Open <==> !Happened(db, cs, Locking(m)) && !Happened(db, cs, Refunding(m)))
      && (status == Locked <==>
            Happened(db, cs, Locking(m)) && !Happened(db, cs, Resolving(m)) && !Happened(db, cs, Refunding(m)))
      && (status == Resolved <==> Happened(db, cs, Resolving(m)))
      && (status == Cancelled <==> Happened(db, cs, Refunding(m)))
      && (Happened(db, cs, Resolving(m)) ==> Happened(db, cs, Locking(m)) && !Happened(db, cs, Refunding(m)))
  {
    hide Next, Happened, Commits;
    if |cs| == 0 {
      NoHistory(db, m);
    } else {
      var n := |cs| - 1;
      var before := After(db, cs[..n]);
      MarketHistory(db, cs, m);
      if m < |before.markets| {
        StatusIs(db, cs[..n], m);
        MarketMovesIff(before, cs[n], m);
      } else {
        NothingYet(db, cs[..n], m);
        NewMarketIsOpen(before, cs[n], m);
      }
    }
  }

  /** A market the run has RESOLVED was LOCKED until the request that resolved it, with
      the winner it names; and unless it was LOCKED to begin with, the run has locked it
      before, when it was OPEN. */
  lemma {:induction false} ResolvedWasLocked(db: Db, cs: seq<Call>, m: MarketId) returns (j: nat)
    requires InState(After(db, cs), m, Resolved) && !InState(db, m, Resolved)
    ensures CommitsAt(db, cs, j) && InState(After(db, cs[..j]), m, Locked)
    ensures Resolving(m)(cs[j].request) && After(db, cs).markets[m].winner == Some(cs[j].request.outcome)
    ensures InState(db, m, Locked) || Happened(db, cs[..j], Locking(m))
  {
    hide Next, Happened, Commits;
    var n := |cs| - 1;
    var before := After(db, cs[..n]);
    if m >= |before.markets| {
      NewMarketIsOpen(before, cs[n], m);
    }
    MarketMovesIff(before, cs[n], m);
    if InState(before, m, Resolved) {
      j := ResolvedWasLocked(db, cs[..n], m);
      assert cs[..n][..j] == cs[..j];
    } else {
      j := n;
      if !InState(db, m, Locked) {
        LockedWasOpen(db, cs[..n], m);
      }
    }
  }

  /** Nothing but a committed LockMarket makes a market LOCKED. */
  lemma {:induction false} LockedWasOpen(db: Db, cs: seq<Call>, m: MarketId)
    requires InState(After(db, cs), m, Locked) && !InState(db, m, Locked)
    ensures Happened(db, cs, Locking(m))
  {
    hide Next, Happened, Commits;
    var n := |cs| - 1;
    var before := After(db, cs[..n]);
    if m >= |before.markets| {
      NewMarketIsOpen(before, cs[n], m);
    }
    MarketMovesIff(before, cs[n], m);
    MarketHistory(db, cs, m);
    if InState(before, m, Locked) {
      LockedWasOpen(db, cs[..n], m);
    }
  }

  // ------------------------------------------------------------- after betting closed

  /** A bet placed on the market, listed, or sold. */
  predicate Trades(db: Db, r: Request, m: MarketId) {
    match r
    case PlaceBet(_, n, _, _) => n == m
    case ListBet(b, _, _) => b < |db.bets| && db.bets[b].market == m
    case BuyBet(l, _) => l < |db.listings| && db.listings[l].market == m
    case _ => false
  }

  /** The market's pools, bets and their owners, and listings are what they were. */
  ghost predicate Frozen(db: Db, after: Db, m: MarketId) {
    && (forall k: PoolKey :: k.market == m ==> (k in after.pools <==> k in db.pools))
    && (forall k: PoolKey :: k.market == m && k in db.pools && k in after.pools ==> after.pools[k] == db.pools[k])
    && |db.bets| <= |after.bets| && |db.listings| <= |after.listings|
    && (forall b :: 0 <= b < |db.bets| && db.bets[b].market == m ==> after.bets[b] == db.bets[b])
    && (forall b :: 0 <= b < |after.bets| && after.bets[b].market == m ==> b < |db.bets| && db.bets[b].market == m)
    && (forall l :: 0 <= l < |db.listings| && db.listings[l].market == m ==> after.listings[l] == db.listings[l])
    && (forall l :: 0 <= l < |after.listings| && after.listings[l].market == m ==>
          l < |db.listings| && db.listings[l].market == m)
  }

  /** A market no longer OPEN never is again; nothing on it is bet, listed or sold. */
  lemma ClosedStays(db: Db, c: Call, m: MarketId)
    requires Valid(db) && m < |db.markets| && !InState(db, m, Open)
    ensures Frozen(db, Next(db, c), m) && m < |Next(db, c).markets| && !InState(Next(db, c), m, Open)
    ensures Trades(db, c.request, m) ==> !Commits(db, c)
  {
    hide Valid, Apply, Possible, Frozen;
    MarketMovesIff(db, c, m);
    NothingOnClosed(db, c.request, m);
    if Commits(db, c) {
      CommitFreezes(db, c, m);
    } else {
      Unchanged(db, m);
    }
  }

  lemma Unchanged(db: Db, m: MarketId)
    ensures Frozen(db, db, m)
  {
  }

  lemma NothingOnClosed(db: Db, r: Request, m: MarketId)
    requires Valid(db) && m < |db.markets| && !InState(db, m, Open)
    ensures Trades(db, r, m) ==> forall rows :: !Apply(db, Call(r, rows)).Committed?
  {
    hide Valid, PlaceBetTx, ListBetTx, BuyBetTx, ForSale;
    match r
    case PlaceBet(u, n, o, stake) => PlaceBetRefusals(db, u, n, o, stake);
    case ListBet(b, seller, price) =>
      if b < |db.bets| {
        BetInMarket(db, b);
        ListBetRefusals(db, b, seller, price);
      }
    case BuyBet(l, buyer) => BuyRefusals(db, l, buyer);
    case _ =>
  }

  lemma BetInMarket(db: Db, b: BetId)
    requires Valid(db) && b < |db.bets|
    ensures db.bets[b].market < |db.markets|
    ensures PoolKey(db.bets[b].market, db.bets[b].outcome) in db.pools
  {
    assert BetOk(db, db.bets[b]);
    assert MarketOk(db.markets[db.bets[b].market], db.bets[b].market, db.pools);
  }

  lemma ListingInMarket(db: Db, l: ListingId)
    requires Valid(db) && l < |db.listings|
    ensures var listing := db.listings[l];
      && listing.bet < |db.bets| && db.bets[listing.bet].market == listing.market < |db.markets|
      && (listing.status == Listed ==> InState(db, listing.market, Open))
  {
    assert ListingOk(db, db.listings[l]);
  }

  lemma PoolOfBet(db: Db, u: UserId, m: MarketId, o: string, stake: int64)
    requires Valid(db) && PlaceBetTx(db, u, m, o, stake).Committed?
    ensures PoolKey(m, o) in db.pools && InState(db, m, Open)
  {
    assert MarketOk(db.markets[m], m, db.pools);
  }

  /** Withdrawing another market's listings, or this one's when none is active. */
  lemma WithdrawalFreezes(db: Db, after: Db, n: MarketId, m: MarketId)
    requires Valid(db) && m < |db.markets| && !InState(db, m, Open)
    requires ListingsWithdrawn(db.listings, after.listings, n) && after.pools == db.pools && after.bets == db.bets
    ensures Frozen(db, after, m)
  {
    hide Valid;
    forall l | 0 <= l < |db.listings| && db.listings[l].market == m ensures after.listings[l] == db.listings[l] {
      ListingInMarket(db, l);
    }
  }

  lemma CreationFreezes(db: Db, question: string, outcomes: seq<string>, seed: int64, m: MarketId)
    requires Valid(db) && m < |db.markets| && CreateMarketTx(db, question, outcomes, seed).Committed?
    ensures Frozen(db, CreateMarketTx(db, question, outcomes, seed).db, m)
  {
    hide Valid, CreateMarketTx, Wrap;
    HouseThere(db);
    CreateMarketChanges(db, question, outcomes, seed);
    var after := CreateMarketTx(db, question, outcomes, seed).db;
    forall b | |db.bets| <= b < |after.bets| ensures after.bets[b].market == |db.markets| {
      var i := b - |db.bets|;
      assert after.bets[|db.bets| + i] == Bet(|db.markets|, 0, 0, outcomes[i], seed);
    }
  }

  lemma HouseThere(db: Db)
    requires Valid(db)
    ensures |db.balances| > 0
  {
  }

  lemma TradeFreezes(db: Db, c: Call, m: MarketId)
    requires Valid(db) && m < |db.markets| && !InState(db, m, Open) && Apply(db, c).Committed?
    requires c.request.PlaceBet? || c.request.ListBet? || c.request.BuyBet?
    ensures Frozen(db, Apply(db, c).db, m)
  {
    hide Valid, PlaceBetTx, ListBetTx, BuyBetTx, ForSale;
    NothingOnClosed(db, c.request, m);
    assert c == Call(c.request, c.rows);
    match c.request
    case PlaceBet(u, n, o, stake) =>
      PoolOfBet(db, u, n, o, stake);
      PlaceBetChanges(db, u, n, o, stake);
    case ListBet(b, seller, price) => ListBetChanges(db, b, seller, price);
    case BuyBet(l, buyer) =>
      BuyChanges(db, l, buyer);
      ListingInMarket(db, l);
  }

  lemma CommitFreezes(db: Db, c: Call, m: MarketId)
    requires Valid(db) && m < |db.markets| && !InState(db, m, Open) && Apply(db, c).Committed?
    ensures Frozen(db, Apply(db, c).db, m)
  {
    hide Valid, Frozen, LockMarketTx, ResolveMarketTx, RefundMarketTx, CreateMarketTx, PlaceBetTx, ListBetTx, BuyBetTx,
        AdjustBalanceTx, CancelListingTx, InvalidateListingTx, ListingsWithdrawn;
    match c.request
    case LockMarket(n) =>
      LockChanges(db, n);
      WithdrawalFreezes(db, LockMarketTx(db, n).db, n, m);
    case ResolveMarket(n, o) =>
      ResolveChanges(db, n, o, c.rows);
      WithdrawalFreezes(db, ResolveMarketTx(db, n, o, c.rows).db, n, m);
    case RefundMarket(n) =>
      RefundChanges(db, n);
      WithdrawalFreezes(db, RefundMarketTx(db, n).db, n, m);
    case CreateMarket(question, outcomes, seed) => CreationFreezes(db, question, outcomes, seed, m);
    case AdjustBalance(u, delta) => AdjustFreezes(db, u, delta, m);
    case CancelListing(l, seller) => CancelFreezes(db, c, l, m);
    case InvalidateListing(l) => CancelFreezes(db, c, l, m);
    case _ => TradeFreezes(db, c, m);
  }

  lemma AdjustFreezes(db: Db, u: UserId, delta: int64, m: MarketId)
    requires Valid(db) && AdjustBalanceTx(db, u, delta).Committed?
    ensures Frozen(db, AdjustBalanceTx(db, u, delta).db, m)
  {
    hide AdjustBalanceTx;
    AdjustChanges(db, u, delta);
  }

  lemma CancelFreezes(db: Db, c: Call, l: ListingId, m: MarketId)
    requires Valid(db) && m < |db.markets| && !InState(db, m, Open) && Apply(db, c).Committed?
    requires c.request.CancelListing? || c.request.InvalidateListing?
    requires l == c.request.listing
    ensures Frozen(db, Apply(db, c).db, m)
  {
    hide Valid, CancelListingTx, InvalidateListingTx;
    if c.request.CancelListing? {
      CancelListingRefusals(db, l, c.request.seller);
      CancelListingChanges(db, l, c.request.seller);
    } else {
      InvalidateRule(db, l);
    }
    ListingInMarket(db, l);
  }

  lemma FrozenTogether(db: Db, mid: Db, after: Db, m: MarketId)
    requires Frozen(db, mid, m) && Frozen(mid, after, m)
    ensures Frozen(db, after, m)
  {
  }

  /** Once a market has left OPEN - so from a committed LockMarket to its settlement and
      beyond - no bet on it is placed, listed or sold, and its pools, its bets and their
      owners, and its listings are exactly what they were. */
  lemma {:induction false} ClosedForGood(db: Db, cs: seq<Call>, m: MarketId)
    requires Valid(db) && m < |db.markets| && !InState(db, m, Open)
    ensures var end := After(db, cs);
      && m < |end.markets| && !InState(end, m, Open) && Frozen(db, end, m)
      && forall c: Call :: Trades(end, c.request, m) ==> !Commits(end, c)
  {
    hide Valid, Next, Commits, Trades, Frozen;
    var end := After(db, cs);
    RunKeepsValid(db, cs);
    if |cs| == 0 {
      Unchanged(db, m);
    } else {
      var n := |cs| - 1;
      ClosedForGood(db, cs[..n], m);
      RunKeepsValid(db, cs[..n]);
      ClosedStays(After(db, cs[..n]), cs[n], m);
      FrozenTogether(db, After(db, cs[..n]), end, m);
    }
    forall c: Call | Trades(end, c.request, m) ensures !Commits(end, c) {
      ClosedStays(end, c, m);
    }
  }

  // --------------------------------------------------------------- in any interleaving

  /** The same of every interleaving of the statements of any requests: a market the
      initial database has OPEN or lacks is OPEN, LOCKED, RESOLVED or CANCELLED exactly
      as the requests that have committed say. */
  lemma InterleavedStatusIs(db: Db, es: seq<Serializability.Event>, m: MarketId)
    requires Valid(db) && (m < |db.markets| ==> InState(db, m, Open))
    requires m < |Serializability.Execute(Serializability.Sys(db, map[], []), es).db.markets|
    ensures var end := Serializability.Execute(Serializability.Sys(db, map[], []), es);
      var status := end.db.markets[m].status;
      var locked := exists c :: c in end.done && c.request == LockMarket(m);
      var resolved := exists c :: c in end.done && c.request.ResolveMarket? && c.request.market == m;
      var refunded := exists c :: c in end.done && c.request == RefundMarket(m);
      && (status == Open <==> !locked && !refunded)
      && (status == Locked <==> locked && !resolved && !refunded)
      && (status == Resolved <==> resolved) && (status == Cancelled <==> refunded)
      && (resolved ==> locked && !refunded)
  {
    hide Valid, Serializability.Execute, Happened, Commits, Serializability.Consistent;
    var end := Serializability.Execute(Serializability.Sys(db, map[], []), es);
    Serializability.Serializable(db, es);
    StatusIs(db, end.done, m);
    HappenedIs(db, end.done, Locking(m));
    HappenedIs(db, end.done, Resolving(m));
    HappenedIs(db, end.done, Refunding(m));
  }

  lemma HappenedIs(db: Db, done: seq<Call>, kind: Request -> bool)
    requires Serializability.AllCommit(db, done)
    ensures Happened(db, done, kind) <==> exists c :: c in done && kind(c.request)
  {
    hide Commits, After;
    if c :| c in done && kind(c.request) {
      var i: nat :| i < |done| && done[i] == c;
      assert CommitsAt(db, done, i);
    }
  }
}
