/** A statement program run with nobody else around does exactly its
    transaction, errors included: what it leaves committed, statement by
    statement, is what `Apply` says in one step. */
module Isolation {
  import opened Int64
  import opened Sums
  import opened Tables
  import opened Wrappers
  import opened Settlement
  import opened Transactions
  import opened Invariants
  import opened AnyOrder
  import opened Locking

  /** What a statement does to the database its transaction sees. */
  function Effect(v: Db, s: Statement): Db {
    match s
    case SetBalance(u, value) => if u < |v.balances| then v.(balances := v.balances[u := value]) else v
    case AddBalance(u, amount) =>
      if u < |v.balances| && 0 <= v.balances[u] + amount <= MAX then
        v.(balances := v.balances[u := v.balances[u] + amount])
      else v
    case AddPool(k, amount) =>
      if k in v.pools && 0 <= v.pools[k] + amount <= MAX then v.(pools := v.pools[k := v.pools[k] + amount]) else v
    case WithdrawListed(m) => v.(listings := WithdrawAll(v.listings, m))
    case SetOwner(b, u) => if b < |v.bets| then v.(bets := v.bets[b := v.bets[b].(owner := u)]) else v
    case SetListing(l, row) => if l < |v.listings| then v.(listings := v.listings[l := row]) else v
    case SetMarket(m, row) => if m < |v.markets| then v.(markets := v.markets[m := row]) else v
    case InsertMarket(row) =>
      if Storable(row.outcomes) && row.seed >= 0 then
        v.(markets := v.markets + [row],
           pools := v.pools + SeedPools(|v.markets|, row.outcomes, row.seed),
           bets := v.bets + SeedBets(|v.markets|, row.outcomes, row.seed))
      else v
    case InsertBet(row) => v.(bets := v.bets + [row])
    case InsertListing(row) =>
      if HasListed(v.listings, row.bet) then v else v.(listings := v.listings + [row])
    case _ => v
  }

  /** Nothing inserted yet: every program inserts last. */
  predicate NoInserts(w: Writes) {
    w.newMarkets == [] && w.newBets == [] && w.newListings == []
  }

  lemma OverlayStep<T>(s: seq<T>, w: map<nat, T>, i: nat, x: T)
    ensures Overlay(s, w[i := x]) == if i < |s| then Overlay(s, w)[i := x] else Overlay(s, w)
  {
  }

  lemma OverlayOwnersStep(bets: seq<Bet>, w: map<BetId, UserId>, b: BetId, u: UserId)
    ensures OverlayOwners(bets, w[b := u]) ==
      if b < |bets| then OverlayOwners(bets, w)[b := OverlayOwners(bets, w)[b].(owner := u)] else OverlayOwners(bets, w)
  {
  }

  /** What a transaction that has inserted nothing sees. */
  lemma MergeIs(db: Db, w: Writes)
    requires NoInserts(w)
    ensures Merge(db, w) == Db(Overlay(db.balances, w.balances), Overlay(db.markets, w.markets), db.pools + w.pools,
                               OverlayOwners(db.bets, w.owners), Overlay(db.listings, w.listings))
  {
    var owned := OverlayOwners(db.bets, w.owners);
    assert owned + [] + [] == owned;
    assert Overlay(db.markets, w.markets) + [] == Overlay(db.markets, w.markets);
    assert Overlay(db.listings, w.listings) + [] == Overlay(db.listings, w.listings);
    assert db.pools + w.pools + map[] == db.pools + w.pools;
  }

  lemma MergeNothing(db: Db)
    ensures Merge(db, NOTHING) == db
  {
    MergeIs(db, NOTHING);
    assert db.pools + map[] == db.pools;
    assert OverlayOwners(db.bets, map[]) == db.bets;
  }

  lemma MergeBalance(db: Db, w: Writes, u: UserId, value: int)
    requires NoInserts(w)
    ensures Merge(db, w.(balances := w.balances[u := value])) == Effect(Merge(db, w), SetBalance(u, value))
  {
    hide Merge, Overlay, OverlayOwners, ListedOn, WithdrawAll;
    MergeIs(db, w);
    MergeIs(db, w.(balances := w.balances[u := value]));
    OverlayStep(db.balances, w.balances, u, value);
  }

  lemma MergePool(db: Db, w: Writes, k: PoolKey, value: nat)
    requires NoInserts(w)
    ensures var v := Merge(db, w);
      Merge(db, w.(pools := w.pools[k := value])) == v.(pools := v.pools[k := value])
  {
    hide Merge, Overlay, OverlayOwners;
    MergeIs(db, w);
    MergeIs(db, w.(pools := w.pools[k := value]));
    assert db.pools + w.pools[k := value] == (db.pools + w.pools)[k := value];
  }

  lemma OverlayWithdrawn(listings: seq<Listing>, w: map<ListingId, Listing>, m: MarketId)
    ensures var rows := ListedOn(Overlay(listings, w), m);
      Overlay(listings, w + map l | l in rows :: rows[l].(status := Withdrawn)) == WithdrawAll(Overlay(listings, w), m)
  {
    var v := Overlay(listings, w);
    var rows := ListedOn(v, m);
    var after := w + map l | l in rows :: rows[l].(status := Withdrawn);
    hide Overlay, WithdrawAll;
    forall l | 0 <= l < |listings| ensures Overlay(listings, after)[l] == WithdrawAll(v, m)[l] {
      assert l in rows <==> v[l].market == m && v[l].status == Listed;
    }
  }

  lemma MergeWithdrawn(db: Db, w: Writes, m: MarketId)
    requires NoInserts(w)
    ensures var v := Merge(db, w);
      var rows := ListedOn(v.listings, m);
      Merge(db, w.(listings := w.listings + map l | l in rows :: rows[l].(status := Withdrawn))) ==
        v.(listings := WithdrawAll(v.listings, m))
  {
    hide Merge, Overlay, OverlayOwners, ListedOn, WithdrawAll;
    MergeIs(db, w);
    OverlayWithdrawn(db.listings, w.listings, m);
    var rows := ListedOn(Merge(db, w).listings, m);
    MergeIs(db, w.(listings := w.listings + map l | l in rows :: rows[l].(status := Withdrawn)));
  }

  lemma MergeOwner(db: Db, w: Writes, b: BetId, u: UserId)
    requires NoInserts(w)
    ensures Merge(db, w.(owners := w.owners[b := u])) == Effect(Merge(db, w), SetOwner(b, u))
  {
    hide Merge, Overlay, OverlayOwners, ListedOn, WithdrawAll;
    MergeIs(db, w);
    MergeIs(db, w.(owners := w.owners[b := u]));
    OverlayOwnersStep(db.bets, w.owners, b, u);
  }

  lemma MergeListing(db: Db, w: Writes, l: ListingId, row: Listing)
    requires NoInserts(w)
    ensures Merge(db, w.(listings := w.listings[l := row])) == Effect(Merge(db, w), SetListing(l, row))
  {
    hide Merge, Overlay, OverlayOwners, ListedOn, WithdrawAll;
    MergeIs(db, w);
    MergeIs(db, w.(listings := w.listings[l := row]));
    OverlayStep(db.listings, w.listings, l, row);
  }

  lemma MergeMarket(db: Db, w: Writes, m: MarketId, row: Market)
    requires NoInserts(w)
    ensures Merge(db, w.(markets := w.markets[m := row])) == Effect(Merge(db, w), SetMarket(m, row))
  {
    hide Merge, Overlay, OverlayOwners, ListedOn, WithdrawAll;
    MergeIs(db, w);
    MergeIs(db, w.(markets := w.markets[m := row]));
    OverlayStep(db.markets, w.markets, m, row);
  }

  lemma {:induction false} NewRows(m: MarketId, row: Market)
    ensures PoolsOfNew(m, [row]) == SeedPools(m, row.outcomes, Seed(row))
    ensures BetsOfNew(m, [row]) == SeedBets(m, row.outcomes, Seed(row))
  {
    assert [row][..0] == [];
    assert map[] + SeedPools(m, row.outcomes, Seed(row)) == SeedPools(m, row.outcomes, Seed(row));
    assert [] + SeedBets(m, row.outcomes, Seed(row)) == SeedBets(m, row.outcomes, Seed(row));
  }

  lemma MergeNewMarket(db: Db, w: Writes, row: Market)
    requires NoInserts(w) && Storable(row.outcomes) && row.seed >= 0
    ensures Merge(db, w.(newMarkets := w.newMarkets + [row])) == Effect(Merge(db, w), InsertMarket(row))
  {
    hide PoolsOfNew, BetsOfNew, SeedPools, SeedBets, Storable, Overlay, OverlayOwners;
    MergeIs(db, w);
    NewRows(|db.markets|, row);
    assert w.newMarkets + [row] == [row];
    assert OverlayOwners(db.bets, w.owners) + [] == OverlayOwners(db.bets, w.owners);
    assert Overlay(db.listings, w.listings) + [] == Overlay(db.listings, w.listings);
  }

  lemma MergeNewBet(db: Db, w: Writes, row: Bet)
    requires NoInserts(w)
    ensures Merge(db, w.(newBets := w.newBets + [row])) == Effect(Merge(db, w), InsertBet(row))
  {
    hide Overlay, OverlayOwners, PoolsOfNew;
    MergeIs(db, w);
    assert w.newBets + [row] == [row];
    var owned := OverlayOwners(db.bets, w.owners);
    assert owned + [row] + [] == owned + [row];
    assert Overlay(db.listings, w.listings) + [] == Overlay(db.listings, w.listings);
    assert Overlay(db.markets, w.markets) + [] == Overlay(db.markets, w.markets);
    assert db.pools + w.pools + map[] == db.pools + w.pools;
  }

  lemma MergeNewListing(db: Db, w: Writes, row: Listing)
    requires NoInserts(w)
    ensures var v := Merge(db, w);
      Merge(db, w.(newListings := w.newListings + [row])) == v.(listings := v.listings + [row])
  {
    hide Overlay, OverlayOwners, PoolsOfNew;
    MergeIs(db, w);
    assert w.newListings + [row] == [row];
    var owned := OverlayOwners(db.bets, w.owners);
    assert owned + [] + [] == owned;
    assert Overlay(db.markets, w.markets) + [] == Overlay(db.markets, w.markets);
    assert db.pools + w.pools + map[] == db.pools + w.pools;
  }

  /** A statement's row versions change what its transaction sees by exactly the
      statement's effect. */
  lemma MergeStep(db: Db, w: Writes, s: Statement)
    requires NoInserts(w)
    ensures var v := Merge(db, w);
      Merge(db, Write(w, s, Ask(v, s))) == Effect(v, s)
  {
    var v := Merge(db, w);
    hide Merge, Winners, Holders, SeedPools, SeedBets, ListedOn, PoolsOn, HasListed;
    match s
    case SetBalance(u, value) => MergeBalance(db, w, u, value);
    case AddBalance(u, amount) =>
      if u < |v.balances| {
        MergeBalance(db, w, u, v.balances[u] + amount);
      }
    case AddPool(k, amount) =>
      if k in v.pools && v.pools[k] + amount >= 0 {
        MergePool(db, w, k, v.pools[k] + amount);
      }
    case WithdrawListed(m) => MergeWithdrawn(db, w, m);
    case SetOwner(b, u) => MergeOwner(db, w, b, u);
    case SetListing(l, row) => MergeListing(db, w, l, row);
    case SetMarket(m, row) => MergeMarket(db, w, m, row);
    case InsertMarket(row) =>
      if Storable(row.outcomes) && row.seed >= 0 {
        MergeNewMarket(db, w, row);
      }
    case InsertBet(row) => MergeNewBet(db, w, row);
    case InsertListing(row) => MergeNewListing(db, w, row);
    case _ =>
  }

  predicate Inserts(s: Statement) { s.InsertMarket? || s.InsertBet? || s.InsertListing? }

  lemma {:induction false} Start(db: Db, tx: Tx)
    ensures View(db, tx, 0) == db && NoInserts(Written(tx, 0)) && tx.log[..0] == [] && tx.log[..|tx.log|] == tx.log
  {
    MergeNothing(db);
  }

  lemma WriteKeepsNoInserts(w: Writes, s: Statement, reply: Reply)
    requires NoInserts(w) && !Inserts(s)
    ensures NoInserts(Write(w, s, reply))
  {
  }

  /** Bets read are not written. */
  lemma WriteIgnoresOrder(v: Db, w: Writes, s: Statement, reply: Reply)
    requires Answers(v, s, reply)
    ensures Write(w, s, reply) == Write(w, s, Ask(v, s))
  {
  }

  /** One statement of a replayed transaction. */
  lemma Unroll(db: Db, tx: Tx, j: nat)
    requires Replays(db, tx) && j < |tx.log| && NoInserts(Written(tx, j))
    ensures var next := Next(tx.request, tx.log[..j]);
      && next.Run?
      && Answers(View(db, tx, j), next.statement, tx.log[j])
      && View(db, tx, j + 1) == Effect(View(db, tx, j), next.statement)
      && (!Inserts(next.statement) ==> NoInserts(Written(tx, j + 1)))
  {
    hide Next, Ask, Effect, Merge, Answers;
    assert Ran(tx, j);
    MergeStep(db, Written(tx, j), StatementAt(tx, j));
    WriteIgnoresOrder(View(db, tx, j), Written(tx, j), StatementAt(tx, j), tx.log[j]);
    if !Inserts(StatementAt(tx, j)) {
      WriteKeepsNoInserts(Written(tx, j), StatementAt(tx, j), tx.log[j]);
    }
    hide Write;
  }

  lemma StillRunning(db: Db, tx: Tx, j: nat)
    requires Replays(db, tx) && j < |tx.log|
    ensures Next(tx.request, tx.log[..j]).Run?
  {
    assert Ran(tx, j);
  }

  /** Where a program stands agrees with the transaction it implements, `v`
      being the database with its row versions. */
  predicate Agrees(action: Action, result: TxResult, v: Db) {
    match action
    case Run(_) => true
    case Commit => result == Committed(v)
    case Abort(error) => result == RolledBack(error)
  }

  /** The database before each statement of a script, and after the last. */
  function Views(db: Db, script: seq<Statement>): (views: seq<Db>)
    ensures |views| == |script| + 1 && views[0] == db
    ensures forall j :: 0 <= j < |script| ==> views[j + 1] == Effect(views[j], script[j])
  {
    if |script| == 0 then [db]
    else
      var n := |script| - 1;
      var views := Views(db, script[..n]);
      views + [Effect(views[n], script[n])]
  }

  /** The transaction has run the first statements of this script. */
  predicate Follows(tx: Tx, script: seq<Statement>) {
    && |tx.log| <= |script|
    && (forall j :: 0 <= j < |tx.log| ==> Next(tx.request, tx.log[..j]) == Run(script[j]))
    && (forall j :: 0 <= j < |script| - 1 ==> !Inserts(script[j]))
  }

  /** Its replies are the ones those statements get, one after another. */
  lemma {:induction false} ScriptReplies(db: Db, tx: Tx, script: seq<Statement>, n: nat)
    requires Replays(db, tx) && Follows(tx, script) && n <= |tx.log|
    ensures |tx.log| <= |script|
    ensures View(db, tx, n) == Views(db, script)[n]
    ensures forall j :: 0 <= j < n ==> Answers(Views(db, script)[j], script[j], tx.log[j])
    ensures (n > 0 ==> !Inserts(script[n - 1])) ==> NoInserts(Written(tx, n))
  {
    hide Next, Replays, Written, View, NoInserts, Answers, Effect, Views, Inserts;
    if n == 0 {
      Start(db, tx);
    } else {
      ScriptReplies(db, tx, script, n - 1);
      Unroll(db, tx, n - 1);
    }
  }

  function PlaceBetScript(r: Request): seq<Statement>
    requires r.PlaceBet?
  {
    [LockMarketRow(r.market, Share), LockUserRow(r.user), AddBalance(r.user, 0 - r.stake),
     AddPool(PoolKey(r.market, r.outcome), r.stake), InsertBet(Bet(r.market, r.user, r.user, r.outcome, r.stake))]
  }

  lemma PlaceBetFollows(db: Db, tx: Tx)
    requires tx.request.PlaceBet? && Replays(db, tx)
    ensures Follows(tx, PlaceBetScript(tx.request))
  {
    hide Replays;
    if |tx.log| > 5 { StillRunning(db, tx, 5); }
    forall j | 0 <= j < |tx.log| ensures j < 5 && Next(tx.request, tx.log[..j]) == Run(PlaceBetScript(tx.request)[j]) {
      StillRunning(db, tx, j);
    }
  }

  lemma {:induction false} PlaceBetViews(db: Db, r: Request)
    requires r.PlaceBet?
    ensures var script, views := PlaceBetScript(r), Views(db, PlaceBetScript(r));
      && views[0] == views[1] == views[2] == db
      && views[3] == Effect(db, script[2])
      && views[4] == Effect(views[3], script[3])
      && views[5] == Effect(views[4], script[4])
  {
    hide Views;
    var script, views := PlaceBetScript(r), Views(db, PlaceBetScript(r));
    assert views[1] == Effect(db, script[0]);
    assert views[2] == Effect(views[1], script[1]);
  }

  lemma {:induction false} PlaceBetOutcome(db: Db, r: Request, log: seq<Reply>)
    requires BalancesOk(db) && r.PlaceBet? && |log| <= 5
    requires var script, views := PlaceBetScript(r), Views(db, PlaceBetScript(r));
      forall j :: 0 <= j < |log| ==> Answers(views[j], script[j], log[j])
    ensures Agrees(NextPlaceBet(r.user, r.market, r.outcome, r.stake, log),
                   PlaceBetTx(db, r.user, r.market, r.outcome, r.stake), Views(db, PlaceBetScript(r))[|log|])
  {
    hide Views;
    PlaceBetViews(db, r);
  }

  lemma PlaceBetFinishes(db: Db, tx: Tx)
    requires BalancesOk(db) && tx.request.PlaceBet? && Replays(db, tx)
    ensures var r := tx.request;
      Agrees(NextPlaceBet(r.user, r.market, r.outcome, r.stake, tx.log),
             PlaceBetTx(db, r.user, r.market, r.outcome, r.stake), View(db, tx, |tx.log|))
  {
    hide Next, NextPlaceBet, PlaceBetTx, Agrees, BalancesOk, Replays, Views, View, Follows, Written;
    PlaceBetFollows(db, tx);
    ScriptReplies(db, tx, PlaceBetScript(tx.request), |tx.log|);
    PlaceBetOutcome(db, tx.request, tx.log);
  }

  // ---------------------------------------------------------- the short programs

  function MarketRead(log: seq<Reply>): Market {
    if |log| > 0 && log[0].MarketIs? && log[0].market.Some? then log[0].market.value else Market("", [], Open, 0, None)
  }

  function LockMarketScript(r: Request, log: seq<Reply>): seq<Statement>
    requires r.LockMarket?
  {
    [LockMarketRow(r.market, Update), WithdrawListed(r.market),
     SetMarket(r.market, MarketRead(log).(status := Locked))]
  }

  lemma LockMarketFollows(db: Db, tx: Tx)
    requires tx.request.LockMarket? && Replays(db, tx)
    ensures Follows(tx, LockMarketScript(tx.request, tx.log))
  {
    hide Replays;
    if |tx.log| > 3 { StillRunning(db, tx, 3); }
    forall j | 0 <= j < |tx.log|
      ensures j < 3 && Next(tx.request, tx.log[..j]) == Run(LockMarketScript(tx.request, tx.log)[j])
    {
      StillRunning(db, tx, j);
    }
  }

  lemma LockMarketFinishes(db: Db, tx: Tx)
    requires tx.request.LockMarket? && Replays(db, tx)
    ensures var r := tx.request;
      Agrees(NextLockMarket(r.market, tx.log), LockMarketTx(db, r.market), View(db, tx, |tx.log|))
  {
    hide Next, Replays, View, Views, Follows, Written, Merge;
    LockMarketFollows(db, tx);
    var script := LockMarketScript(tx.request, tx.log);
    ScriptReplies(db, tx, script, |tx.log|);
    var views := Views(db, script);
    assert views[1] == Effect(db, script[0]) == db;
    assert views[2] == Effect(db, script[1]);
    assert views[3] == Effect(views[2], script[2]);
  }

  function AdjustScript(r: Request, log: seq<Reply>): seq<Statement>
    requires r.AdjustBalance?
  {
    var read := |log| > 0 && log[0].ValueIs? && log[0].value.Some?;
    [LockUserRow(r.user), SetBalance(r.user, if read then Wrap(log[0].value.value + r.delta) else 0)]
  }

  lemma AdjustFollows(db: Db, tx: Tx)
    requires tx.request.AdjustBalance? && Replays(db, tx)
    ensures Follows(tx, AdjustScript(tx.request, tx.log))
  {
    hide Replays;
    if |tx.log| > 2 { StillRunning(db, tx, 2); }
    forall j | 0 <= j < |tx.log|
      ensures j < 2 && Next(tx.request, tx.log[..j]) == Run(AdjustScript(tx.request, tx.log)[j])
    {
      StillRunning(db, tx, j);
    }
  }

  lemma AdjustFinishes(db: Db, tx: Tx)
    requires tx.request.AdjustBalance? && Replays(db, tx)
    ensures var r := tx.request;
      Agrees(NextAdjustBalance(r.user, r.delta, tx.log), AdjustBalanceTx(db, r.user, r.delta), View(db, tx, |tx.log|))
  {
    hide Next, Replays, View, Views, Follows, Written, Merge, Wrap;
    AdjustFollows(db, tx);
    var script := AdjustScript(tx.request, tx.log);
    ScriptReplies(db, tx, script, |tx.log|);
    var views := Views(db, script);
    assert views[1] == Effect(db, script[0]) == db;
    assert views[2] == Effect(db, script[1]);
  }

  function ListingRead(log: seq<Reply>, j: nat): Listing {
    if j < |log| && log[j].ListingIs? && log[j].listing.Some? then log[j].listing.value
    else Listing(0, 0, 0, None, 0, Listed)
  }

  function WithdrawScript(l: ListingId, log: seq<Reply>): seq<Statement> {
    [LockListingRow(l), SetListing(l, ListingRead(log, 0).(status := Withdrawn))]
  }

  lemma WithdrawFollows(db: Db, tx: Tx)
    requires (tx.request.CancelListing? || tx.request.InvalidateListing?) && Replays(db, tx)
    ensures Follows(tx, WithdrawScript(tx.request.listing, tx.log))
    ensures |tx.log| == 2 ==> ListingRead(tx.log, 0).status == Listed
  {
    hide Replays;
    if |tx.log| > 2 { StillRunning(db, tx, 2); }
    if |tx.log| == 2 { StillRunning(db, tx, 1); }
    forall j | 0 <= j < |tx.log|
      ensures j < 2 && Next(tx.request, tx.log[..j]) == Run(WithdrawScript(tx.request.listing, tx.log)[j])
    {
      StillRunning(db, tx, j);
    }
  }

  lemma WithdrawFinishes(db: Db, tx: Tx)
    requires (tx.request.CancelListing? || tx.request.InvalidateListing?) && Replays(db, tx)
    ensures var r := tx.request; r.CancelListing? ==>
      Agrees(NextCancelListing(r.listing, r.seller, tx.log), CancelListingTx(db, r.listing, r.seller),
             View(db, tx, |tx.log|))
    ensures var r := tx.request; r.InvalidateListing? ==>
      Agrees(NextInvalidateListing(r.listing, tx.log), InvalidateListingTx(db, r.listing), View(db, tx, |tx.log|))
  {
    hide Next, Replays, View, Views, Follows, Written, Merge;
    WithdrawFollows(db, tx);
    var script := WithdrawScript(tx.request.listing, tx.log);
    ScriptReplies(db, tx, script, |tx.log|);
    var views := Views(db, script);
    assert views[1] == Effect(db, script[0]) == db;
    assert views[2] == Effect(db, script[1]);
  }

  function MarketIdRead(log: seq<Reply>): MarketId {
    if |log| > 0 && log[0].MarketId? && log[0].id.Some? then log[0].id.value else 0
  }

  function ListBetScript(r: Request, log: seq<Reply>): seq<Statement>
    requires r.ListBet?
  {
    [FindBetMarket(r.bet), LockMarketRow(MarketIdRead(log), Share), LockBetRow(r.bet),
     InsertListing(Listing(r.bet, MarketIdRead(log), r.seller, None, r.price, Listed))]
  }

  lemma ListBetFollows(db: Db, tx: Tx)
    requires tx.request.ListBet? && Replays(db, tx)
    ensures Follows(tx, ListBetScript(tx.request, tx.log))
  {
    hide Replays;
    if |tx.log| > 4 { StillRunning(db, tx, 4); }
    forall j | 0 <= j < |tx.log|
      ensures j < 4 && Next(tx.request, tx.log[..j]) == Run(ListBetScript(tx.request, tx.log)[j])
    {
      StillRunning(db, tx, j);
    }
  }

  lemma {:induction false} ListBetViews(db: Db, r: Request, log: seq<Reply>)
    requires r.ListBet?
    ensures var script, views := ListBetScript(r, log), Views(db, ListBetScript(r, log));
      views[0] == views[1] == views[2] == views[3] == db && views[4] == Effect(db, script[3])
  {
    hide Views;
    var script, views := ListBetScript(r, log), Views(db, ListBetScript(r, log));
    assert views[1] == Effect(db, script[0]);
    assert views[2] == Effect(views[1], script[1]);
    assert views[3] == Effect(views[2], script[2]);
  }

  lemma ListBetFinishes(db: Db, tx: Tx)
    requires tx.request.ListBet? && Replays(db, tx)
    ensures var r := tx.request;
      Agrees(NextListBet(r.bet, r.seller, r.price, tx.log), ListBetTx(db, r.bet, r.seller, r.price),
             View(db, tx, |tx.log|))
  {
    hide Next, Replays, View, Views, Follows, Written, Merge, HasListed;
    ListBetFollows(db, tx);
    var script := ListBetScript(tx.request, tx.log);
    ScriptReplies(db, tx, script, |tx.log|);
    ListBetViews(db, tx.request, tx.log);
  }

  // ------------------------------------------------------------------ BuyListedBet

  function BuyBetScript(r: Request, log: seq<Reply>): seq<Statement>
    requires r.BuyBet?
  {
    var listing := ListingRead(log, 2);
    var buyerFirst := r.buyer < listing.seller;
    [FindListingMarket(r.listing), LockMarketRow(MarketIdRead(log), Share),
     LockListingRow(r.listing), LockBetRow(listing.bet),
     LockUserRow(if buyerFirst then r.buyer else listing.seller),
     LockUserRow(if buyerFirst then listing.seller else r.buyer),
     AddBalance(r.buyer, -listing.price), AddBalance(listing.seller, listing.price), SetOwner(listing.bet, r.buyer),
     SetListing(r.listing, listing.(status := Sold, buyer := Some(r.buyer)))]
  }

  lemma BuyBetFollows(db: Db, tx: Tx)
    requires tx.request.BuyBet? && Replays(db, tx)
    ensures Follows(tx, BuyBetScript(tx.request, tx.log))
  {
    hide Replays, Inserts;
    if |tx.log| > 10 { StillRunning(db, tx, 10); }
    forall j | 0 <= j < |tx.log|
      ensures j < 10 && Next(tx.request, tx.log[..j]) == Run(BuyBetScript(tx.request, tx.log)[j])
    {
      StillRunning(db, tx, j);
    }
    NoInsertsToBuy(tx.request, tx.log);
  }

  lemma NoInsertsToBuy(r: Request, log: seq<Reply>)
    requires r.BuyBet?
    ensures forall s :: s in BuyBetScript(r, log) ==> !Inserts(s)
  {
  }

  /** The locks and checks leave the view alone; then one change at a time. */
  lemma {:induction false} BuyBetViews(db: Db, r: Request, log: seq<Reply>)
    requires r.BuyBet?
    ensures var script, views := BuyBetScript(r, log), Views(db, BuyBetScript(r, log));
      && (forall j :: 0 <= j <= 6 ==> views[j] == db)
      && views[7] == Effect(db, script[6])
      && views[8] == Effect(views[7], script[7])
      && views[9] == Effect(views[8], script[8])
      && views[10] == Effect(views[9], script[9])
  {
    hide Views;
    var script, views := BuyBetScript(r, log), Views(db, BuyBetScript(r, log));
    assert views[1] == Effect(db, script[0]);
    assert views[2] == Effect(views[1], script[1]);
    assert views[3] == Effect(views[2], script[2]);
    assert views[4] == Effect(views[3], script[3]);
    assert views[5] == Effect(views[4], script[4]);
    assert views[6] == Effect(views[5], script[5]);
  }

  /** Everything BuyListedBet checks before it locks the two users. */
  predicate Buyable(db: Db, l: ListingId, buyer: UserId) {
    && l < |db.listings|
    && var listing := db.listings[l];
      && listing.market < |db.markets| && db.markets[listing.market].status == Open
      && listing.status == Listed && listing.seller != buyer
      && listing.bet < |db.bets| && db.bets[listing.bet].owner == listing.seller
  }

  lemma BuyBetChecks(db: Db, r: Request, log: seq<Reply>)
    requires r.BuyBet?
    requires forall j :: 0 <= j < 4 && j < |log| ==> log[j] == Ask(db, BuyBetScript(r, log)[j])
    ensures var next := NextBuyBet(r.listing, r.buyer, log);
      next.Run? ||
      (next.Abort? && BuyBetTx(db, r.listing, r.buyer) == RolledBack(next.error)) ||
      (|log| >= 4 && Buyable(db, r.listing, r.buyer))
    ensures |log| >= 4 && NextBuyBet(r.listing, r.buyer, log).Run? ==> Buyable(db, r.listing, r.buyer)
    ensures |log| >= 4 && Buyable(db, r.listing, r.buyer) ==>
      ListingRead(log, 2) == db.listings[r.listing] &&
      NextBuyBet(r.listing, r.buyer, log) == NextBuyUsers(r.listing, db.listings[r.listing], r.buyer, log)
  {
    hide NextBuyUsers;
  }

  /** The two balances a purchase reads and the two it writes. */
  lemma {:induction false} BuyBetMoney(db: Db, r: Request, log: seq<Reply>)
    requires r.BuyBet?
    ensures var script, views := BuyBetScript(r, log), Views(db, BuyBetScript(r, log));
      var listing := ListingRead(log, 2);
      var first := if r.buyer < listing.seller then r.buyer else listing.seller;
      var second := if r.buyer < listing.seller then listing.seller else r.buyer;
      && Ask(views[4], script[4]) == ValueIs(Get(db.balances, first))
      && Ask(views[5], script[5]) == ValueIs(Get(db.balances, second))
      && Ask(views[6], script[6]) == Ask(db, AddBalance(r.buyer, -listing.price))
      && views[7] == Effect(db, AddBalance(r.buyer, -listing.price))
      && Ask(views[7], script[7]) == Ask(views[7], AddBalance(listing.seller, listing.price))
      && views[8] == Effect(views[7], AddBalance(listing.seller, listing.price))
  {
    hide Views, ListingRead, MarketIdRead;
    BuyBetViews(db, r, log);
  }

  lemma {:induction false} BuyBetLast(db: Db, r: Request, log: seq<Reply>)
    requires r.BuyBet?
    ensures var views := Views(db, BuyBetScript(r, log));
      var listing := ListingRead(log, 2);
      && views[9] == Effect(views[8], SetOwner(listing.bet, r.buyer))
      && views[10] == Effect(views[9], SetListing(r.listing, listing.(status := Sold, buyer := Some(r.buyer))))
  {
    hide Views, ListingRead, MarketIdRead, Effect;
    BuyBetViews(db, r, log);
  }

  predicate Affordable(db: Db, l: ListingId, buyer: UserId)
    requires l < |db.listings|
  {
    var listing := db.listings[l];
    buyer < |db.balances| && listing.seller < |db.balances| && db.balances[buyer] >= listing.price
  }

  lemma BuyUsersChecks(db: Db, l: ListingId, buyer: UserId, log: seq<Reply>)
    requires Buyable(db, l, buyer) && |log| >= 4
    requires var seller := db.listings[l].seller;
      && (|log| > 4 ==> log[4] == ValueIs(Get(db.balances, if buyer < seller then buyer else seller)))
      && (|log| > 5 ==> log[5] == ValueIs(Get(db.balances, if buyer < seller then seller else buyer)))
    ensures var next := NextBuyUsers(l, db.listings[l], buyer, log);
      next.Run? ||
      (next.Abort? && BuyBetTx(db, l, buyer) == RolledBack(next.error)) ||
      (|log| > 6 && Affordable(db, l, buyer))
  {
  }

  /** The four changes of a purchase, in order, amount to the transaction's one. */
  lemma PurchaseEffects(db: Db, l: ListingId, buyer: UserId)
    requires BalancesOk(db) && Buyable(db, l, buyer) && Affordable(db, l, buyer) && db.listings[l].price > 0
    ensures var listing := db.listings[l];
      var debit, credit := AddBalance(buyer, -listing.price), AddBalance(listing.seller, listing.price);
      var paid := Effect(Effect(db, debit), credit);
      var owned := Effect(paid, SetOwner(listing.bet, buyer));
      var sold := Effect(owned, SetListing(l, listing.(status := Sold, buyer := Some(buyer))));
      && Ask(db, debit) != Failed
      && BuyBetTx(db, l, buyer) ==
           (if Ask(Effect(db, debit), credit) == Failed then RolledBack(OutOfRange) else Committed(sold))
  {
    hide NextBuyUsers;
  }

  lemma {:induction false} BuyUsersMoves(db: Db, r: Request, log: seq<Reply>)
    requires BalancesOk(db) && r.BuyBet? && Buyable(db, r.listing, r.buyer) && Affordable(db, r.listing, r.buyer)
    requires db.listings[r.listing].price > 0 && 6 < |log| <= 10 && ListingRead(log, 2) == db.listings[r.listing]
    requires |BuyBetScript(r, log)| == 10
    requires var script, views := BuyBetScript(r, log), Views(db, BuyBetScript(r, log));
      forall j :: 4 <= j < |log| ==> Answers(views[j], script[j], log[j])
    ensures Agrees(NextBuyUsers(r.listing, db.listings[r.listing], r.buyer, log), BuyBetTx(db, r.listing, r.buyer),
                   Views(db, BuyBetScript(r, log))[|log|])
  {
    hide Views, ListingRead, BuyBetScript, Effect, Ask, BuyBetTx, Buyable, BalancesOk;
    BuyBetMoney(db, r, log);
    BuyBetLast(db, r, log);
    PurchaseEffects(db, r.listing, r.buyer);
  }

  lemma {:induction false} BuyUsersOutcome(db: Db, r: Request, log: seq<Reply>)
    requires BalancesOk(db) && r.BuyBet? && 4 <= |log| <= 10 && Buyable(db, r.listing, r.buyer)
    requires db.listings[r.listing].price > 0 && ListingRead(log, 2) == db.listings[r.listing]
    requires |BuyBetScript(r, log)| == 10
    requires var script, views := BuyBetScript(r, log), Views(db, BuyBetScript(r, log));
      forall j :: 4 <= j < |log| ==> Answers(views[j], script[j], log[j])
    ensures Agrees(NextBuyUsers(r.listing, db.listings[r.listing], r.buyer, log), BuyBetTx(db, r.listing, r.buyer),
                   Views(db, BuyBetScript(r, log))[|log|])
  {
    hide Views, ListingRead, BuyBetScript, NextBuyUsers, Effect, BuyBetTx, BalancesOk, Ask;
    BuyBetMoney(db, r, log);
    BuyUsersChecks(db, r.listing, r.buyer, log);
    if |log| > 6 && Affordable(db, r.listing, r.buyer) {
      BuyUsersMoves(db, r, log);
    }
  }

  lemma {:induction false} BuyBetOutcome(db: Db, r: Request, log: seq<Reply>)
    requires BalancesOk(db) && r.BuyBet? && |log| <= 10
    requires r.listing < |db.listings| ==> db.listings[r.listing].price > 0
    requires var script, views := BuyBetScript(r, log), Views(db, BuyBetScript(r, log));
      forall j :: 0 <= j < |log| ==> Answers(views[j], script[j], log[j])
    ensures Agrees(NextBuyBet(r.listing, r.buyer, log), BuyBetTx(db, r.listing, r.buyer),
                   Views(db, BuyBetScript(r, log))[|log|])
  {
    hide Views, Ask, Effect, NextBuyBet, NextBuyUsers, BuyBetTx, BalancesOk, ListingRead;
    BuyBetViews(db, r, log);
    BuyBetChecks(db, r, log);
    if |log| >= 4 && Buyable(db, r.listing, r.buyer) {
      BuyUsersOutcome(db, r, log);
    }
  }

  lemma BuyBetFinishes(db: Db, tx: Tx)
    requires Valid(db) && tx.request.BuyBet? && Replays(db, tx)
    ensures var r := tx.request;
      Agrees(NextBuyBet(r.listing, r.buyer, tx.log), BuyBetTx(db, r.listing, r.buyer), View(db, tx, |tx.log|))
  {
    hide Next, NextBuyBet, BuyBetTx, Agrees, Replays, Views, View, Follows, Written;
    BuyBetFollows(db, tx);
    ScriptReplies(db, tx, BuyBetScript(tx.request, tx.log), |tx.log|);
    assert tx.request.listing < |db.listings| ==> ListingOk(db, db.listings[tx.request.listing]);
    BuyBetOutcome(db, tx.request, tx.log);
  }

  // ------------------------------------------------------------------ CreateMarket

  function CreateMarketScript(r: Request): seq<Statement>
    requires r.CreateMarket?
  {
    var debit := SeedDebit(r.seed, |r.outcomes|);
    var row := Market(r.question, r.outcomes, Open, r.seed, None);
    if debit > 0 then [LockUserRow(HOUSE), AddBalance(HOUSE, 0 - debit), InsertMarket(row)] else [InsertMarket(row)]
  }

  lemma CreateMarketFollows(db: Db, tx: Tx)
    requires tx.request.CreateMarket? && Replays(db, tx)
    ensures Follows(tx, CreateMarketScript(tx.request))
  {
    hide Replays, SeedDebit;
    var n := |CreateMarketScript(tx.request)|;
    if |tx.log| > n { StillRunning(db, tx, n); }
    forall j | 0 <= j < |tx.log|
      ensures j < n && Next(tx.request, tx.log[..j]) == Run(CreateMarketScript(tx.request)[j])
    {
      StillRunning(db, tx, j);
    }
  }

  lemma {:induction false} CreateMarketViews(db: Db, r: Request)
    requires r.CreateMarket?
    ensures var script, views := CreateMarketScript(r), Views(db, CreateMarketScript(r));
      && views[0] == db
      && views[1] == Effect(db, script[0])
      && (|script| == 3 ==> views[2] == Effect(views[1], script[1]) && views[3] == Effect(views[2], script[2]))
  {
    hide Views, SeedDebit;
  }

  lemma {:induction false} CreateMarketOutcome(db: Db, r: Request, log: seq<Reply>)
    requires BalancesOk(db) && r.CreateMarket? && |log| <= |CreateMarketScript(r)|
    requires var script, views := CreateMarketScript(r), Views(db, CreateMarketScript(r));
      forall j :: 0 <= j < |log| ==> Answers(views[j], script[j], log[j])
    ensures Agrees(NextCreateMarket(r.question, r.outcomes, r.seed, log),
                   CreateMarketTx(db, r.question, r.outcomes, r.seed), Views(db, CreateMarketScript(r))[|log|])
  {
    hide Views, SeedPools, SeedBets, SeedDebit, Storable;
    CreateMarketViews(db, r);
  }

  lemma CreateMarketFinishes(db: Db, tx: Tx)
    requires BalancesOk(db) && tx.request.CreateMarket? && Replays(db, tx)
    ensures var r := tx.request;
      Agrees(NextCreateMarket(r.question, r.outcomes, r.seed, tx.log),
             CreateMarketTx(db, r.question, r.outcomes, r.seed), View(db, tx, |tx.log|))
  {
    hide *;
    CreateMarketFollows(db, tx);
    ScriptReplies(db, tx, CreateMarketScript(tx.request), |tx.log|);
    CreateMarketOutcome(db, tx.request, tx.log);
  }

  // ------------------------------------------------- ResolveMarket and its refund

  function CreditStatement(c: Credit): Statement { AddBalance(c.user, c.amount) }

  lemma {:induction false} EmptyCredits(balances: seq<int>)
    ensures Post(balances, []) == balances && Postable(balances, [])
  {
  }

  /** From `from` on, the script makes these credits and one last statement. */
  predicate PaysThen(script: seq<Statement>, from: nat, credits: seq<Credit>, last: Statement) {
    && |script| == from + |credits| + 1
    && (forall j :: from <= j < |script| - 1 ==> script[j] == CreditStatement(credits[j - from]))
    && script[|script| - 1] == last
  }

  /** The first `i` credits have been applied. */
  lemma {:induction false} CreditViews(db: Db, script: seq<Statement>, from: nat, credits: seq<Credit>,
      last: Statement, i: nat)
    requires PaysThen(script, from, credits, last) && i <= |credits|
    requires forall j :: from <= j < from + i ==> Ask(Views(db, script)[j], script[j]) != Failed
    ensures var v := Views(db, script)[from];
      && Views(db, script)[from + i] == v.(balances := Post(v.balances, credits[..i]))
      && Postable(v.balances, credits[..i])
  {
    hide Postable, Post, Views;
    var v, views := Views(db, script)[from], Views(db, script);
    if i == 0 {
      assert credits[..0] == [];
      EmptyCredits(v.balances);
    } else {
      CreditViews(db, script, from, credits, last, i - 1);
      PostStep(v.balances, credits, i - 1);
      var j := from + i - 1;
      assert views[j + 1] == Effect(views[j], script[j]);
      assert Ask(views[j], script[j]) != Failed;
    }
  }

  lemma {:induction false} CreditFails(db: Db, script: seq<Statement>, from: nat, credits: seq<Credit>,
      last: Statement, i: nat)
    requires PaysThen(script, from, credits, last) && i < |credits|
    requires forall j :: from <= j < from + i ==> Ask(Views(db, script)[j], script[j]) != Failed
    requires Ask(Views(db, script)[from + i], script[from + i]) == Failed
    ensures !Postable(Views(db, script)[from].balances, credits)
  {
    hide Postable, Post, Views;
    CreditViews(db, script, from, credits, last, i);
    PostStep(Views(db, script)[from].balances, credits, i);
  }

  lemma {:induction false} CreditsSucceed(db: Db, script: seq<Statement>, from: nat, credits: seq<Credit>,
      m: MarketId, row: Market)
    requires PaysThen(script, from, credits, SetMarket(m, row)) && m < |Views(db, script)[from].markets|
    requires forall j :: from <= j < from + |credits| ==> Ask(Views(db, script)[j], script[j]) != Failed
    ensures var v := Views(db, script)[from];
      Postable(v.balances, credits) &&
      Views(db, script)[|script|] == v.(balances := Post(v.balances, credits), markets := v.markets[m := row])
  {
    hide Postable, Post, Views;
    CreditViews(db, script, from, credits, SetMarket(m, row), |credits|);
    assert credits[..|credits|] == credits;
    var n := |script| - 1;
    assert Views(db, script)[n + 1] == Effect(Views(db, script)[n], script[n]);
  }

  /** What NextCredit does tells whether the credits could all be posted. */
  lemma {:induction false} CreditsOutcome(db: Db, script: seq<Statement>, log: seq<Reply>, from: nat,
      credits: seq<Credit>, m: MarketId, row: Market)
    requires from <= |log| <= |script| && PaysThen(script, from, credits, SetMarket(m, row))
    requires m < |Views(db, script)[from].markets|
    requires forall j :: from <= j < |log| ==> Answers(Views(db, script)[j], script[j], log[j])
    requires forall j :: from <= j < |log| - 1 ==> log[j] != Failed
    ensures var action, v := NextCredit(credits, m, row, log, from), Views(db, script)[from];
      && (action.Abort? ==> (action.error == OutOfRange && !Postable(v.balances, credits)))
      && (action.Commit? ==> (Postable(v.balances, credits) &&
            Views(db, script)[|log|] == v.(balances := Post(v.balances, credits), markets := v.markets[m := row])))
  {
    hide Postable, Post, Views, Effect;
    var action := NextCredit(credits, m, row, log, from);
    if action.Abort? {
      var i := |log| - 1 - from;
      assert log[|log| - 1] == Failed;
      CreditFails(db, script, from, credits, SetMarket(m, row), i);
    } else if action.Commit? {
      CreditsSucceed(db, script, from, credits, m, row);
    }
  }

  function CreditStatements(credits: seq<Credit>): (ss: seq<Statement>)
    ensures |ss| == |credits| && forall i :: 0 <= i < |ss| ==> ss[i] == CreditStatement(credits[i])
  {
    Map(credits, CreditStatement)
  }

  function RefundCreditsRead(log: seq<Reply>): seq<Credit> {
    if |log| > 2 && log[2].HoldingsAre? then Refunds(log[2].holdings) else []
  }

  function RefundScript(r: Request, log: seq<Reply>): seq<Statement>
    requires r.RefundMarket?
  {
    [LockMarketRow(r.market, Update), WithdrawListed(r.market), ReadHolders(r.market)]
    + CreditStatements(RefundCreditsRead(log)) + [SetMarket(r.market, MarketRead(log).(status := Cancelled))]
  }

  lemma RefundStatement(r: Request, log: seq<Reply>, j: nat)
    requires r.RefundMarket? && j <= |log| && NextRefundMarket(r.market, log[..j]).Run?
    ensures j < |RefundScript(r, log)| && NextRefundMarket(r.market, log[..j]) == Run(RefundScript(r, log)[j])
    ensures forall i :: 3 <= i < j ==> log[i] != Failed
  {
    hide Refunds;
    if j > 2 {
      assert log[..j][0] == log[0] && log[..j][2] == log[2];
    }
  }

  lemma RefundFollows(db: Db, tx: Tx)
    requires tx.request.RefundMarket? && Replays(db, tx)
    ensures Follows(tx, RefundScript(tx.request, tx.log))
    ensures forall j :: 3 <= j < |tx.log| - 1 ==> tx.log[j] != Failed
  {
    hide Replays, NextRefundMarket, RefundCreditsRead;
    var r, script := tx.request, RefundScript(tx.request, tx.log);
    forall j | 0 <= j < |tx.log|
      ensures j < |script| && Next(r, tx.log[..j]) == Run(script[j])
      ensures forall i :: 3 <= i < j ==> tx.log[i] != Failed
    {
      StillRunning(db, tx, j);
      RefundStatement(r, tx.log, j);
    }
    if |tx.log| > 0 {
      StillRunning(db, tx, |tx.log| - 1);
      RefundStatement(r, tx.log, |tx.log| - 1);
    }
  }

  function ResolveCreditsRead(r: Request, log: seq<Reply>): seq<Credit>
    requires r.ResolveMarket?
  {
    var k := PoolKey(r.market, r.outcome);
    if |log| > 3 && log[2].PoolsAre? && log[3].HoldingsAre? && PoolOf(log[2].pools, k) > 0 then
      SettlementCredits(TotalRead(log[2].pools, r.market, MarketRead(log).outcomes), PoolOf(log[2].pools, k),
          log[3].holdings)
    else []
  }

  function ResolveScript(r: Request, log: seq<Reply>): seq<Statement>
    requires r.ResolveMarket?
  {
    [LockMarketRow(r.market, Update), WithdrawListed(r.market), ReadPools(r.market), ReadWinners(r.market, r.outcome)]
    + CreditStatements(ResolveCreditsRead(r, log))
    + [SetMarket(r.market, MarketRead(log).(status := Resolved, winner := Some(r.outcome)))]
  }

  lemma ResolveStatement(r: Request, log: seq<Reply>, j: nat)
    requires r.ResolveMarket? && j <= |log| && NextResolveMarket(r.market, r.outcome, log[..j]).Run?
    ensures j < |ResolveScript(r, log)|
    ensures NextResolveMarket(r.market, r.outcome, log[..j]) == Run(ResolveScript(r, log)[j])
    ensures forall i :: 4 <= i < j ==> log[i] != Failed
  {
    hide SettlementCredits, TotalRead;
    if j > 3 {
      assert log[..j][0] == log[0] && log[..j][2] == log[2] && log[..j][3] == log[3];
    }
  }

  lemma ResolveFollows(db: Db, tx: Tx)
    requires tx.request.ResolveMarket? && Replays(db, tx)
    ensures Follows(tx, ResolveScript(tx.request, tx.log))
    ensures forall j :: 4 <= j < |tx.log| - 1 ==> tx.log[j] != Failed
  {
    hide Replays, NextResolveMarket, ResolveCreditsRead;
    var r, script := tx.request, ResolveScript(tx.request, tx.log);
    forall j | 0 <= j < |tx.log|
      ensures j < |script| && Next(r, tx.log[..j]) == Run(script[j])
      ensures forall i :: 4 <= i < j ==> tx.log[i] != Failed
    {
      StillRunning(db, tx, j);
      ResolveStatement(r, tx.log, j);
    }
    if |tx.log| > 0 {
      StillRunning(db, tx, |tx.log| - 1);
      ResolveStatement(r, tx.log, |tx.log| - 1);
    }
  }

  lemma {:induction false} RefundViews(db: Db, r: Request, log: seq<Reply>)
    requires r.RefundMarket?
    ensures var script, views := RefundScript(r, log), Views(db, RefundScript(r, log));
      var v := db.(listings := WithdrawAll(db.listings, r.market));
      && script[0] == LockMarketRow(r.market, Update) && script[1] == WithdrawListed(r.market) &&
          script[2] == ReadHolders(r.market)
      && views[0] == views[1] == db && views[2] == views[3] == v
      && PaysThen(script, 3, RefundCreditsRead(log), SetMarket(r.market, MarketRead(log).(status := Cancelled)))
  {
    hide Views, RefundCreditsRead, WithdrawAll;
    var script, views := RefundScript(r, log), Views(db, RefundScript(r, log));
    assert views[1] == Effect(db, script[0]);
    assert views[2] == Effect(views[1], script[1]);
    assert views[3] == Effect(views[2], script[2]);
  }

  lemma {:induction false} RefundOutcome(db: Db, r: Request, log: seq<Reply>)
    requires Valid(db) && r.RefundMarket? && |log| <= |RefundScript(r, log)|
    requires var script, views := RefundScript(r, log), Views(db, RefundScript(r, log));
      forall j :: 0 <= j < |log| ==> Answers(views[j], script[j], log[j])
    requires forall j :: 3 <= j < |log| - 1 ==> log[j] != Failed
    ensures Agrees(NextRefundMarket(r.market, log), RefundMarketTx(db, r.market),
                   Views(db, RefundScript(r, log))[|log|])
  {
    hide Valid, Views, WithdrawAll, Refunds, Post, Postable, RefundScript, Holders, NextCredit, Effect, PaysThen;
    RefundViews(db, r, log);
    if |log| >= 3 && r.market < |db.markets| {
      RefundFacts(db, r.market, log[2].holdings);
      CreditsOutcome(db, RefundScript(r, log), log, 3, RefundCreditsRead(log), r.market,
          MarketRead(log).(status := Cancelled));
    }
  }

  lemma RefundFinishes(db: Db, tx: Tx)
    requires Valid(db) && tx.request.RefundMarket? && Replays(db, tx)
    ensures var r := tx.request;
      Agrees(NextRefundMarket(r.market, tx.log), RefundMarketTx(db, r.market), View(db, tx, |tx.log|))
  {
    hide Valid, Next, NextRefundMarket, RefundMarketTx, Agrees, Replays, Views, View, Follows, Written, RefundScript,
        Answers;
    RefundFollows(db, tx);
    ScriptReplies(db, tx, RefundScript(tx.request, tx.log), |tx.log|);
    RefundOutcome(db, tx.request, tx.log);
  }

  lemma {:induction false} ResolveViews(db: Db, r: Request, log: seq<Reply>)
    requires r.ResolveMarket?
    ensures var script, views := ResolveScript(r, log), Views(db, ResolveScript(r, log));
      var v := db.(listings := WithdrawAll(db.listings, r.market));
      && script[0] == LockMarketRow(r.market, Update) && script[1] == WithdrawListed(r.market)
      && script[2] == ReadPools(r.market) && script[3] == ReadWinners(r.market, r.outcome)
      && views[0] == views[1] == db && views[2] == views[3] == views[4] == v
      && PaysThen(script, 4, ResolveCreditsRead(r, log),
                  SetMarket(r.market, MarketRead(log).(status := Resolved, winner := Some(r.outcome))))
  {
    hide Views, ResolveCreditsRead, WithdrawAll;
    var script, views := ResolveScript(r, log), Views(db, ResolveScript(r, log));
    assert views[1] == Effect(db, script[0]);
    assert views[2] == Effect(views[1], script[1]);
    assert views[3] == Effect(views[2], script[2]);
    assert views[4] == Effect(views[3], script[3]);
  }

  /** The pool rows of one market are all that its totals depend on. */
  lemma TotalReadIs(db: Db, m: MarketId)
    requires m < |db.markets|
    ensures TotalRead(PoolsOn(db.pools, m), m, db.markets[m].outcomes) == TotalPool(db, m)
    ensures forall o :: PoolOf(PoolsOn(db.pools, m), PoolKey(m, o)) == PoolOf(db.pools, PoolKey(m, o))
  {
    var outcomes := db.markets[m].outcomes;
    assert PoolTotals(PoolsOn(db.pools, m), m, outcomes) == PoolTotals(db.pools, m, outcomes);
  }

  lemma {:induction false} ResolveOutcome(db: Db, r: Request, log: seq<Reply>)
    requires r.ResolveMarket? && |log| <= |ResolveScript(r, log)|
    requires var script, views := ResolveScript(r, log), Views(db, ResolveScript(r, log));
      forall j :: 0 <= j < |log| ==> Answers(views[j], script[j], log[j])
    requires forall j :: 4 <= j < |log| - 1 ==> log[j] != Failed
    ensures Agrees(NextResolveMarket(r.market, r.outcome, log),
                   ResolveMarketTx(db, r.market, r.outcome, WinnersRead(log)), Views(db, ResolveScript(r, log))[|log|])
    ensures |log| > 3 ==> multiset(WinnersRead(log)) == multiset(Winners(db.bets, r.market, r.outcome))
  {
    hide Views, WithdrawAll, SettlementCredits, Post, Postable, ResolveScript, Winners, TotalRead, TotalPool,
        PoolsOn, PoolOf, NextCredit;
    ResolveViews(db, r, log);
    if r.market < |db.markets| {
      TotalReadIs(db, r.market);
      if |log| >= 4 {
        CreditsOutcome(db, ResolveScript(r, log), log, 4, ResolveCreditsRead(r, log), r.market,
                       MarketRead(log).(status := Resolved, winner := Some(r.outcome)));
      }
    }
  }

  lemma ResolveFinishes(db: Db, tx: Tx)
    requires tx.request.ResolveMarket? && Replays(db, tx)
    ensures var r, rows := tx.request, WinnersRead(tx.log);
      Agrees(NextResolveMarket(r.market, r.outcome, tx.log), ResolveMarketTx(db, r.market, r.outcome, rows),
             View(db, tx, |tx.log|))
    ensures Next(tx.request, tx.log).Commit? || |tx.log| > 3 ==> Possible(db, CallOf(tx))
  {
    hide Next, NextResolveMarket, ResolveMarketTx, Agrees, Replays, Views, View, Follows, Written, ResolveScript,
        Answers, WinnersRead;
    ResolveFollows(db, tx);
    ScriptReplies(db, tx, ResolveScript(tx.request, tx.log), |tx.log|);
    ResolveOutcome(db, tx.request, tx.log);
    if Next(tx.request, tx.log).Commit? {
      ResolveCommitsLate(tx.request, tx.log);
    }
  }

  lemma ResolveCommitsLate(r: Request, log: seq<Reply>)
    requires r.ResolveMarket? && Next(r, log).Commit?
    ensures |log| > 3
  {
    hide NextCredit;
  }

  // ------------------------------------------------------------- all the programs

  function ScriptOf(r: Request, log: seq<Reply>): seq<Statement> {
    match r
    case CreateMarket(_, _, _) => CreateMarketScript(r)
    case PlaceBet(_, _, _, _) => PlaceBetScript(r)
    case LockMarket(_) => LockMarketScript(r, log)
    case ResolveMarket(_, _) => ResolveScript(r, log)
    case RefundMarket(_) => RefundScript(r, log)
    case AdjustBalance(_, _) => AdjustScript(r, log)
    case ListBet(_, _, _) => ListBetScript(r, log)
    case CancelListing(l, _) => WithdrawScript(l, log)
    case InvalidateListing(l) => WithdrawScript(l, log)
    case BuyBet(_, _) => BuyBetScript(r, log)
  }

  lemma TxFollows(db: Db, tx: Tx)
    requires Replays(db, tx)
    ensures Follows(tx, ScriptOf(tx.request, tx.log))
  {
    hide Replays, Follows, CreateMarketScript, PlaceBetScript, LockMarketScript, ResolveScript, RefundScript,
        AdjustScript,
      ListBetScript, WithdrawScript, BuyBetScript;
    match tx.request
    case CreateMarket(_, _, _) => CreateMarketFollows(db, tx);
    case PlaceBet(_, _, _, _) => PlaceBetFollows(db, tx);
    case LockMarket(_) => LockMarketFollows(db, tx);
    case ResolveMarket(_, _) => ResolveFollows(db, tx);
    case RefundMarket(_) => RefundFollows(db, tx);
    case AdjustBalance(_, _) => AdjustFollows(db, tx);
    case ListBet(_, _, _) => ListBetFollows(db, tx);
    case CancelListing(_, _) => WithdrawFollows(db, tx);
    case InvalidateListing(_) => WithdrawFollows(db, tx);
    case BuyBet(_, _) => BuyBetFollows(db, tx);
  }

  /** Run alone, every program does exactly what its transaction does: it commits
      when the transaction commits, with the same database, and rolls back with
      the same error when that rolls back - a settlement in the order in which it
      read its bets. */
  lemma ProgramIsTransaction(db: Db, tx: Tx)
    requires Valid(db) && Replays(db, tx)
    ensures Agrees(Next(tx.request, tx.log), Apply(db, CallOf(tx)), View(db, tx, |tx.log|))
    ensures Next(tx.request, tx.log).Commit? || |tx.log| > 3 ==> Possible(db, CallOf(tx))
  {
    hide Agrees, Replays, View, NextCreateMarket, NextPlaceBet, NextLockMarket, NextResolveMarket, NextRefundMarket,
      NextAdjustBalance, NextListBet, NextCancelListing, NextInvalidateListing, NextBuyBet, CreateMarketTx, PlaceBetTx,
      LockMarketTx, ResolveMarketTx, RefundMarketTx, AdjustBalanceTx, ListBetTx, CancelListingTx,
          InvalidateListingTx, BuyBetTx;
    match tx.request
    case CreateMarket(_, _, _) => CreateMarketFinishes(db, tx);
    case PlaceBet(_, _, _, _) => PlaceBetFinishes(db, tx);
    case LockMarket(_) => LockMarketFinishes(db, tx);
    case ResolveMarket(_, _) => ResolveFinishes(db, tx);
    case RefundMarket(_) => RefundFinishes(db, tx);
    case AdjustBalance(_, _) => AdjustFinishes(db, tx);
    case ListBet(_, _, _) => ListBetFinishes(db, tx);
    case CancelListing(_, _) => WithdrawFinishes(db, tx);
    case InvalidateListing(_) => WithdrawFinishes(db, tx);
    case BuyBet(_, _) => BuyBetFinishes(db, tx);
  }
}
