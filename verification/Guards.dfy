/** What a transaction in flight has locked by the time it reads or writes: the
    facts that keep its reads valid while others commit. */
module Guards {
  import opened Int64
  import opened Tables
  import opened Wrappers
  import opened Settlement
  import opened Transactions
  import opened Invariants
  import opened Locking
  import opened Isolation

  /** In flight: replies are still what running alone on `db` would give, and
      none of them has called for a rollback. */
  predicate Running(db: Db, tx: Tx) {
    Replays(db, tx) && !Next(tx.request, tx.log).Abort?
  }

  /** A reply that makes its program roll back. */
  predicate Missing(s: Statement, reply: Reply) {
    match s
    case FindBetMarket(_) => reply == MarketId(None)
    case FindListingMarket(_) => reply == MarketId(None)
    case LockMarketRow(_, _) => reply == MarketIs(None)
    case LockListingRow(_) => reply == ListingIs(None)
    case LockBetRow(_) => reply == BetIs(None)
    case LockUserRow(_) => reply == ValueIs(None)
    case InsertListing(_) => reply == Failed
    case _ => false
  }

  lemma MissingAborts(r: Request, log: seq<Reply>, reply: Reply)
    requires Next(r, log).Run? && Missing(Next(r, log).statement, reply)
    ensures Next(r, log + [reply]).Abort?
  {
    hide TotalRead, SettlementCredits, Refunds;
  }

  /** A running transaction's statements, and what it had written before each. */
  lemma {:induction false} StatementIs(db: Db, tx: Tx, j: nat)
    requires Running(db, tx) && j < |tx.log|
    ensures var script := ScriptOf(tx.request, tx.log);
      && Ran(tx, j) && j < |script| && StatementAt(tx, j) == script[j]
      && NoInserts(Written(tx, j))
      && Answers(View(db, tx, j), script[j], tx.log[j])
      && View(db, tx, j) == Views(db, script)[j]
      && !Missing(script[j], tx.log[j])
  {
    hide Next, Written, View, NoInserts, Answers, ScriptOf, Views, Missing;
    var script := ScriptOf(tx.request, tx.log);
    TxFollows(db, tx);
    ScriptReplies(db, tx, script, j);
    assert Ran(tx, j);
    assert tx.log[..j + 1] == tx.log[..j] + [tx.log[j]];
    assert j + 1 < |tx.log| ==> Ran(tx, j + 1);
    assert j + 1 == |tx.log| ==> tx.log[..j + 1] == tx.log;
    if Missing(script[j], tx.log[j]) {
      MissingAborts(tx.request, tx.log[..j], tx.log[j]);
    }
  }

  lemma HoldsOwn(tx: Tx, j: nat, lock: Lock)
    requires Ran(tx, j) && lock in Locks(StatementAt(tx, j), tx.log[j])
    ensures Holds(tx, lock)
  {
    hide Ran, StatementAt, Locks;
    LoggedIfRan(tx, j);
  }

  lemma LoggedIfRan(tx: Tx, j: nat)
    requires Ran(tx, j)
    ensures j < |tx.log|
  {
    hide Next;
  }

  lemma HeldSince(db: Db, tx: Tx, j: nat, lock: Lock)
    requires Running(db, tx) && j < |tx.log| && j < |ScriptOf(tx.request, tx.log)|
    requires lock in Locks(ScriptOf(tx.request, tx.log)[j], tx.log[j])
    ensures Holds(tx, lock)
  {
    hide *;
    StatementIs(db, tx, j);
    HoldsOwn(tx, j, lock);
  }

  predicate LockedMarket(db: Db, tx: Tx, m: MarketId, mode: Mode) {
    m < |db.markets| && Holds(tx, Lock(MarketRow(m), mode))
  }

  /** What a statement relies on: the row it names exists, and the rows that
      guard what it reads or writes are already locked. */
  predicate Guarded(db: Db, tx: Tx, s: Statement) {
    match s
    case FindBetMarket(b) => b < |db.bets|
    case FindListingMarket(l) => l < |db.listings|
    case LockMarketRow(m, mode) => m < |db.markets| && (mode == Share || mode == Update)
    case LockListingRow(l) => l < |db.listings|
    case LockBetRow(b) => b < |db.bets|
    case LockUserRow(u) => u < |db.balances|
    case WithdrawListed(m) => LockedMarket(db, tx, m, Update)
    case ReadPools(m) => LockedMarket(db, tx, m, Update)
    case ReadWinners(m, _) => LockedMarket(db, tx, m, Update)
    case ReadHolders(m) => LockedMarket(db, tx, m, Update)
    case AddPool(k, _) => LockedMarket(db, tx, k.market, Share)
    case SetOwner(b, _) => b < |db.bets| && LockedMarket(db, tx, db.bets[b].market, Share)
    case SetListing(l, row) =>
      && l < |db.listings| && db.listings[l].status == Listed && row.status != Listed
      && row.market == db.listings[l].market && row.bet == db.listings[l].bet
    case SetMarket(m, _) => m < |db.markets|
    case InsertListing(row) =>
      && row.bet < |db.bets| && Holds(tx, Lock(BetRow(row.bet), Update))
    case _ => true
  }

  lemma PlaceBetRows(db: Db, tx: Tx)
    requires tx.request.PlaceBet? && Running(db, tx) && 0 < |tx.log|
    ensures tx.request.market < |db.markets|
    ensures 1 < |tx.log| ==> tx.request.user < |db.balances|
  {
    hide Running, Written, View, Views, NoInserts, Ran, StatementAt;
    PlaceBetViews(db, tx.request);
    StatementIs(db, tx, 0);
    if 1 < |tx.log| {
      StatementIs(db, tx, 1);
    }
  }

  lemma PlaceBetGuarded(db: Db, tx: Tx, j: nat)
    requires tx.request.PlaceBet? && Running(db, tx) && j < |tx.log|
    ensures j < |PlaceBetScript(tx.request)| && Guarded(db, tx, PlaceBetScript(tx.request)[j])
  {
    hide Running, Holds, Written, View, Views, NoInserts, Ran, StatementAt, Ask, Missing;
    StatementIs(db, tx, j);
    PlaceBetRows(db, tx);
    HeldSince(db, tx, 0, Lock(MarketRow(tx.request.market), Share));
  }

  lemma LockMarketGuarded(db: Db, tx: Tx, j: nat)
    requires tx.request.LockMarket? && Running(db, tx) && j < |tx.log|
    ensures j < |LockMarketScript(tx.request, tx.log)| && Guarded(db, tx, LockMarketScript(tx.request, tx.log)[j])
  {
    hide Running, Holds, Written, View, Views;
    StatementIs(db, tx, 0);
    StatementIs(db, tx, j);
    HeldSince(db, tx, 0, Lock(MarketRow(tx.request.market), Update));
  }

  lemma RefundGuarded(db: Db, tx: Tx, j: nat)
    requires tx.request.RefundMarket? && Running(db, tx) && j < |tx.log|
    ensures j < |RefundScript(tx.request, tx.log)| && Guarded(db, tx, RefundScript(tx.request, tx.log)[j])
  {
    hide Running, Holds, Written, View, Views, RefundCreditsRead;
    StatementIs(db, tx, 0);
    StatementIs(db, tx, j);
    HeldSince(db, tx, 0, Lock(MarketRow(tx.request.market), Update));
  }

  lemma ResolveGuarded(db: Db, tx: Tx, j: nat)
    requires tx.request.ResolveMarket? && Running(db, tx) && j < |tx.log|
    ensures j < |ResolveScript(tx.request, tx.log)| && Guarded(db, tx, ResolveScript(tx.request, tx.log)[j])
  {
    hide Running, Holds, Written, View, Views, ResolveCreditsRead, NoInserts, Ran, StatementAt;
    FirstInRange(db, tx);
    StatementIs(db, tx, j);
    HeldSince(db, tx, 0, Lock(MarketRow(tx.request.market), Update));
  }

  lemma FirstInRange(db: Db, tx: Tx)
    requires tx.request.ResolveMarket? && Running(db, tx) && 0 < |tx.log|
    ensures tx.request.market < |db.markets|
  {
    hide Running, Written, View, ResolveCreditsRead, NoInserts, Ran, StatementAt;
    StatementIs(db, tx, 0);
  }

  lemma ListBetRows(db: Db, tx: Tx)
    requires tx.request.ListBet? && Running(db, tx) && 0 < |tx.log|
    ensures tx.request.bet < |db.bets|
    ensures 1 < |tx.log| ==> MarketIdRead(tx.log) < |db.markets|
  {
    hide Running, Written, View, Views, NoInserts, Ran, StatementAt;
    ListBetViews(db, tx.request, tx.log);
    StatementIs(db, tx, 0);
    if 1 < |tx.log| {
      StatementIs(db, tx, 1);
    }
  }

  lemma ListBetGuarded(db: Db, tx: Tx, j: nat)
    requires tx.request.ListBet? && Running(db, tx) && j < |tx.log|
    ensures j < |ListBetScript(tx.request, tx.log)| && Guarded(db, tx, ListBetScript(tx.request, tx.log)[j])
  {
    hide Running, Holds, Written, View, Views, NoInserts, Ran, StatementAt, Ask, Missing, MarketIdRead;
    StatementIs(db, tx, j);
    ListBetRows(db, tx);
    if j == 3 {
      HeldSince(db, tx, 2, Lock(BetRow(tx.request.bet), Update));
    }
  }

  lemma CreateMarketGuarded(db: Db, tx: Tx, j: nat)
    requires tx.request.CreateMarket? && Running(db, tx) && j < |tx.log|
    ensures j < |CreateMarketScript(tx.request)| && Guarded(db, tx, CreateMarketScript(tx.request)[j])
  {
    hide Running, Holds, Written, View, Views, SeedDebit;
    StatementIs(db, tx, 0);
    StatementIs(db, tx, j);
  }

  lemma AdjustGuarded(db: Db, tx: Tx, j: nat)
    requires tx.request.AdjustBalance? && Running(db, tx) && j < |tx.log|
    ensures j < |AdjustScript(tx.request, tx.log)| && Guarded(db, tx, AdjustScript(tx.request, tx.log)[j])
  {
    hide Running, Holds, Written, View, Views, Wrap;
    StatementIs(db, tx, 0);
    StatementIs(db, tx, j);
  }

  lemma WithdrawGuarded(db: Db, tx: Tx, j: nat)
    requires (tx.request.CancelListing? || tx.request.InvalidateListing?) && Running(db, tx) && j < |tx.log|
    ensures var script := WithdrawScript(tx.request.listing, tx.log);
      j < |script| && Guarded(db, tx, script[j])
  {
    hide Running, Holds, Written, View, Views;
    StatementIs(db, tx, 0);
    StatementIs(db, tx, j);
    if j == 1 {
      WithdrawsListed(db, tx);
    }
  }

  lemma WithdrawsListed(db: Db, tx: Tx)
    requires (tx.request.CancelListing? || tx.request.InvalidateListing?) && Running(db, tx) && 1 < |tx.log|
    ensures ListingRead(tx.log, 0).status == Listed
  {
    hide Replays;
    StillRunning(db, tx, 1);
  }

  /** The replies to a purchase's four reads and locks come straight from `db`. */
  lemma BuyBetReplies(db: Db, tx: Tx)
    requires tx.request.BuyBet? && Running(db, tx) && |tx.log| >= 4
    ensures forall i :: 0 <= i < 4 ==> tx.log[i] == Ask(db, BuyBetScript(tx.request, tx.log)[i])
  {
    hide Running, Written, View, Views, NoInserts, Ran, StatementAt, Ask, Missing, ListingRead, MarketIdRead;
    BuyBetViews(db, tx.request, tx.log);
    forall i | 0 <= i < 4 ensures tx.log[i] == Ask(db, BuyBetScript(tx.request, tx.log)[i]) {
      StatementIs(db, tx, i);
    }
  }

  /** Past its bet's lock, a purchase has passed every check before the users. */
  lemma BuyBetProceeds(db: Db, tx: Tx, j: nat)
    requires tx.request.BuyBet? && Running(db, tx) && 4 <= j < |tx.log|
    ensures var l := tx.request.listing;
      && Buyable(db, l, tx.request.buyer)
      && ListingRead(tx.log, 2) == db.listings[l] && MarketIdRead(tx.log) == db.listings[l].market
  {
    hide Running, NextBuyBet, NextBuyUsers, BuyBetTx, Effect;
    var r, log := tx.request, tx.log[..j];
    BuyBetReplies(db, tx);
    BuyBetRuns(db, tx, j);
    SameReads(tx.log, j);
    forall i | 0 <= i < 4 ensures log[i] == Ask(db, BuyBetScript(r, log)[i]) {
      assert log[i] == tx.log[i];
    }
    BuyBetChecks(db, r, log);
  }

  lemma SameReads(log: seq<Reply>, j: nat)
    requires 4 <= j <= |log|
    ensures ListingRead(log[..j], 2) == ListingRead(log, 2) && MarketIdRead(log[..j]) == MarketIdRead(log)
  {
  }

  lemma BuyBetRuns(db: Db, tx: Tx, j: nat)
    requires tx.request.BuyBet? && Running(db, tx) && j < |tx.log|
    ensures NextBuyBet(tx.request.listing, tx.request.buyer, tx.log[..j]).Run?
  {
    hide NextBuyBet, Replays;
    StillRunning(db, tx, j);
  }

  lemma BuyBetLocksMarket(db: Db, tx: Tx, j: nat)
    requires ListingsOk(db) && tx.request.BuyBet? && Running(db, tx) && 4 <= j < |tx.log|
    ensures var l := tx.request.listing;
      && Buyable(db, l, tx.request.buyer) && ListingRead(tx.log, 2) == db.listings[l]
      && db.bets[db.listings[l].bet].market == db.listings[l].market
      && LockedMarket(db, tx, db.listings[l].market, Share)
  {
    hide Running, Holds, Written, View, Views, Next, NextBuyBet, NextBuyUsers, NoInserts, Ran, StatementAt, BuyBetTx;
    BuyBetProceeds(db, tx, j);
    assert ListingOk(db, db.listings[tx.request.listing]);
    HeldSince(db, tx, 1, Lock(MarketRow(MarketIdRead(tx.log)), Share));
  }

  lemma BuyBetEarlyGuarded(db: Db, tx: Tx, j: nat)
    requires tx.request.BuyBet? && Running(db, tx) && j < |tx.log| && j < 6
    ensures var s := BuyBetScript(tx.request, tx.log)[j];
      Guarded(db, tx, s) && !s.SetOwner? && !s.SetListing?
  {
    hide Running, Holds, Written, View, Views, Next, NextBuyBet, NextBuyUsers, NoInserts, Ran, StatementAt,
        BuyBetTx, ListingRead;
    StatementIs(db, tx, j);
    BuyBetViews(db, tx.request, tx.log);
  }

  lemma BuyBetGuarded(db: Db, tx: Tx, j: nat)
    requires ListingsOk(db) && tx.request.BuyBet? && Running(db, tx) && j < |tx.log|
    ensures j < |BuyBetScript(tx.request, tx.log)| && Guarded(db, tx, BuyBetScript(tx.request, tx.log)[j])
  {
    hide Running, LockedMarket, ListingsOk, ListingRead, MarketIdRead, StatementAt, Ran, NoInserts, View, Written,
        Views, Ask;
    StatementIs(db, tx, j);
    if j < 6 {
      BuyBetEarlyGuarded(db, tx, j);
    } else {
      BuyBetLocksMarket(db, tx, j);
    }
  }

  lemma StatementGuarded(db: Db, tx: Tx, j: nat)
    requires Valid(db) && Running(db, tx) && j < |tx.log|
    ensures j < |ScriptOf(tx.request, tx.log)| && Guarded(db, tx, ScriptOf(tx.request, tx.log)[j])
  {
    hide Running, Guarded, CreateMarketScript, PlaceBetScript, LockMarketScript, ResolveScript, RefundScript,
        AdjustScript,
      ListBetScript, WithdrawScript, BuyBetScript;
    match tx.request
    case CreateMarket(_, _, _) => CreateMarketGuarded(db, tx, j);
    case PlaceBet(_, _, _, _) => PlaceBetGuarded(db, tx, j);
    case LockMarket(_) => LockMarketGuarded(db, tx, j);
    case ResolveMarket(_, _) => ResolveGuarded(db, tx, j);
    case RefundMarket(_) => RefundGuarded(db, tx, j);
    case AdjustBalance(_, _) => AdjustGuarded(db, tx, j);
    case ListBet(_, _, _) => ListBetGuarded(db, tx, j);
    case CancelListing(_, _) => WithdrawGuarded(db, tx, j);
    case InvalidateListing(_) => WithdrawGuarded(db, tx, j);
    case BuyBet(_, _) => BuyBetGuarded(db, tx, j);
  }

  // ------------------------------------------------------------ what is written

  predicate WritesNothing(s: Statement) {
    s.FindBetMarket? || s.FindListingMarket? || s.LockMarketRow? || s.LockListingRow? || s.LockBetRow? || s.LockUserRow?
  }

  /** Listings are withdrawn and inserted before anything else is written, and
      bets are read before any owner is. */
  predicate ReadsEarly(script: seq<Statement>, j: nat)
    requires j < |script|
  {
    && (script[j].WithdrawListed? || script[j].InsertListing? ==> forall i :: 0 <= i < j ==> WritesNothing(script[i]))
    && (script[j].ReadWinners? || script[j].ReadHolders? ==> forall i :: 0 <= i < j ==> !script[i].SetOwner?)
  }

  lemma ScriptReadsEarly(r: Request, log: seq<Reply>, j: nat)
    requires j < |ScriptOf(r, log)|
    ensures ReadsEarly(ScriptOf(r, log), j)
  {
    hide SeedDebit, ListingRead, MarketIdRead, MarketRead, ResolveCreditsRead, RefundCreditsRead, Wrap;
  }

  lemma {:induction false} WrittenBefore(db: Db, tx: Tx, j: nat, n: nat)
    requires Running(db, tx) && n <= j < |tx.log| && j < |ScriptOf(tx.request, tx.log)|
    ensures var s := ScriptOf(tx.request, tx.log)[j];
      && (s.WithdrawListed? || s.InsertListing? ==> Written(tx, n) == NOTHING)
      && (s.ReadWinners? || s.ReadHolders? ==> Written(tx, n).owners == map[])
  {
    hide Running, ScriptOf, Ask, Missing, NoInserts, View, Views, Ran, StatementAt;
    if n > 0 {
      ScriptReadsEarly(tx.request, tx.log, j);
      WrittenBefore(db, tx, j, n - 1);
      StatementIs(db, tx, n - 1);
    }
  }

  /** Every row version is on a locked row, and what else guards it is locked. */
  ghost predicate WritesGuarded(db: Db, tx: Tx, w: Writes) {
    && (forall u :: u in w.balances ==> Holds(tx, Lock(UserRow(u), NoKeyUpdate)))
    && (forall m :: m in w.markets ==> Holds(tx, Lock(MarketRow(m), NoKeyUpdate)))
    && (forall k :: k in w.pools ==> Holds(tx, Lock(PoolRow(k), NoKeyUpdate)) && LockedMarket(db, tx, k.market, Share))
    && (forall b :: b in w.owners ==>
          b < |db.bets| && Holds(tx, Lock(BetRow(b), NoKeyUpdate)) && LockedMarket(db, tx, db.bets[b].market, Share))
    && (forall l :: l in w.listings ==>
          && l < |db.listings| && Holds(tx, Lock(ListingRow(l), NoKeyUpdate))
          && db.listings[l].status == Listed && w.listings[l].status != Listed
          && w.listings[l].market == db.listings[l].market && w.listings[l].bet == db.listings[l].bet)
    && (forall b :: b in w.newBets ==> Holds(tx, Lock(MarketRow(b.market), KeyShare)))
    && (forall l :: l in w.newListings ==>
          Holds(tx, Lock(MarketRow(l.market), KeyShare)) && Holds(tx, Lock(BetRow(l.bet), KeyShare)))
  }

  lemma WithdrawalGuarded(db: Db, tx: Tx, w: Writes, m: MarketId)
    requires WritesGuarded(db, tx, w)
    requires forall l :: l in ListedOn(db.listings, m) ==> Holds(tx, Lock(ListingRow(l), NoKeyUpdate))
    ensures WritesGuarded(db, tx, Write(w, WithdrawListed(m), Withdrew(ListedOn(db.listings, m))))
  {
    hide Holds, LockedMarket;
  }

  lemma InsertGuarded(db: Db, tx: Tx, w: Writes, s: Statement, reply: Reply)
    requires WritesGuarded(db, tx, w) && Inserts(s)
    requires forall lock :: lock in Locks(s, reply) ==> Holds(tx, lock)
    ensures WritesGuarded(db, tx, Write(w, s, reply))
  {
    hide Holds, LockedMarket;
  }

  lemma UpdateGuarded(db: Db, tx: Tx, w: Writes, s: Statement, reply: Reply)
    requires WritesGuarded(db, tx, w) && Guarded(db, tx, s) && !Inserts(s) && !s.WithdrawListed?
    requires forall lock :: lock in Locks(s, reply) ==> Holds(tx, lock)
    ensures WritesGuarded(db, tx, Write(w, s, reply))
  {
    hide Holds, LockedMarket;
  }

  lemma WriteGuarded(db: Db, tx: Tx, w: Writes, s: Statement, reply: Reply)
    requires WritesGuarded(db, tx, w) && Guarded(db, tx, s)
    requires forall lock :: lock in Locks(s, reply) ==> Holds(tx, lock)
    requires s.WithdrawListed? ==> reply == Withdrew(ListedOn(db.listings, s.market))
    ensures WritesGuarded(db, tx, Write(w, s, reply))
  {
    hide Holds, Guarded, Write, WritesGuarded, ListedOn;
    if Inserts(s) {
      InsertGuarded(db, tx, w, s, reply);
    } else if s.WithdrawListed? {
      forall l | l in ListedOn(db.listings, s.market) ensures Holds(tx, Lock(ListingRow(l), NoKeyUpdate)) {
        assert Lock(ListingRow(l), NoKeyUpdate) in Locks(s, reply);
      }
      WithdrawalGuarded(db, tx, w, s.market);
    } else {
      UpdateGuarded(db, tx, w, s, reply);
    }
  }
}
