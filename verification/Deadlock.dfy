/** Why the row locks cannot deadlock: each program takes the rows it does not
    hold yet in one global order. A settlement does so when it credits its users
    in ascending order, which is up to the order its rows come back in. */
module Deadlock {
  import opened Int64
  import opened Sums
  import opened Tables
  import opened Wrappers
  import opened Settlement
  import opened Transactions
  import opened Invariants
  import opened Locking
  import opened Isolation
  import opened Guards
  import opened Serializability

  /** Each credit goes to a user credited before or to a larger one than all before. */
  predicate Ascending(credits: seq<Credit>) {
    forall i :: 0 <= i < |credits| ==> CreditedBefore(credits, i) || LargestSoFar(credits, i)
  }

  predicate CreditedBefore(credits: seq<Credit>, i: nat)
    requires i < |credits|
  {
    exists k :: 0 <= k < i && credits[k].user == credits[i].user
  }

  predicate LargestSoFar(credits: seq<Credit>, i: nat)
    requires i < |credits|
  {
    forall k :: 0 <= k < i ==> credits[k].user < credits[i].user
  }

  /** Every program but the two that pay out; and those, when the rows they have
      read make them credit in ascending order. */
  predicate Ordered(tx: Tx) {
    match tx.request
    case RefundMarket(_) => Ascending(RefundCreditsRead(tx.log))
    case ResolveMarket(_, _) => Ascending(ResolveCreditsRead(tx.request, tx.log))
    case _ => true
  }

  function Class(row: Row): nat {
    match row
    case MarketRow(_) => 0
    case ListingRow(_) => 1
    case BetRow(_) => 2
    case UserRow(_) => 3
    case PoolRow(_) => 4
  }

  /** Markets, listings, bets, users in ascending order, pools. */
  predicate Before(a: Row, b: Row) {
    Class(a) < Class(b) || (a.UserRow? && b.UserRow? && a.u < b.u)
  }

  lemma BeforeIsTransitive(a: Row, b: Row, c: Row)
    requires Before(a, b) && Before(b, c)
    ensures Before(a, c) && !Before(a, a)
  {
  }

  /** Holding a row in mode `held` already covers a request for `mode`. */
  predicate Covers(held: Mode, mode: Mode) {
    held == mode || held == Update || mode == KeyShare
  }

  predicate Taken(script: seq<Statement>, log: seq<Reply>, n: nat, lock: Lock)
    requires n <= |script| && n <= |log|
  {
    exists j :: 0 <= j < n && TakesCover(script[j], log[j], lock)
  }

  predicate TakesCover(s: Statement, reply: Reply, lock: Lock) {
    exists held :: held in Locks(s, reply) && held.row == lock.row && Covers(held.mode, lock.mode)
  }

  /** The row comes after all those locked by the first `n` statements. */
  predicate Later(script: seq<Statement>, log: seq<Reply>, n: nat, row: Row)
    requires n <= |script| && n <= |log|
  {
    forall j, held :: 0 <= j < n && held in Locks(script[j], log[j]) ==> Before(held.row, row)
  }

  predicate InOrder(script: seq<Statement>, log: seq<Reply>, n: nat)
    requires n < |script| && n < |log|
  {
    forall lock :: lock in Locks(script[n], log[n]) ==> Taken(script, log, n, lock) || Later(script, log, n, lock.row)
  }

  lemma TakenAt(script: seq<Statement>, log: seq<Reply>, n: nat, j: nat, held: Mode, lock: Lock)
    requires j < n <= |script| && n <= |log|
    requires Lock(lock.row, held) in Locks(script[j], log[j]) && Covers(held, lock.mode)
    ensures Taken(script, log, n, lock)
  {
    hide Locks;
    assert TakesCover(script[j], log[j], lock);
  }

  lemma PlaceBetInOrder(r: Request, log: seq<Reply>, n: nat)
    requires r.PlaceBet? && n < |log| && n < 5
    ensures InOrder(PlaceBetScript(r), log, n)
  {
    hide Taken;
    var script := PlaceBetScript(r);
    forall lock | lock in Locks(script[n], log[n])
      ensures Taken(script, log, n, lock) || Later(script, log, n, lock.row)
    {
      if n == 2 {
        TakenAt(script, log, n, 1, Update, lock);
      } else if n == 4 {
        if lock.row.MarketRow? {
          TakenAt(script, log, n, 0, Share, lock);
        } else {
          TakenAt(script, log, n, 1, Update, lock);
        }
      }
    }
  }

  lemma LockMarketInOrder(r: Request, log: seq<Reply>, n: nat)
    requires r.LockMarket? && n < |log| && n < 3
    ensures InOrder(LockMarketScript(r, log), log, n)
  {
    hide Taken, MarketRead;
    var script := LockMarketScript(r, log);
    forall lock | lock in Locks(script[n], log[n])
      ensures Taken(script, log, n, lock) || Later(script, log, n, lock.row)
    {
      if n == 2 {
        TakenAt(script, log, n, 0, Update, lock);
      }
    }
  }

  lemma CreateMarketInOrder(r: Request, log: seq<Reply>, n: nat)
    requires r.CreateMarket? && n < |log| && n < |CreateMarketScript(r)|
    ensures InOrder(CreateMarketScript(r), log, n)
  {
    hide Taken, SeedDebit;
    var script := CreateMarketScript(r);
    forall lock | lock in Locks(script[n], log[n])
      ensures Taken(script, log, n, lock) || Later(script, log, n, lock.row)
    {
      if n > 0 {
        TakenAt(script, log, n, 0, Update, lock);
      }
    }
  }

  lemma AdjustInOrder(r: Request, log: seq<Reply>, n: nat)
    requires r.AdjustBalance? && n < |log| && n < 2
    ensures InOrder(AdjustScript(r, log), log, n)
  {
    hide Taken, Wrap;
    var script := AdjustScript(r, log);
    forall lock | lock in Locks(script[n], log[n])
      ensures Taken(script, log, n, lock) || Later(script, log, n, lock.row)
    {
      if n == 1 {
        TakenAt(script, log, n, 0, Update, lock);
      }
    }
  }

  lemma ListBetInOrder(r: Request, log: seq<Reply>, n: nat)
    requires r.ListBet? && n < |log| && n < 4
    ensures InOrder(ListBetScript(r, log), log, n)
  {
    hide Taken, MarketIdRead;
    var script := ListBetScript(r, log);
    forall lock | lock in Locks(script[n], log[n])
      ensures Taken(script, log, n, lock) || Later(script, log, n, lock.row)
    {
      if n == 3 {
        if lock.row.MarketRow? {
          TakenAt(script, log, n, 1, Share, lock);
        } else if lock.row.BetRow? {
          TakenAt(script, log, n, 2, Update, lock);
        }
      }
    }
  }

  lemma WithdrawInOrder(l: ListingId, log: seq<Reply>, n: nat)
    requires n < |log| && n < 2 && (n == 1 ==> ListingRead(log, 0).buyer.None?)
    ensures InOrder(WithdrawScript(l, log), log, n)
  {
    hide Taken;
    var script := WithdrawScript(l, log);
    forall lock | lock in Locks(script[n], log[n])
      ensures Taken(script, log, n, lock) || Later(script, log, n, lock.row)
    {
      if n == 1 {
        TakenAt(script, log, n, 0, Update, lock);
      }
    }
  }

  lemma BuyBetInOrder(r: Request, log: seq<Reply>, n: nat)
    requires r.BuyBet? && n < |log| && n < 10
    ensures InOrder(BuyBetScript(r, log), log, n)
  {
    hide Taken, ListingRead, MarketIdRead, Later;
    var script := BuyBetScript(r, log);
    var buyerFirst := r.buyer < ListingRead(log, 2).seller;
    forall lock | lock in Locks(script[n], log[n])
      ensures Taken(script, log, n, lock) || Later(script, log, n, lock.row)
    {
      if n < 6 {
        BuyBetLater(r, log, n, lock);
      } else if lock.row.UserRow? {
        TakenAt(script, log, n, if (lock.row.u == r.buyer) == buyerFirst then 4 else 5, Update, lock);
      } else {
        TakenAt(script, log, n, if lock.row.BetRow? then 3 else 2, Update, lock);
      }
    }
  }

  lemma BuyBetLater(r: Request, log: seq<Reply>, n: nat, lock: Lock)
    requires r.BuyBet? && n < |log| && n < 6 && lock in Locks(BuyBetScript(r, log)[n], log[n])
    ensures Taken(BuyBetScript(r, log), log, n, lock) || Later(BuyBetScript(r, log), log, n, lock.row)
  {
    hide Taken, ListingRead, MarketIdRead;
    var script := BuyBetScript(r, log);
    if n == 5 && r.buyer == ListingRead(log, 2).seller {
      TakenAt(script, log, n, 4, Update, lock);
    }
  }

  /** A settlement locks its market, its listings, then the credited users. */
  lemma CreditInOrder(script: seq<Statement>, log: seq<Reply>, from: nat, credits: seq<Credit>,
      last: Statement, n: nat)
    requires 2 <= from <= n < |script| - 1 && n < |log| && PaysThen(script, from, credits, last)
    requires forall j, held :: 0 <= j < from && held in Locks(script[j], log[j]) ==> Class(held.row) < 3
    requires Ascending(credits)
    ensures InOrder(script, log, n)
  {
    hide Taken, Ascending;
    var i := n - from;
    var x := Lock(UserRow(credits[i].user), NoKeyUpdate);
    assert Locks(script[n], log[n]) == {x};
    AscendingAt(credits, i);
    if CreditedBefore(credits, i) {
      var k :| 0 <= k < i && credits[k].user == credits[i].user;
      TakenAt(script, log, n, from + k, NoKeyUpdate, x);
    } else {
      forall j, held | 0 <= j < n && held in Locks(script[j], log[j])
        ensures Before(held.row, x.row)
      {
        if j >= from {
          assert held == Lock(UserRow(credits[j - from].user), NoKeyUpdate);
        }
      }
    }
  }

  lemma AscendingAt(credits: seq<Credit>, i: nat)
    requires Ascending(credits) && i < |credits|
    ensures CreditedBefore(credits, i) || LargestSoFar(credits, i)
  {
  }

  lemma RefundInOrder(r: Request, log: seq<Reply>, n: nat)
    requires r.RefundMarket? && n < |log| && n < |RefundScript(r, log)|
    requires n >= 3 ==> Ascending(RefundCreditsRead(log))
    ensures InOrder(RefundScript(r, log), log, n)
  {
    hide Taken, Ascending, RefundCreditsRead, MarketRead;
    var script, credits := RefundScript(r, log), RefundCreditsRead(log);
    var last := SetMarket(r.market, MarketRead(log).(status := Cancelled));
    if 3 <= n < |script| - 1 {
      CreditInOrder(script, log, 3, credits, last, n);
    } else if n == |script| - 1 {
      assert script[n] == last;
      TakenAt(script, log, n, 0, Update, Lock(MarketRow(r.market), NoKeyUpdate));
    }
  }

  lemma ResolveInOrder(r: Request, log: seq<Reply>, n: nat)
    requires r.ResolveMarket? && n < |log| && n < |ResolveScript(r, log)|
    requires n >= 4 ==> Ascending(ResolveCreditsRead(r, log))
    ensures InOrder(ResolveScript(r, log), log, n)
  {
    hide Taken, Ascending, ResolveCreditsRead, MarketRead;
    var script, credits := ResolveScript(r, log), ResolveCreditsRead(r, log);
    var last := SetMarket(r.market, MarketRead(log).(status := Resolved, winner := Some(r.outcome)));
    if 4 <= n < |script| - 1 {
      CreditInOrder(script, log, 4, credits, last, n);
    } else if n == |script| - 1 {
      assert script[n] == last;
      TakenAt(script, log, n, 0, Update, Lock(MarketRow(r.market), NoKeyUpdate));
    }
  }

  /** What is credited is settled once the bets have been read. */
  lemma SameCredits(r: Request, log: seq<Reply>, more: seq<Reply>)
    requires log <= more
    ensures r.RefundMarket? && |log| > 2 ==> RefundCreditsRead(more) == RefundCreditsRead(log)
    ensures r.ResolveMarket? && |log| > 3 ==> ResolveCreditsRead(r, more) == ResolveCreditsRead(r, log)
  {
    hide SettlementCredits, Refunds, TotalRead;
  }

  /** `log` holds the replies so far and the one to come. */
  lemma ScriptInOrder(r: Request, log: seq<Reply>)
    requires |log| > 0 && |log| <= |ScriptOf(r, log)| && Ordered(Tx(r, log[..|log| - 1]))
    requires |log| == 2 && (r.CancelListing? || r.InvalidateListing?) ==> ListingRead(log, 0).buyer.None?
    ensures InOrder(ScriptOf(r, log), log, |log| - 1)
  {
    hide InOrder, Ascending, RefundCreditsRead, ResolveCreditsRead;
    var n := |log| - 1;
    SameCredits(r, log[..n], log);
    match r
    case CreateMarket(_, _, _) => CreateMarketInOrder(r, log, n);
    case PlaceBet(_, _, _, _) => PlaceBetInOrder(r, log, n);
    case LockMarket(_) => LockMarketInOrder(r, log, n);
    case ResolveMarket(_, _) => ResolveInOrder(r, log, n);
    case RefundMarket(_) => RefundInOrder(r, log, n);
    case AdjustBalance(_, _) => AdjustInOrder(r, log, n);
    case ListBet(_, _, _) => ListBetInOrder(r, log, n);
    case CancelListing(l, _) => WithdrawInOrder(l, log, n);
    case InvalidateListing(l) => WithdrawInOrder(l, log, n);
    case BuyBet(_, _) => BuyBetInOrder(r, log, n);
  }

  // --------------------------------------------------- settlements in ascending order

  predicate Sorted(rows: seq<Holding>) {
    forall i, j :: 0 <= i < j < |rows| ==> rows[i].owner <= rows[j].owner
  }

  lemma SortedIsAscending(rows: seq<Holding>, credits: seq<Credit>)
    requires Sorted(rows) && |credits| == |rows|
    requires forall i :: 0 <= i < |rows| ==> credits[i].user == rows[i].owner
    ensures Ascending(credits)
  {
    forall i | 0 <= i < |credits|
      ensures CreditedBefore(credits, i) || LargestSoFar(credits, i)
    {
      if !LargestSoFar(credits, i) {
        var k :| 0 <= k < i && !(credits[k].user < credits[i].user);
        assert credits[k].user == credits[i].user;
      }
    }
  }

  /** Read in owner order, a refund's bets are credited in ascending order. */
  lemma SortedRefund(rows: seq<Holding>)
    requires Sorted(rows)
    ensures Ascending(Refunds(rows))
  {
    hide Ascending, Sorted;
    SortedIsAscending(rows, Refunds(rows));
  }

  /** So are a settlement's, except that the house comes last: that is in order if
      and only if it gets nothing, is one of the winners, or is the only one paid. */
  lemma SortedSettlement(total: int, pool: int, rows: seq<Holding>)
    requires pool > 0 && Sorted(rows)
    ensures var gain := HouseGain(total, Total(Payouts(rows, Distributable(total), pool), Amount));
      Ascending(SettlementCredits(total, pool, rows)) <==>
        gain <= 0 || rows == [] || exists h :: h in rows && h.owner == HOUSE
  {
    hide Sorted, Distributable, HouseGain, Total, Payout;
    var payouts := Payouts(rows, Distributable(total), pool);
    var gain := HouseGain(total, Total(payouts, Amount));
    hide Ascending;
    SortedIsAscending(rows, payouts);
    if gain > 0 {
      HouseComesLast(payouts, gain);
      if h :| h in rows && h.owner == HOUSE {
        var k :| 0 <= k < |rows| && rows[k] == h;
        assert payouts[k].user == HOUSE;
      }
      if k :| 0 <= k < |payouts| && payouts[k].user == HOUSE {
        assert rows[k] in rows;
      }
    }
  }

  lemma HouseComesLast(payouts: seq<Credit>, gain: int)
    requires Ascending(payouts)
    ensures Ascending(payouts + [Credit(HOUSE, gain)]) <==>
      payouts == [] || exists k :: 0 <= k < |payouts| && payouts[k].user == HOUSE
  {
    var all, n := payouts + [Credit(HOUSE, gain)], |payouts|;
    forall i | 0 <= i < n ensures CreditedBefore(all, i) || LargestSoFar(all, i) {
      AscendingAt(payouts, i);
      if CreditedBefore(payouts, i) {
        var k :| 0 <= k < i && payouts[k].user == payouts[i].user;
        assert all[k].user == all[i].user;
      }
    }
    assert all[n].user == HOUSE;
    if Ascending(all) && payouts != [] {
      AscendingAt(all, n);
      assert all[0].user >= all[n].user;
      var k :| 0 <= k < n && all[k].user == all[n].user;
      assert payouts[k].user == HOUSE;
    }
    if k :| 0 <= k < |payouts| && payouts[k].user == HOUSE {
      assert all[k].user == all[n].user;
      assert CreditedBefore(all, n);
    }
  }

  // ------------------------------------------------------- a waiting transaction

  /** The transaction once its next statement has been answered, bets being found
      oldest first. */
  function Asked(db: Db, tx: Tx): Tx
    requires Next(tx.request, tx.log).Run?
  {
    Told(tx, Ask(View(db, tx, |tx.log|), Next(tx.request, tx.log).statement))
  }

  lemma AskedReplays(db: Db, tx: Tx)
    requires Replays(db, tx) && Next(tx.request, tx.log).Run?
    ensures Replays(db, Asked(db, tx))
  {
    hide Next, Ask, View, Replays;
    ToldReplays(db, tx, Ask(View(db, tx, |tx.log|), Next(tx.request, tx.log).statement));
  }

  lemma NextInScript(db: Db, tx: Tx)
    requires Replays(db, tx) && Next(tx.request, tx.log).Run?
    ensures var told, n := Asked(db, tx), |tx.log|;
      var script := ScriptOf(tx.request, told.log);
      && n < |script| && Next(tx.request, tx.log).statement == script[n]
      && (forall j :: 0 <= j < n ==> Ran(tx, j) && StatementAt(tx, j) == script[j] && told.log[j] == tx.log[j])
  {
    hide Next, Ask, View, ScriptOf, Replays;
    var told, n := Asked(db, tx), |tx.log|;
    AskedReplays(db, tx);
    TxFollows(db, told);
    assert told.log[..n] == tx.log;
    forall j | 0 <= j < n
      ensures Ran(tx, j) && StatementAt(tx, j) == ScriptOf(tx.request, told.log)[j] && told.log[j] == tx.log[j]
    {
      assert told.log[..j] == tx.log[..j];
      assert Next(told.request, told.log[..j]) == Run(ScriptOf(tx.request, told.log)[j]);
    }
  }

  /** A listing about to be withdrawn has no buyer. */
  lemma WithdrawnUnsold(db: Db, tx: Tx)
    requires ListingsOk(db) && Replays(db, tx) && Next(tx.request, tx.log).Run? && |tx.log| == 1
    requires tx.request.CancelListing? || tx.request.InvalidateListing?
    ensures ListingRead(tx.log, 0).buyer.None?
  {
    hide Replays, Ask, View, Merge, Written;
    var l := tx.request.listing;
    FirstReply(db, tx);
    assert l < |db.listings| ==> ListingOk(db, db.listings[l]);
  }

  lemma FirstReply(db: Db, tx: Tx)
    requires Replays(db, tx) && |tx.log| > 0
    requires tx.request.CancelListing? || tx.request.InvalidateListing?
    ensures tx.log[0] == ListingIs(Get(db.listings, tx.request.listing))
  {
    hide View, Merge, Written;
    Start(db, tx);
    assert Ran(tx, 0);
  }

  /** The lock `x` that the next statement needs conflicts with one `other` holds. */
  ghost predicate ContestedBy(db: Db, tx: Tx, other: Tx, x: Lock) {
    && Next(tx.request, tx.log).Run?
    && var s := Next(tx.request, tx.log).statement;
    && x in Locks(s, Ask(View(db, tx, |tx.log|), s))
    && exists y :: Holds(other, y) && x.row == y.row && Conflicts(x.mode, y.mode)
  }

  lemma CoveredIsUncontested(tx: Tx, other: Tx, held: Lock, x: Lock, y: Lock)
    requires Compatible(tx, other) && Holds(tx, held) && Holds(other, y)
    requires held.row == x.row == y.row && Covers(held.mode, x.mode)
    ensures !Conflicts(x.mode, y.mode)
  {
    hide Holds;
  }

  /** A transaction whose next statement is in order waits only for rows after all
      those it holds. */
  lemma InOrderIsLater(db: Db, tx: Tx, other: Tx, x: Lock, held: Lock)
    requires Replays(db, tx) && Compatible(tx, other) && ContestedBy(db, tx, other, x) && Holds(tx, held)
    requires var told := Asked(db, tx);
      |told.log| <= |ScriptOf(tx.request, told.log)| &&
      InOrder(ScriptOf(tx.request, told.log), told.log, |tx.log|)
    ensures Before(held.row, x.row)
  {
    hide Replays, Next, Ask, View, ScriptOf, Compatible, Locks, Before, StatementAt, Ran;
    var told, n := Asked(db, tx), |tx.log|;
    var script := ScriptOf(tx.request, told.log);
    NextInScript(db, tx);
    if Taken(script, told.log, n, x) {
      var j :| 0 <= j < n && TakesCover(script[j], told.log[j], x);
      var cover :| cover in Locks(script[j], told.log[j]) && cover.row == x.row && Covers(cover.mode, x.mode);
      HoldsOwn(tx, j, cover);
      var y :| Holds(other, y) && x.row == y.row && Conflicts(x.mode, y.mode);
      CoveredIsUncontested(tx, other, cover, x, y);
    } else {
      var j :| 0 <= j < |tx.log| && Ran(tx, j) && held in Locks(StatementAt(tx, j), tx.log[j]);
      assert held in Locks(script[j], told.log[j]);
    }
  }

  lemma ContestedIsLater(db: Db, tx: Tx, other: Tx, x: Lock, held: Lock)
    requires Valid(db) && Replays(db, tx) && Ordered(tx) && Compatible(tx, other)
    requires ContestedBy(db, tx, other, x) && Holds(tx, held)
    ensures Before(held.row, x.row)
  {
    hide Valid, Replays, Next, Ask, View, ScriptOf, Compatible, Locks, Before, ListingsOk, ListingRead, InOrder,
        Holds, Ordered;
    var told, n := Asked(db, tx), |tx.log|;
    NextInScript(db, tx);
    if n == 1 && (tx.request.CancelListing? || tx.request.InvalidateListing?) {
      ValidListings(db);
      WithdrawnUnsold(db, tx);
      assert ListingRead(told.log, 0) == ListingRead(tx.log, 0) by { SameFirst(tx.log, told.log); }
    }
    assert told.log[..n] == tx.log && Tx(tx.request, tx.log) == tx;
    ScriptInOrder(tx.request, told.log);
    InOrderIsLater(db, tx, other, x, held);
  }

  lemma ValidListings(db: Db)
    requires Valid(db)
    ensures ListingsOk(db)
  {
  }

  lemma SameFirst(log: seq<Reply>, more: seq<Reply>)
    requires 0 < |log| <= |more| && log[0] == more[0]
    ensures ListingRead(more, 0) == ListingRead(log, 0)
  {
  }

  // ------------------------------------------------- waiting on the unique index

  /** Whoever rewrote a listing holds its market or its bet FOR UPDATE, or is a
      one-listing program that has nothing left to wait for. */
  lemma {:induction false} ListingWriter(db: Db, tx: Tx, n: nat, l: ListingId)
    requires Valid(db) && Running(db, tx) && n <= |tx.log| && l in Written(tx, n).listings
    ensures l < |db.listings|
    ensures Holds(tx, Lock(MarketRow(db.listings[l].market), Update)) ||
      Holds(tx, Lock(BetRow(db.listings[l].bet), Update)) ||
      ((tx.request.CancelListing? || tx.request.InvalidateListing?) && n >= 2)
  {
    hide Valid, Running, Holds, Ask, View, Views, ScriptOf, Missing, NoInserts, Guarded, StatementAt, Ran, LockedMarket;
    var j := n - 1;
    StatementIs(db, tx, j);
    StatementGuarded(db, tx, j);
    WithdrawnRows(db, tx, j);
    var s := ScriptOf(tx.request, tx.log)[j];
    WriteOf(db, tx, j);
    if l in Written(tx, j).listings {
      ListingWriter(db, tx, j, l);
    } else if s.WithdrawListed? {
      GuardingMarket(db, tx, s);
    } else {
      ListingSetter(db, tx, j, l);
    }
  }

  lemma WriteOf(db: Db, tx: Tx, j: nat)
    requires Running(db, tx) && j < |tx.log|
    ensures j < |ScriptOf(tx.request, tx.log)|
    ensures Written(tx, j + 1) == Write(Written(tx, j), ScriptOf(tx.request, tx.log)[j], tx.log[j])
  {
    hide Running, Ask, View, Views, ScriptOf, Missing, NoInserts, Write;
    StatementIs(db, tx, j);
  }

  lemma SetsListing(r: Request, log: seq<Reply>, j: nat)
    requires j < |ScriptOf(r, log)| && ScriptOf(r, log)[j].SetListing?
    ensures (r.BuyBet? && j == 9 && ScriptOf(r, log)[j].listing == r.listing
             && ScriptOf(r, log)[3] == LockBetRow(ListingRead(log, 2).bet))
         || ((r.CancelListing? || r.InvalidateListing?) && j == 1)
  {
    hide SeedDebit, MarketRead, ResolveCreditsRead, RefundCreditsRead, ListingRead, Wrap;
  }

  lemma ListingSetter(db: Db, tx: Tx, j: nat, l: ListingId)
    requires Valid(db) && Running(db, tx) && j < |tx.log| && j < |ScriptOf(tx.request, tx.log)|
    requires ScriptOf(tx.request, tx.log)[j].SetListing? && ScriptOf(tx.request, tx.log)[j].listing == l
    ensures l < |db.listings|
    ensures Holds(tx, Lock(BetRow(db.listings[l].bet), Update)) ||
      ((tx.request.CancelListing? || tx.request.InvalidateListing?) && j >= 1)
  {
    hide Valid, Running, Holds, ScriptOf, LockedMarket, Buyable, ListingRead, ListingsOk;
    SetsListing(tx.request, tx.log, j);
    SetsInRange(db, tx, j);
    if tx.request.BuyBet? {
      ValidListings(db);
      BuyBetLocksMarket(db, tx, j);
      HeldSince(db, tx, 3, Lock(BetRow(ListingRead(tx.log, 2).bet), Update));
    }
  }

  lemma SetsInRange(db: Db, tx: Tx, j: nat)
    requires Valid(db) && Running(db, tx) && j < |tx.log| && j < |ScriptOf(tx.request, tx.log)|
    requires ScriptOf(tx.request, tx.log)[j].SetListing?
    ensures ScriptOf(tx.request, tx.log)[j].listing < |db.listings|
  {
    hide Valid, Running, ScriptOf, LockedMarket, Holds;
    StatementGuarded(db, tx, j);
  }

  lemma InsertsListing(r: Request, log: seq<Reply>, n: nat)
    requires n < |ScriptOf(r, log)| && ScriptOf(r, log)[n].InsertListing?
    ensures r.ListBet? && n == 3 && ScriptOf(r, log)[n].listingRow.bet == r.bet
    ensures ScriptOf(r, log)[0] == FindBetMarket(r.bet)
    ensures ScriptOf(r, log)[1] == LockMarketRow(MarketIdRead(log), Share)
    ensures ScriptOf(r, log)[2] == LockBetRow(r.bet)
  {
    hide SeedDebit, MarketRead, ResolveCreditsRead, RefundCreditsRead, ListingRead, MarketIdRead, Wrap;
  }

  /** A seller about to insert a listing holds the bet and shares its market. */
  lemma ListerHolds(db: Db, tx: Tx)
    requires Valid(db) && Running(db, tx)
    requires Next(tx.request, tx.log).Run? && Next(tx.request, tx.log).statement.InsertListing?
    ensures var b := Next(tx.request, tx.log).statement.listingRow.bet;
      b < |db.bets| && Holds(tx, Lock(BetRow(b), Update)) && Holds(tx, Lock(MarketRow(db.bets[b].market), Share))
  {
    hide Valid, Next, ScriptOf, Replays, Ask, Holds, Locks;
    var told := Asked(db, tx);
    NextInScript(db, tx);
    InsertsListing(tx.request, told.log, |tx.log|);
    ListBetHolds(db, tx);
  }

  lemma ListBetHolds(db: Db, tx: Tx)
    requires Running(db, tx) && tx.request.ListBet? && |tx.log| == 3
    ensures var b := tx.request.bet;
      b < |db.bets| && Holds(tx, Lock(BetRow(b), Update)) && Holds(tx, Lock(MarketRow(db.bets[b].market), Share))
  {
    hide Running, Holds, Ask, View, Views, Replays;
    var r := tx.request;
    FoundMarket(db, tx);
    ListBetStatements(r, tx.log);
    HeldSince(db, tx, 1, Lock(MarketRow(MarketIdRead(tx.log)), Share));
    HeldSince(db, tx, 2, Lock(BetRow(r.bet), Update));
  }

  lemma ListBetStatements(r: Request, log: seq<Reply>)
    requires r.ListBet?
    ensures |ScriptOf(r, log)| == 4
    ensures ScriptOf(r, log)[1] == LockMarketRow(MarketIdRead(log), Share) && ScriptOf(r, log)[2] == LockBetRow(r.bet)
  {
  }

  lemma FoundMarket(db: Db, tx: Tx)
    requires Running(db, tx) && tx.request.ListBet? && |tx.log| == 3
    ensures tx.request.bet < |db.bets| && MarketIdRead(tx.log) == db.bets[tx.request.bet].market
  {
    hide Running, Written, View, Views, NoInserts, StatementAt, Ran;
    StatementIs(db, tx, 0);
    ListBetViews(db, tx.request, tx.log);
  }

  /** So the unique index only ever waits for a transaction that is about to
      commit: a withdrawal of the bet's previous listing. */
  lemma ReplacerIsDone(db: Db, tx: Tx, other: Tx)
    requires Valid(db) && Running(db, tx) && Running(db, other) && Compatible(tx, other)
    requires Next(tx.request, tx.log).Run? && Next(tx.request, tx.log).statement.InsertListing?
    requires Replacing(db, other, Next(tx.request, tx.log).statement.listingRow.bet)
    ensures !Next(other.request, other.log).Run?
  {
    hide Next, ScriptOf, Replays, Ask, Holds, Locks, Compatible, MarketsOk, PoolsOk, BetsOk, ChainsOk, SeedsOk,
        BalancesOk, View, Written;
    var b := Next(tx.request, tx.log).statement.listingRow.bet;
    var l :| 0 <= l < |db.listings| && l in Written(other, |other.log|).listings && db.listings[l].bet == b;
    ListerHolds(db, tx);
    assert ListingOk(db, db.listings[l]);
    ListingWriter(db, other, |other.log|, l);
    if Holds(other, Lock(MarketRow(db.listings[l].market), Update)) {
      Excluded(tx, other, MarketRow(db.bets[b].market), Share, Update);
    } else if Holds(other, Lock(BetRow(b), Update)) {
      Excluded(tx, other, BetRow(b), Update, Update);
    } else if Next(other.request, other.log).Run? {
      NextInScript(db, other);
      WithdrawScriptLength(other.request, Asked(db, other).log);
    }
  }

  lemma WithdrawScriptLength(r: Request, log: seq<Reply>)
    requires r.CancelListing? || r.InvalidateListing?
    ensures |ScriptOf(r, log)| == 2
  {
  }

  // ------------------------------------------------------------------- no cycles

  /** `a` waits for `b`, which waits for the next, and so on back to `a`. */
  ghost predicate WaitCycle(s: Sys, cycle: seq<nat>) {
    && |cycle| > 1 && cycle[0] == cycle[|cycle| - 1]
    && forall k :: 0 <= k < |cycle| - 1 ==> Waits(s, cycle[k], cycle[k + 1])
  }

  ghost predicate Contest(s: Sys, a: nat, b: nat, x: Lock) {
    a in s.txs && b in s.txs && a != b && ContestedBy(s.db, s.txs[a], s.txs[b], x)
  }

  /** Between two waiting transactions it is always a row lock. */
  lemma WaitIsContest(s: Sys, a: nat, b: nat)
    requires Consistent(s) && Waits(s, a, b) && Next(s.txs[b].request, s.txs[b].log).Run?
    ensures exists x :: Contest(s, a, b, x)
  {
    hide Valid, Running, Compatible, Next, Ask, View, Locks, Replacing;
    var tx := s.txs[a];
    var st := Next(tx.request, tx.log).statement;
    var reply := Ask(View(s.db, tx, |tx.log|), st);
    if st.InsertListing? && Replacing(s.db, s.txs[b], st.listingRow.bet) {
      ReplacerIsDone(s.db, tx, s.txs[b]);
    }
    var x, y :| x in Locks(st, reply) && Holds(s.txs[b], y) && x.row == y.row && Conflicts(x.mode, y.mode);
    assert Contest(s, a, b, x);
  }

  /** Rows strictly increase along a chain of waits. */
  lemma WaitsIncrease(s: Sys, a: nat, b: nat, c: nat, x: Lock, z: Lock)
    requires Consistent(s) && Contest(s, a, b, x) && Contest(s, b, c, z) && Ordered(s.txs[b])
    ensures Before(x.row, z.row)
  {
    hide Valid, Replays, Compatible, Next, Ask, View, Locks, Before, Ordered;
    var y :| Holds(s.txs[b], y) && x.row == y.row && Conflicts(x.mode, y.mode);
    ContestedIsLater(s.db, s.txs[b], s.txs[c], z, y);
  }

  lemma {:induction false} ChainIncreases(s: Sys, path: seq<nat>, n: nat, x: Lock, z: Lock)
    requires Consistent(s) && 0 < n < |path| - 1
    requires forall k :: 0 <= k < |path| - 1 ==> Waits(s, path[k], path[k + 1])
    requires forall k :: 0 <= k < |path| ==> path[k] in s.txs && Ordered(s.txs[path[k]])
    requires Contest(s, path[0], path[1], x) && Contest(s, path[n], path[n + 1], z)
    ensures Before(x.row, z.row)
  {
    hide Consistent, Waits, Contest, Ordered, Before;
    if n == 1 {
      WaitsIncrease(s, path[0], path[1], path[2], x, z);
    } else {
      StillWaiting(s, path, n);
      WaitIsContest(s, path[n - 1], path[n]);
      var y :| Contest(s, path[n - 1], path[n], y);
      ChainIncreases(s, path, n - 1, x, y);
      WaitsIncrease(s, path[n - 1], path[n], path[n + 1], y, z);
      BeforeIsTransitive(x.row, y.row, z.row);
    }
  }

  lemma StillWaiting(s: Sys, path: seq<nat>, n: nat)
    requires n < |path| - 1 && Waits(s, path[n], path[n + 1])
    ensures path[n] in s.txs && Next(s.txs[path[n]].request, s.txs[path[n]].log).Run?
  {
    hide Next;
  }

  /** However programs interleave, no cycle of ordered ones - any but settlements,
      and settlements crediting in ascending order - ever waits on itself. */
  lemma NoDeadlock(s: Sys, cycle: seq<nat>)
    requires Consistent(s)
    requires forall k :: 0 <= k < |cycle| && cycle[k] in s.txs ==> Ordered(s.txs[cycle[k]])
    ensures !WaitCycle(s, cycle)
  {
    hide Consistent, Waits, Contest, Ordered, Before;
    if WaitCycle(s, cycle) {
      var n := |cycle| - 1;
      CycleInSystem(s, cycle);
      var around := cycle + [cycle[1]];
      forall k | 0 <= k < |around| - 1 ensures Waits(s, around[k], around[k + 1]) {
      }
      StillWaiting(s, around, 1);
      WaitIsContest(s, around[0], around[1]);
      var x :| Contest(s, around[0], around[1], x);
      ChainIncreases(s, around, n, x, x);
      BeforeIsTransitive(x.row, x.row, x.row);
    }
  }

  lemma CycleInSystem(s: Sys, cycle: seq<nat>)
    requires WaitCycle(s, cycle)
    ensures forall k :: 0 <= k < |cycle| ==> cycle[k] in s.txs
  {
    forall k | 0 <= k < |cycle|
      ensures cycle[k] in s.txs
    {
      if k < |cycle| - 1 {
        assert Waits(s, cycle[k], cycle[k + 1]);
      } else {
        assert Waits(s, cycle[0], cycle[1]);
      }
    }
  }

  /** In every state any interleaving reaches. */
  lemma {:induction false} NeverDeadlocked(db: Db, es: seq<Event>, cycle: seq<nat>)
    requires Valid(db)
    requires var s := Execute(Sys(db, map[], []), es);
      forall k :: 0 <= k < |cycle| && cycle[k] in s.txs ==> Ordered(s.txs[cycle[k]])
    ensures !WaitCycle(Execute(Sys(db, map[], []), es), cycle)
  {
    hide Consistent, Execute, WaitCycle, Ordered, Valid;
    Serializable(db, es);
    NoDeadlock(Execute(Sys(db, map[], []), es), cycle);
  }
}
