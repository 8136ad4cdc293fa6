/** Which two requests can wait for each other forever: run alone, each must get to a
    point where it needs next a user that the other, at such a point of its own, has
    already locked. How far a request gets alone is read off the database and, for a
    settlement, the order in which its bets come back. */
module Crossing {
  import opened Int64
  import opened Sums
  import opened Tables
  import opened Wrappers
  import opened Settlement
  import opened Transactions
  import opened Invariants
  import opened Accounting
  import opened AnyOrder
  import Runs
  import opened Locking
  import opened Isolation
  import opened Guards
  import opened Serializability
  import opened Deadlock
  import opened Pairs
  import opened Interlock

  /** Which of the two settlements may go on to pay. */
  predicate Payable(db: Db, r: Request) {
    match r
    case RefundMarket(m) => m < |db.markets| && Live(db.markets[m].status)
    case ResolveMarket(m, o) =>
      m < |db.markets| && ResolveGuard(db.markets[m], o) == None && PoolOf(db.pools, PoolKey(m, o)) > 0
    case _ => false
  }

  /** The bets it pays on. */
  function PaidBets(db: Db, r: Request): seq<Holding> {
    match r
    case RefundMarket(m) => Holders(db.bets, m)
    case ResolveMarket(m, o) => Winners(db.bets, m, o)
    case _ => []
  }

  /** What it credits when those come back as `rows`. */
  function CreditsFor(db: Db, r: Request, rows: seq<Holding>): seq<Credit>
    requires Payable(db, r)
  {
    if r.RefundMarket? then Refunds(rows) else PayoutCredits(db, r.market, r.outcome, rows)
  }

  /** The users a request locks, in order. */
  function UsersLocked(db: Db, r: Request, rows: seq<Holding>): seq<UserId> {
    if r.BuyBet? && r.listing < |db.listings| then
      [Low(db.listings[r.listing], r.buyer), High(db.listings[r.listing], r.buyer)]
    else if Payable(db, r) then UsersOf(CreditsFor(db, r, rows))
    else []
  }

  /** Alone, it gets as far as having locked `i` of them. */
  predicate Comes(db: Db, r: Request, rows: seq<Holding>, i: nat) {
    if r.BuyBet? then rows == [] && i <= 1 && Buyable(db, r.listing, r.buyer)
    else
      && Payable(db, r) && multiset(rows) == multiset(PaidBets(db, r))
      && i <= |CreditsFor(db, r, rows)| && Postable(db.balances, CreditsFor(db, r, rows)[..i])
  }

  // -------------------------------------------------------- a program in flight

  lemma FirstMarket(db: Db, tx: Tx)
    requires Running(db, tx) && Settles(tx.request) && |tx.log| > 0
    ensures tx.log[0] == MarketIs(Get(db.markets, tx.request.market))
  {
    hide Running, View, Views, Written, NoInserts, Ran, StatementAt, RefundCreditsRead, ResolveCreditsRead, MarketRead;
    StatementIs(db, tx, 0);
    if tx.request.RefundMarket? {
      RefundViews(db, tx.request, tx.log);
    } else {
      ResolveViews(db, tx.request, tx.log);
    }
  }

  lemma RefundReads(db: Db, tx: Tx)
    requires Running(db, tx) && tx.request.RefundMarket? && |tx.log| >= 3
    ensures Payable(db, tx.request) && CreditsRead(tx) == CreditsFor(db, tx.request, RowsRead(tx))
    ensures multiset(RowsRead(tx)) == multiset(PaidBets(db, tx.request))
  {
    hide Replays, View, Views, Written, NoInserts, Ran, StatementAt, RefundCreditsRead, MarketRead, Holders, Refunds;
    FirstMarket(db, tx);
    StatementIs(db, tx, 2);
    RefundViews(db, tx.request, tx.log);
    StillRunning(db, tx, 1);
    ReadRefunds(tx);
  }

  lemma ReadRefunds(tx: Tx)
    requires tx.request.RefundMarket? && |tx.log| > 2 && tx.log[2].HoldingsAre?
    ensures CreditsRead(tx) == Refunds(tx.log[2].holdings)
  {
    hide Refunds;
  }

  lemma ResolveReads(db: Db, tx: Tx)
    requires Running(db, tx) && tx.request.ResolveMarket? && |tx.log| >= 4
    ensures Payable(db, tx.request) && CreditsRead(tx) == CreditsFor(db, tx.request, RowsRead(tx))
    ensures multiset(RowsRead(tx)) == multiset(PaidBets(db, tx.request))
  {
    hide Replays, View, Views, Written, NoInserts, Ran, StatementAt, ResolveCreditsRead, Winners, PoolsOn, PoolOf,
        SettlementCredits, TotalRead, TotalPool;
    var m := tx.request.market;
    FirstMarket(db, tx);
    StatementIs(db, tx, 2);
    StatementIs(db, tx, 3);
    ResolveViews(db, tx.request, tx.log);
    StillRunning(db, tx, 3);
    TotalReadIs(db, m);
    ReadPayouts(tx);
  }

  lemma ReadPayouts(tx: Tx)
    requires tx.request.ResolveMarket? && |tx.log| > 3 && tx.log[2].PoolsAre? && tx.log[3].HoldingsAre?
    requires PoolOf(tx.log[2].pools, PoolKey(tx.request.market, tx.request.outcome)) > 0
    ensures var m, pools := tx.request.market, tx.log[2].pools;
      CreditsRead(tx) == SettlementCredits(TotalRead(pools, m, MarketRead(tx.log).outcomes),
          PoolOf(pools, PoolKey(m, tx.request.outcome)), tx.log[3].holdings)
  {
    hide SettlementCredits, TotalRead, PoolOf;
  }

  lemma SettlementPays(db: Db, tx: Tx)
    requires Running(db, tx) && Settles(tx.request) && 0 <= UsersHeld(tx) <= |CreditsRead(tx)|
    ensures Postable(db.balances, CreditsRead(tx)[..UsersHeld(tx)])
  {
    hide Running, View, Views, Written, NoInserts, Ran, StatementAt, CreditsRead, ScriptOf, Postable, Effect;
    var script, first, credits := ScriptOf(tx.request, tx.log), First(tx.request), CreditsRead(tx);
    SettlementShape(tx);
    SettlementViews(db, tx);
    NothingFailed(db, tx);
    forall j | first <= j < |tx.log| ensures Ask(Views(db, script)[j], script[j]) != Failed {
      StatementIs(db, tx, j);
    }
    CreditViews(db, script, first, credits, script[|script| - 1], UsersHeld(tx));
  }

  /** Where a program in flight is, it could have come alone. */
  lemma ComesFrom(db: Db, tx: Tx)
    requires Running(db, tx) && Trades(tx.request) && Next(tx.request, tx.log).Run?
    requires 0 <= UsersHeld(tx) < |Users(tx)|
    ensures Comes(db, tx.request, RowsRead(tx), UsersHeld(tx))
    ensures UsersLocked(db, tx.request, RowsRead(tx)) == Users(tx)
  {
    hide Replays, Next, Buyable, CreditsFor, PaidBets, CreditsRead, Payable, Postable, ListingRead;
    if tx.request.BuyBet? {
      BuyBetReplies(db, tx);
      BuyReads(db, tx);
      BuyRuns(tx);
      BuyBetChecks(db, tx.request, tx.log);
    } else {
      if tx.request.RefundMarket? {
        RefundReads(db, tx);
      } else {
        ResolveReads(db, tx);
      }
      SettlementPays(db, tx);
    }
  }

  lemma BuyRuns(tx: Tx)
    requires tx.request.BuyBet? && Next(tx.request, tx.log).Run?
    ensures NextBuyBet(tx.request.listing, tx.request.buyer, tx.log).Run? && |Users(tx)| == 2
  {
    hide NextBuyBet, ListingRead;
  }

  // ---------------------------------------------------------- a program on its own

  /** Replies that answer a script's statements one after another are a transaction. */
  lemma {:induction false} ScriptRuns(db: Db, tx: Tx, script: seq<Statement>, n: nat)
    requires Follows(tx, script) && n <= |tx.log|
    requires forall j :: 0 <= j < |tx.log| ==> Answers(Views(db, script)[j], script[j], tx.log[j])
    ensures Replays(db, Cut(tx, n))
  {
    hide Next, Answers, Views, View, Written, Inserts, Replays, Ask;
    if n == 0 {
      NothingReplays(db, Cut(tx, 0));
    } else {
      var cut := Cut(tx, n - 1);
      ScriptRuns(db, tx, script, n - 1);
      forall j | 0 <= j < |cut.log| ensures Next(cut.request, cut.log[..j]) == Run(script[j]) {
        assert cut.log[..j] == tx.log[..j];
      }
      assert Follows(cut, script);
      ScriptReplies(db, cut, script, n - 1);
      ToldReplays(db, cut, tx.log[n - 1]);
      assert cut.log + [tx.log[n - 1]] == tx.log[..n];
    }
  }

  lemma NothingReplays(db: Db, tx: Tx)
    requires tx.log == []
    ensures Replays(db, tx)
  {
  }

  /** The replies to a purchase that has locked `i` users. */
  function BuyLog(db: Db, l: ListingId, buyer: UserId, i: nat): (log: seq<Reply>)
    requires Buyable(db, l, buyer) && Low(db.listings[l], buyer) < |db.balances|
    ensures |log| == if i == 0 then 4 else 5
  {
    var listing := db.listings[l];
    [MarketId(Some(listing.market)), MarketIs(Some(db.markets[listing.market])), ListingIs(Some(listing)),
     BetIs(Some(db.bets[listing.bet]))]
    + (if i == 0 then [] else [ValueIs(Some(db.balances[Low(listing, buyer)]))])
  }

  lemma BuyGoesOn(db: Db, l: ListingId, buyer: UserId, log: seq<Reply>)
    requires Buyable(db, l, buyer) && Low(db.listings[l], buyer) < |db.balances|
    requires log <= BuyLog(db, l, buyer, 1)
    ensures Next(BuyBet(l, buyer), log).Run?
  {
    var full := BuyLog(db, l, buyer, 1);
    assert forall k :: 0 <= k < |log| ==> log[k] == full[k];
  }

  lemma BuyAnswers(db: Db, l: ListingId, buyer: UserId, i: nat)
    requires Buyable(db, l, buyer) && Low(db.listings[l], buyer) < |db.balances| && i <= 1
    ensures var r, log := BuyBet(l, buyer), BuyLog(db, l, buyer, i);
      && (forall j :: 0 <= j < |log| ==> log[j] == Ask(db, BuyBetScript(r, log)[j]))
      && Users(Tx(r, log)) == UsersLocked(db, r, [])
  {
  }

  lemma BuyLogFollows(db: Db, l: ListingId, buyer: UserId, i: nat)
    requires Buyable(db, l, buyer) && Low(db.listings[l], buyer) < |db.balances| && i <= 1
    ensures var r, log := BuyBet(l, buyer), BuyLog(db, l, buyer, i);
      Follows(Tx(r, log), BuyBetScript(r, log)) && Next(r, log).Run?
  {
    hide Inserts, Next, Buyable;
    var r, log := BuyBet(l, buyer), BuyLog(db, l, buyer, i);
    NoInsertsToBuy(r, log);
    forall j | 0 <= j <= |log| ensures Next(r, log[..j]) == Run(BuyBetScript(r, log)[j]) {
      BuyGoesOn(db, l, buyer, log[..j]);
      BuyStatement(r, log, j);
    }
    assert log[..|log|] == log;
  }

  lemma BuyStatement(r: Request, log: seq<Reply>, j: nat)
    requires r.BuyBet? && j <= |log| && j < 6 && Next(r, log[..j]).Run?
    ensures Next(r, log[..j]) == Run(BuyBetScript(r, log)[j])
  {
  }

  lemma BuyComesTo(db: Db, r: Request, i: nat) returns (tx: Tx)
    requires Valid(db) && r.BuyBet? && Comes(db, r, [], i)
    ensures Running(db, tx) && Next(tx.request, tx.log).Run?
    ensures tx.request == r && RowsRead(tx) == [] && UsersHeld(tx) == i && Users(tx) == UsersLocked(db, r, [])
  {
    hide Next, Replays, Follows, BuyLog, Views, Ask, Buyable, Valid, Users, UsersLocked;
    LowExists(db, r.listing, r.buyer);
    var log := BuyLog(db, r.listing, r.buyer, i);
    tx := Tx(r, log);
    BuyLogFollows(db, r.listing, r.buyer, i);
    BuyAnswers(db, r.listing, r.buyer, i);
    BuyBetViews(db, r, log);
    ScriptRuns(db, tx, BuyBetScript(r, log), |log|);
    assert Cut(tx, |log|) == tx;
  }

  /** The smaller of buyer and seller is no larger than the seller, who exists. */
  lemma LowExists(db: Db, l: ListingId, buyer: UserId)
    requires Valid(db) && Buyable(db, l, buyer)
    ensures Low(db.listings[l], buyer) < |db.balances|
  {
    assert BetOk(db, db.bets[db.listings[l].bet]);
  }

  /** As long as the credits can be posted, none of the updates fails. */
  lemma {:induction false} CreditsGoOn(db: Db, script: seq<Statement>, from: nat, credits: seq<Credit>,
      last: Statement, i: nat)
    requires PaysThen(script, from, credits, last) && i <= |credits|
    requires Postable(Views(db, script)[from].balances, credits[..i])
    ensures forall j :: from <= j < from + i ==> Ask(Views(db, script)[j], script[j]) != Failed
  {
    hide Postable, Post, Views;
    if i > 0 {
      var balances, n := Views(db, script)[from].balances, i - 1;
      assert credits[..i][..n] == credits[..n];
      PrefixPostable(balances, credits[..n], credits[..i]);
      CreditsGoOn(db, script, from, credits, last, n);
      CreditViews(db, script, from, credits, last, n);
      PostStep(balances, credits[..i], n);
    }
  }

  /** The replies to the reads of a settlement. */
  function ReadsOf(db: Db, r: Request, rows: seq<Holding>): (log: seq<Reply>)
    requires Settles(r) && Payable(db, r)
    ensures |log| == First(r)
  {
    [MarketIs(Some(db.markets[r.market])), Withdrew(ListedOn(db.listings, r.market))]
    + (if r.RefundMarket? then [] else [PoolsAre(PoolsOn(db.pools, r.market))])
    + [HoldingsAre(rows)]
  }

  /** And then to `i` credits. */
  function PaidLog(db: Db, r: Request, rows: seq<Holding>, i: nat): (log: seq<Reply>)
    requires Settles(r) && Payable(db, r) && First(r) + i <= |ScriptOf(r, ReadsOf(db, r, rows))|
    ensures |log| == First(r) + i && ReadsOf(db, r, rows) <= log
  {
    var start := ReadsOf(db, r, rows);
    var script := ScriptOf(r, start);
    start + seq(i, k requires 0 <= k < i => Ask(Views(db, script)[|start| + k], script[|start| + k]))
  }

  /** The first replies to a settlement that has made at most these credits, none of
      which has failed. */
  predicate OnTheWay(db: Db, r: Request, rows: seq<Holding>, log: seq<Reply>)
    requires Settles(r) && Payable(db, r)
  {
    && |log| <= First(r) + |CreditsFor(db, r, rows)|
    && (forall k :: 0 <= k < |log| && k < First(r) ==> log[k] == ReadsOf(db, r, rows)[k])
    && (forall k :: First(r) <= k < |log| ==> log[k] != Failed)
  }

  lemma RefundGoesOn(db: Db, r: Request, rows: seq<Holding>, log: seq<Reply>)
    requires r.RefundMarket? && Payable(db, r) && OnTheWay(db, r, rows, log)
    ensures NextRefundMarket(r.market, log).Run?
  {
    hide Refunds, ListedOn, PoolsOn, Holders;
  }

  lemma ResolveGoesOn(db: Db, r: Request, rows: seq<Holding>, log: seq<Reply>)
    requires r.ResolveMarket? && Payable(db, r) && OnTheWay(db, r, rows, log)
    ensures NextResolveMarket(r.market, r.outcome, log).Run?
  {
    hide SettlementCredits, TotalRead, TotalPool, ListedOn, PoolsOn, Winners, PoolOf;
    TotalReadIs(db, r.market);
  }

  /** What is read decides what is credited. */
  lemma ReadsDecide(db: Db, r: Request, rows: seq<Holding>, log: seq<Reply>)
    requires Settles(r) && Payable(db, r) && ReadsOf(db, r, rows) <= log
    ensures CreditsRead(Tx(r, log)) == CreditsFor(db, r, rows) && RowsRead(Tx(r, log)) == rows
    ensures ScriptOf(r, log) == ScriptOf(r, ReadsOf(db, r, rows))
  {
    hide Refunds, SettlementCredits, TotalRead, TotalPool, ListedOn, PoolsOn, PoolOf;
    var start := ReadsOf(db, r, rows);
    assert forall k :: 0 <= k < |start| ==> log[k] == start[k];
    TotalReadIs(db, r.market);
  }

  lemma SettlementFollows(db: Db, r: Request, rows: seq<Holding>, log: seq<Reply>)
    requires Settles(r) && Payable(db, r) && ReadsOf(db, r, rows) <= log && OnTheWay(db, r, rows, log)
    ensures Follows(Tx(r, log), ScriptOf(r, log)) && Next(r, log).Run?
  {
    hide NextRefundMarket, NextResolveMarket, Payable, ReadsOf, CreditsFor, RefundScript, ResolveScript, CreditsRead;
    ReadsDecide(db, r, rows, log);
    SettlementShape(Tx(r, log));
    forall j | 0 <= j <= |log|
      ensures j < |ScriptOf(r, log)| && Next(r, log[..j]) == Run(ScriptOf(r, log)[j])
    {
      if r.RefundMarket? {
        RefundGoesOn(db, r, rows, log[..j]);
        RefundStatement(r, log, j);
      } else {
        ResolveGoesOn(db, r, rows, log[..j]);
        ResolveStatement(r, log, j);
      }
    }
    assert log[..|log|] == log;
  }

  /** The reads get these answers, a query of bets its own in any order. */
  lemma RefundAnswers(db: Db, r: Request, rows: seq<Holding>, log: seq<Reply>)
    requires r.RefundMarket? && Payable(db, r) && ReadsOf(db, r, rows) <= log
    requires multiset(rows) == multiset(PaidBets(db, r))
    ensures var script := ScriptOf(r, log);
      3 <= |script| && forall j :: 0 <= j < 3 ==> Answers(Views(db, script)[j], script[j], log[j])
  {
    hide Views, RefundCreditsRead, MarketRead, WithdrawAll, PaysThen, Holders, ListedOn, PoolsOn;
    var start := ReadsOf(db, r, rows);
    assert forall k :: 0 <= k < |start| ==> log[k] == start[k];
    RefundViews(db, r, log);
  }

  lemma ResolveAnswers(db: Db, r: Request, rows: seq<Holding>, log: seq<Reply>)
    requires r.ResolveMarket? && Payable(db, r) && ReadsOf(db, r, rows) <= log
    requires multiset(rows) == multiset(PaidBets(db, r))
    ensures var script := ScriptOf(r, log);
      4 <= |script| && forall j :: 0 <= j < 4 ==> Answers(Views(db, script)[j], script[j], log[j])
  {
    hide Views, ResolveCreditsRead, MarketRead, WithdrawAll, PaysThen, Winners, ListedOn, PoolsOn, PoolOf;
    var start := ReadsOf(db, r, rows);
    assert forall k :: 0 <= k < |start| ==> log[k] == start[k];
    ResolveViews(db, r, log);
  }

  lemma SettlementComesTo(db: Db, r: Request, rows: seq<Holding>, i: nat) returns (tx: Tx)
    requires Settles(r) && Comes(db, r, rows, i)
    ensures Running(db, tx) && Next(tx.request, tx.log).Run?
    ensures tx.request == r && RowsRead(tx) == rows && UsersHeld(tx) == i && Users(tx) == UsersLocked(db, r, rows)
  {
    hide Next, Replays, Follows, Views, Ask, Payable, CreditsFor, PaidBets, ReadsOf, ScriptOf, CreditsRead, Postable;
    var start, credits := ReadsOf(db, r, rows), CreditsFor(db, r, rows);
    var script := ScriptOf(r, start);
    SettlementShape(Tx(r, start));
    ReadsDecide(db, r, rows, start);
    var log := PaidLog(db, r, rows, i);
    tx := Tx(r, log);
    ReadsDecide(db, r, rows, log);
    SettlementViews(db, tx);
    CreditsGoOn(db, script, First(r), credits, script[|script| - 1], i);
    assert forall k :: 0 <= k < First(r) ==> log[k] == start[k];
    SettlementFollows(db, r, rows, log);
    if r.RefundMarket? {
      RefundAnswers(db, r, rows, log);
    } else {
      ResolveAnswers(db, r, rows, log);
    }
    ScriptRuns(db, tx, script, |log|);
    assert Cut(tx, |log|) == tx;
  }

  lemma ComesTo(db: Db, r: Request, rows: seq<Holding>, i: nat) returns (tx: Tx)
    requires Valid(db) && Comes(db, r, rows, i)
    ensures Trades(r) && Running(db, tx) && Next(tx.request, tx.log).Run?
    ensures tx.request == r && RowsRead(tx) == rows && UsersHeld(tx) == i && Users(tx) == UsersLocked(db, r, rows)
  {
    hide Running, Next, CreditsFor, PaidBets, Buyable, Postable, UsersLocked, Users;
    if r.BuyBet? {
      tx := BuyComesTo(db, r, i);
    } else {
      tx := SettlementComesTo(db, r, rows, i);
    }
  }

  // -------------------------------------------------------------------- the theorem

  lemma Closes(db: Db, c: Call)
    requires c.request.BuyBet? && Runs.Commits(db, c)
    ensures var l, after := c.request.listing, Runs.Next(db, c);
      l < |after.listings| && after.listings[l].status != Listed
  {
    hide Possible;
  }

  lemma RefundSettles(db: Db, c: Call)
    requires c.request.RefundMarket? && Runs.Commits(db, c)
    ensures Runs.Settled(Runs.Next(db, c), c.request.market)
  {
    hide Possible, Holders, Refunds, Post, Postable, WithdrawAll;
  }

  lemma ResolveSettles(db: Db, c: Call)
    requires c.request.ResolveMarket? && Runs.Commits(db, c)
    ensures Runs.Settled(Runs.Next(db, c), c.request.market)
  {
    hide Possible, Winners, PayoutCredits, Post, Postable, WithdrawAll;
  }

  lemma SettledIsNotPayable(db: Db, r: Request)
    requires Settles(r) && Runs.Settled(db, r.market)
    ensures !Payable(db, r)
  {
  }

  /** A request that has committed does not get anywhere again. */
  lemma CommittedIsOver(db: Db, c: Call, rows: seq<Holding>, i: nat)
    requires Runs.Commits(db, c)
    ensures !Comes(Runs.Next(db, c), c.request, rows, i)
  {
    hide Runs.Commits, Runs.Next, Runs.Settled, PaidBets, CreditsFor, Postable, Payable;
    if c.request.BuyBet? {
      Closes(db, c);
    } else if Settles(c.request) {
      if c.request.RefundMarket? {
        RefundSettles(db, c);
      } else {
        ResolveSettles(db, c);
      }
      SettledIsNotPayable(Runs.Next(db, c), c.request);
    } else {
      OnlySettlementsPay(Runs.Next(db, c), c.request);
    }
  }

  lemma OnlySettlementsPay(db: Db, r: Request)
    requires !Settles(r)
    ensures !Payable(db, r)
  {
  }

  lemma LastCommits(db: Db, done: seq<Call>)
    requires |done| > 0 && AllCommit(db, done)
    ensures var n := |done| - 1;
      && Runs.Commits(Runs.After(db, done[..n]), done[n])
      && Runs.After(db, done) == Runs.Next(Runs.After(db, done[..n]), done[n])
  {
    hide Apply, Possible;
  }

  /** Both get there, about different markets, and there each needs a user the other
      has locked. */
  predicate MeetAt(db: Db, ra: Request, rowsA: seq<Holding>, i: nat, rb: Request, rowsB: seq<Holding>, j: nat) {
    && MarketOf(db, ra) != MarketOf(db, rb) && Comes(db, ra, rowsA, i) && Comes(db, rb, rowsB, j)
    && Crosses(UsersLocked(db, ra, rowsA), i, UsersLocked(db, rb, rowsB), j)
  }

  /** Some run of the two reaches a wait cycle, their bets having come back like this. */
  ghost predicate DeadlocksOn(db: Db, ra: Request, rowsA: seq<Holding>, rb: Request, rowsB: seq<Holding>) {
    exists es: seq<Event>, cycle: seq<nat> ::
      OnlyThese(es, ra, rb) && StuckOn(Execute(Sys(db, map[], []), es), cycle, rowsA, rowsB)
  }

  ghost predicate StuckOn(s: Sys, cycle: seq<nat>, rowsA: seq<Holding>, rowsB: seq<Holding>) {
    && WaitCycle(s, cycle) && FIRST in s.txs && SECOND in s.txs
    && RowsRead(s.txs[FIRST]) == rowsA && RowsRead(s.txs[SECOND]) == rowsB
  }

  lemma InterlockedRun(db: Db, a: Tx, b: Tx)
    requires Interlocked(db, a, b)
    ensures Running(db, a) && Next(a.request, a.log).Run? && Running(db, b) && Next(b.request, b.log).Run?
  {
    hide Running, Compatible, Next, Ask, View, Locks, Holds;
  }

  lemma InterlockedMeet(db: Db, a: Tx, b: Tx)
    requires Valid(db) && Interlocked(db, a, b)
    ensures UsersHeld(a) >= 0 && UsersHeld(b) >= 0
    ensures MeetAt(db, a.request, RowsRead(a), UsersHeld(a), b.request, RowsRead(b), UsersHeld(b))
  {
    hide Valid, Running, Interlocked, Comes, UsersLocked, Users, RowsRead, Next, UsersHeld, MarketOf;
    InterlockedRun(db, a, b);
    InterlockedCrosses(db, a, b);
    ComesFrom(db, a);
    ComesFrom(db, b);
  }

  /** In whatever state the two are found in a wait cycle, neither has committed, and
      each is where it could have come alone. */
  lemma CyclesMeet(db: Db, es: seq<Event>, cycle: seq<nat>, ra: Request, rb: Request)
    requires Valid(db) && OnlyThese(es, ra, rb) && WaitCycle(Execute(Sys(db, map[], []), es), cycle)
    ensures var s := Execute(Sys(db, map[], []), es);
      && s.txs.Keys == {FIRST, SECOND} && s.done == [] && s.db == db
      && UsersHeld(s.txs[FIRST]) >= 0 && UsersHeld(s.txs[SECOND]) >= 0
      && MeetAt(db, ra, RowsRead(s.txs[FIRST]), UsersHeld(s.txs[FIRST]), rb, RowsRead(s.txs[SECOND]),
          UsersHeld(s.txs[SECOND]))
  {
    hide Valid, Execute, OnlyThese, WaitCycle, Interlocked, Consistent, UsersHeld, RowsRead, Comes, Crosses, AllCommit;
    var s := Execute(Sys(db, map[], []), es);
    CycleIsInterlocked(db, es, cycle, ra, rb);
    assert Valid(s.db) by { ConsistentIsValid(s); }
    InterlockedMeet(s.db, s.txs[FIRST], s.txs[SECOND]);
    if |s.done| > 0 {
      var n := |s.done| - 1;
      LastCommits(db, s.done);
      assert s.done[n] in s.done;
      var tx := s.txs[if s.done[n].request == ra then FIRST else SECOND];
      CommittedIsOver(Runs.After(db, s.done[..n]), s.done[n], RowsRead(tx), UsersHeld(tx));
    }
  }

  lemma ConsistentIsValid(s: Sys)
    requires Consistent(s)
    ensures Valid(s.db)
  {
    hide Valid;
  }

  lemma MeetingDeadlocks(db: Db, ra: Request, rowsA: seq<Holding>, i: nat, rb: Request, rowsB: seq<Holding>, j: nat)
    requires Valid(db) && MeetAt(db, ra, rowsA, i, rb, rowsB, j)
    ensures DeadlocksOn(db, ra, rowsA, rb, rowsB)
  {
    hide Valid, Running, Next, Comes, UsersLocked, Users, RowsRead, Interlocked, Execute, OnlyThese, WaitCycle;
    var a := ComesTo(db, ra, rowsA, i);
    var b := ComesTo(db, rb, rowsB, j);
    CrossingInterlocks(db, a, b);
    var es := InterlockedGetsStuck(db, a, b);
    assert StuckOn(Execute(Sys(db, map[], []), es), [FIRST, SECOND, FIRST], rowsA, rowsB);
  }

  /** Two requests, their bets coming back in these orders, can end up waiting for each
      other if and only if they are about different markets and run alone each gets to a
      point where it needs a user the other has locked at such a point - whether they
      would go on to commit or to roll back. */
  lemma DeadlockIff(db: Db, ra: Request, rowsA: seq<Holding>, rb: Request, rowsB: seq<Holding>)
    requires Valid(db)
    ensures DeadlocksOn(db, ra, rowsA, rb, rowsB) <==> exists i, j :: MeetAt(db, ra, rowsA, i, rb, rowsB, j)
  {
    hide Valid, MeetAt, Execute, OnlyThese, WaitCycle, RowsRead, UsersHeld;
    if DeadlocksOn(db, ra, rowsA, rb, rowsB) {
      var es: seq<Event>, cycle: seq<nat> :|
        OnlyThese(es, ra, rb) && StuckOn(Execute(Sys(db, map[], []), es), cycle, rowsA, rowsB);
      CyclesMeet(db, es, cycle, ra, rb);
    }
    if i, j :| MeetAt(db, ra, rowsA, i, rb, rowsB, j) {
      MeetingDeadlocks(db, ra, rowsA, i, rb, rowsB, j);
    }
  }

  /** Some run of the two reaches a wait cycle. */
  ghost predicate CanDeadlock(db: Db, ra: Request, rb: Request) {
    exists es: seq<Event>, cycle: seq<nat> ::
      OnlyThese(es, ra, rb) && WaitCycle(Execute(Sys(db, map[], []), es), cycle)
  }

  /** The rows coming back in an order of nobody's choosing. */
  lemma CanDeadlockIff(db: Db, ra: Request, rb: Request)
    requires Valid(db)
    ensures CanDeadlock(db, ra, rb) <==> exists rowsA, i, rowsB, j :: MeetAt(db, ra, rowsA, i, rb, rowsB, j)
  {
    hide Valid, MeetAt, Execute, OnlyThese, WaitCycle, RowsRead, UsersHeld;
    if CanDeadlock(db, ra, rb) {
      var es: seq<Event>, cycle: seq<nat> :| OnlyThese(es, ra, rb) && WaitCycle(Execute(Sys(db, map[], []), es), cycle);
      CyclesMeet(db, es, cycle, ra, rb);
    }
    if rowsA, i, rowsB, j :| MeetAt(db, ra, rowsA, i, rb, rowsB, j) {
      MeetingDeadlocks(db, ra, rowsA, i, rb, rowsB, j);
      var es: seq<Event>, cycle: seq<nat> :|
        OnlyThese(es, ra, rb) && StuckOn(Execute(Sys(db, map[], []), es), cycle, rowsA, rowsB);
    }
  }

  // ----------------------------------------------------------- who owns which bets

  predicate OwnsOn(db: Db, m: MarketId, u: UserId) {
    exists b :: 0 <= b < |db.bets| && db.bets[b].market == m && db.bets[b].owner == u
  }

  /** A bet of theirs whose refund the balance column has room for. */
  predicate FitsOn(db: Db, m: MarketId, u: UserId) {
    && u < |db.balances|
    && exists b :: 0 <= b < |db.bets| && db.bets[b].market == m && db.bets[b].owner == u &&
        db.balances[u] + db.bets[b].stake <= MAX
  }

  lemma {:induction false} HolderIs(bets: seq<Bet>, m: MarketId, h: Holding)
    ensures h in Holders(bets, m) <==>
      exists b :: 0 <= b < |bets| && bets[b].market == m && bets[b].owner == h.owner && bets[b].stake == h.stake
  {
    if |bets| > 0 {
      var n := |bets| - 1;
      HolderIs(bets[..n], m, h);
      hide Holders;
      LastHolder(bets, m);
      if b :| 0 <= b < n && bets[b].market == m && bets[b].owner == h.owner && bets[b].stake == h.stake {
        assert bets[..n][b] == bets[b];
      }
      if bets[n].market == m {
        var last := Holding(bets[n].owner, bets[n].stake);
        var early := Holders(bets[..n], m);
        assert h in early + [last] <==> h in early || h == last;
      }
    }
  }

  lemma RowIsBet(db: Db, m: MarketId, rows: seq<Holding>, k: nat) returns (b: BetId)
    requires multiset(rows) == multiset(Holders(db.bets, m)) && k < |rows|
    ensures b < |db.bets| && db.bets[b].market == m
    ensures db.bets[b].owner == rows[k].owner && db.bets[b].stake == rows[k].stake
  {
    hide Holders;
    assert rows[k] in multiset(rows);
    assert rows[k] in Holders(db.bets, m);
    HolderIs(db.bets, m, rows[k]);
    b :| 0 <= b < |db.bets| && db.bets[b].market == m && db.bets[b].owner == rows[k].owner &&
      db.bets[b].stake == rows[k].stake;
  }

  /** Whoever has been credited had room for it. */
  lemma CreditedFits(db: Db, m: MarketId, rows: seq<Holding>, j: nat, k: nat)
    requires Valid(db) && Comes(db, RefundMarket(m), rows, j) && k < j
    ensures k < |rows| && FitsOn(db, m, rows[k].owner)
  {
    hide Valid, Payable, Holders, Post, Refunds;
    var credits, balances := Refunds(rows), db.balances;
    RefundsSize(rows);
    RefundFacts(db, m, rows);
    RowsPositive(db, m, rows);
    RefundAmounts(rows);
    WithinValid(db) by { ValidBalances(db); }
    PostableIff(balances, credits[..k]);
    PostStep(balances, credits, k);
    assert credits[..j][..k + 1] == credits[..k + 1] && credits[..j][k] == credits[k];
    var b := RowIsBet(db, m, rows, k);
  }

  lemma ValidBalances(db: Db)
    requires Valid(db)
    ensures BalancesOk(db)
  {
  }

  lemma RefundAmounts(rows: seq<Holding>)
    ensures |Refunds(rows)| == |rows|
    ensures forall k :: 0 <= k < |rows| ==> Refunds(rows)[k] == Credit(rows[k].owner, rows[k].stake)
  {
  }

  lemma RowsPositive(db: Db, m: MarketId, rows: seq<Holding>)
    requires Valid(db) && multiset(rows) == multiset(Holders(db.bets, m))
    ensures forall k :: 0 <= k < |rows| ==> rows[k].stake > 0
  {
    hide Holders;
    forall k | 0 <= k < |rows| ensures rows[k].stake > 0 {
      var b := RowIsBet(db, m, rows, k);
      assert BetOk(db, db.bets[b]);
    }
  }

  /** Rows may come back with any of them first. */
  lemma AnyFirst(rows: seq<Holding>, k: nat)
    requires k < |rows|
    ensures multiset([rows[k]] + rows[..k] + rows[k + 1..]) == multiset(rows)
  {
    assert rows == rows[..k] + [rows[k]] + rows[k + 1..];
  }

  lemma BetIsRow(db: Db, m: MarketId, b: BetId) returns (k: nat)
    requires b < |db.bets| && db.bets[b].market == m
    ensures k < |Holders(db.bets, m)| && Holders(db.bets, m)[k] == Holding(db.bets[b].owner, db.bets[b].stake)
  {
    hide Holders;
    var h := Holding(db.bets[b].owner, db.bets[b].stake);
    HolderIs(db.bets, m, h);
    k :| 0 <= k < |Holders(db.bets, m)| && Holders(db.bets, m)[k] == h;
  }

  /** In particular with a bet of `u` first, one of `v` next. */
  lemma FirstTwo(db: Db, m: MarketId, u: UserId, v: UserId) returns (rows: seq<Holding>)
    requires Payable(db, RefundMarket(m)) && u != v && FitsOn(db, m, u) && OwnsOn(db, m, v) && Valid(db)
    ensures Comes(db, RefundMarket(m), rows, 1) && |rows| > 1 && rows[0].owner == u && rows[1].owner == v
  {
    hide Valid, Holders, Refunds, Post;
    var holders := Holders(db.bets, m);
    var bu :| 0 <= bu < |db.bets| && db.bets[bu].market == m && db.bets[bu].owner == u &&
      db.balances[u] + db.bets[bu].stake <= MAX;
    var bv :| 0 <= bv < |db.bets| && db.bets[bv].market == m && db.bets[bv].owner == v;
    var k := BetIsRow(db, m, bu);
    var n := BetIsRow(db, m, bv);
    AnyFirst(holders, k);
    var others := holders[..k] + holders[k + 1..];
    var t := if n < k then n else n - 1;
    assert others[t] == holders[n];
    AnyFirst(others, t);
    rows := [holders[k]] + ([others[t]] + others[..t] + others[t + 1..]);
    assert [holders[k]] + holders[..k] + holders[k + 1..] == [holders[k]] + others;
    RefundAmounts(rows);
    ValidAmounts(db, u, bu);
    OneCredit(db.balances, u, db.bets[bu].stake);
    assert Refunds(rows)[..1] == [Credit(u, db.bets[bu].stake)];
  }

  lemma ValidAmounts(db: Db, u: UserId, b: BetId)
    requires Valid(db) && u < |db.balances| && b < |db.bets|
    ensures db.balances[u] >= 0 && db.bets[b].stake > 0
  {
    assert BetOk(db, db.bets[b]);
  }

  lemma OneCredit(balances: seq<int>, u: UserId, stake: nat)
    requires u < |balances| && 0 <= balances[u] && balances[u] + stake <= MAX
    ensures Postable(balances, [Credit(u, stake)])
  {
    var credits := [Credit(u, stake)];
    assert credits[..0] == [] && credits[..1] == credits;
    assert Post(balances, []) == balances;
  }

  // --------------------------------------------------------- a purchase and a refund

  /** `hi`, but not `lo`, is among the owners of the first `j` rows. */
  predicate HiBefore(rows: seq<Holding>, hi: UserId, lo: UserId, j: nat)
    requires j <= |rows|
  {
    && (forall k :: 0 <= k < j ==> rows[k].owner != lo)
    && (exists i :: 0 <= i < j && rows[i].owner == hi)
  }

  /** Going through the bets in this order, `hi` is credited before `lo` first is. */
  predicate CreditsFirst(rows: seq<Holding>, hi: UserId, lo: UserId) {
    exists j :: 0 <= j < |rows| && rows[j].owner == lo && HiBefore(rows, hi, lo, j)
  }

  /** The purchase holds its first user and needs its second; the refund has credited
      the second and comes to the first. */
  lemma PurchaseMeetsRefundIff(db: Db, l: ListingId, buyer: UserId, m: MarketId, rows: seq<Holding>, i: nat, j: nat)
    requires l < |db.listings|
    ensures MeetAt(db, BuyBet(l, buyer), [], i, RefundMarket(m), rows, j) <==>
      var lo, hi := Low(db.listings[l], buyer), High(db.listings[l], buyer);
      && i == 1 && Buyable(db, l, buyer) && db.listings[l].market != m && Comes(db, RefundMarket(m), rows, j)
      && j < |rows| && rows[j].owner == lo && HiBefore(rows, hi, lo, j)
  {
    hide Payable, Holders, Refunds, Postable, Low, High, Buyable;
    var lo, hi := Low(db.listings[l], buyer), High(db.listings[l], buyer);
    RefundsSize(rows);
    var ua, ub := UsersLocked(db, BuyBet(l, buyer), []), UsersLocked(db, RefundMarket(m), rows);
    assert ua == [lo, hi] && ua[..1] == [lo] && ua[..0] == [];
    if Payable(db, RefundMarket(m)) && j < |rows| {
      assert |ub| == |rows| && forall k :: 0 <= k < |rows| ==> ub[k] == rows[k].owner;
      assert forall k :: 0 <= k < j ==> ub[..j][k] == rows[k].owner;
      assert hi in ub[..j] <==> exists k :: 0 <= k < j && ub[..j][k] == hi;
    }
  }

  lemma BuyableListing(db: Db, l: ListingId, buyer: UserId)
    requires Buyable(db, l, buyer)
    ensures l < |db.listings| && Low(db.listings[l], buyer) < High(db.listings[l], buyer)
  {
  }

  /** A purchase and a refund of another market can deadlock exactly when nothing stops
      either before it locks its users, the smaller of buyer and seller owns a bet on
      the refunded market, and the larger owns one there that it can be paid back. */
  lemma PurchaseAndRefundIff(db: Db, l: ListingId, buyer: UserId, m: MarketId)
    requires Valid(db)
    ensures CanDeadlock(db, BuyBet(l, buyer), RefundMarket(m)) <==>
      && Buyable(db, l, buyer) && Payable(db, RefundMarket(m)) && db.listings[l].market != m
      && OwnsOn(db, m, Low(db.listings[l], buyer)) && FitsOn(db, m, High(db.listings[l], buyer))
  {
    hide Valid, Payable, PaidBets, CreditsFor, MeetAt, Low, High, Buyable, CanDeadlock, HiBefore, Postable;
    var r, refund := BuyBet(l, buyer), RefundMarket(m);
    CanDeadlockIff(db, r, refund);
    if rowsA, i, rows, j :| MeetAt(db, r, rowsA, i, refund, rows, j) {
      PurchaseComesBare(db, l, buyer, rowsA, i, refund, rows, j);
      BuyableListing(db, l, buyer);
      PurchaseMeetsRefundIff(db, l, buyer, m, rows, i, j);
      HighIsPaid(db, m, rows, High(db.listings[l], buyer), Low(db.listings[l], buyer), j);
    }
    if Buyable(db, l, buyer) {
      BuyableListing(db, l, buyer);
      var lo, hi := Low(db.listings[l], buyer), High(db.listings[l], buyer);
      if Payable(db, refund) && db.listings[l].market != m && OwnsOn(db, m, lo) && FitsOn(db, m, hi) {
        var rows := FirstTwo(db, m, hi, lo);
        assert HiBefore(rows, hi, lo, 1) by { FirstIsBefore(rows, hi, lo); }
        PurchaseMeetsRefundIff(db, l, buyer, m, rows, 1, 1);
      }
    }
  }

  lemma PurchaseComesBare(db: Db, l: ListingId, buyer: UserId, rowsA: seq<Holding>, i: nat, rb: Request,
      rowsB: seq<Holding>, j: nat)
    requires MeetAt(db, BuyBet(l, buyer), rowsA, i, rb, rowsB, j)
    ensures rowsA == [] && Buyable(db, l, buyer)
  {
    hide Buyable, Payable, CreditsFor, PaidBets, Postable;
  }

  lemma FirstIsBefore(rows: seq<Holding>, hi: UserId, lo: UserId)
    requires |rows| > 1 && rows[0].owner == hi && hi != lo
    ensures HiBefore(rows, hi, lo, 1)
  {
  }

  lemma HighIsPaid(db: Db, m: MarketId, rows: seq<Holding>, hi: UserId, lo: UserId, j: nat)
    requires Valid(db) && Comes(db, RefundMarket(m), rows, j) && j < |rows| && rows[j].owner == lo
    requires HiBefore(rows, hi, lo, j)
    ensures OwnsOn(db, m, lo) && FitsOn(db, m, hi)
  {
    hide Valid, Payable, CreditsFor, Postable, Holders;
    var k :| 0 <= k < j && rows[k].owner == hi;
    CreditedFits(db, m, rows, j, k);
    var b := RowIsBet(db, m, rows, j);
  }

  /** Run alone, the purchase and the refund would each commit. */
  predicate BothCommit(db: Db, l: ListingId, buyer: UserId, m: MarketId) {
    BuyBetTx(db, l, buyer).Committed? && RefundMarketTx(db, m).Committed?
  }

  lemma BothGoOn(db: Db, l: ListingId, buyer: UserId, m: MarketId)
    requires BothCommit(db, l, buyer, m)
    ensures Buyable(db, l, buyer) && Payable(db, RefundMarket(m))
    ensures Postable(db.balances, Refunds(Holders(db.bets, m)))
  {
    hide Postable, Holders, Refunds, Post, WithdrawAll;
  }

  /** In any order of its rows, the refund gets through. */
  lemma RefundGetsThrough(db: Db, l: ListingId, buyer: UserId, m: MarketId, rows: seq<Holding>, j: nat)
    requires Valid(db) && BothCommit(db, l, buyer, m) && multiset(rows) == multiset(Holders(db.bets, m)) && j <= |rows|
    ensures Comes(db, RefundMarket(m), rows, j)
  {
    hide Valid, BothCommit, Holders, Payable, Postable, Refunds;
    BothGoOn(db, l, buyer, m);
    RefundFacts(db, m, rows);
    RefundsSize(rows);
    PrefixPostable(db.balances, Refunds(rows)[..j], Refunds(rows));
  }

  /** With the bets coming back in a given order, two that would both commit can
      deadlock if and only if the larger of buyer and seller is credited before the
      smaller. */
  lemma PurchaseAndRefundOrderIff(db: Db, l: ListingId, buyer: UserId, m: MarketId, rows: seq<Holding>)
    requires Valid(db) && BothCommit(db, l, buyer, m) && multiset(rows) == multiset(Holders(db.bets, m))
    ensures l < |db.listings|
    ensures DeadlocksOn(db, BuyBet(l, buyer), [], RefundMarket(m), rows) <==>
      db.listings[l].market != m && CreditsFirst(rows, High(db.listings[l], buyer), Low(db.listings[l], buyer))
  {
    hide Valid, BothCommit, Holders, Payable, MeetAt, Comes, Low, High, Buyable, DeadlocksOn, HiBefore;
    var r, refund := BuyBet(l, buyer), RefundMarket(m);
    BothGoOn(db, l, buyer, m);
    BuyableListing(db, l, buyer);
    var lo, hi := Low(db.listings[l], buyer), High(db.listings[l], buyer);
    DeadlockIff(db, r, [], refund, rows);
    if i, j :| MeetAt(db, r, [], i, refund, rows, j) {
      PurchaseMeetsRefundIff(db, l, buyer, m, rows, i, j);
    }
    if db.listings[l].market != m && CreditsFirst(rows, hi, lo) {
      var j :| 0 <= j < |rows| && rows[j].owner == lo && HiBefore(rows, hi, lo, j);
      RefundGetsThrough(db, l, buyer, m, rows, j);
      PurchaseMeetsRefundIff(db, l, buyer, m, rows, 1, j);
    }
  }

  /** And in no given order, if and only if buyer and seller both own bets on the
      refunded market, which is not that of the bet sold. */
  lemma PurchaseAndRefundDeadlockIff(db: Db, l: ListingId, buyer: UserId, m: MarketId)
    requires Valid(db) && BothCommit(db, l, buyer, m)
    ensures l < |db.listings|
    ensures CanDeadlock(db, BuyBet(l, buyer), RefundMarket(m)) <==>
      db.listings[l].market != m && OwnsOn(db, m, buyer) && OwnsOn(db, m, db.listings[l].seller)
  {
    hide Valid, BothCommit, Payable, Buyable, CanDeadlock, OwnsOn, FitsOn;
    BothGoOn(db, l, buyer, m);
    BuyableListing(db, l, buyer);
    PurchaseAndRefundIff(db, l, buyer, m);
    OwnersFit(db, l, buyer, m, High(db.listings[l], buyer));
  }

  lemma OwnersFit(db: Db, l: ListingId, buyer: UserId, m: MarketId, u: UserId)
    requires Valid(db) && BothCommit(db, l, buyer, m)
    ensures OwnsOn(db, m, u) <==> FitsOn(db, m, u)
  {
    hide Valid, BothCommit, Holders, Comes;
    if b :| 0 <= b < |db.bets| && db.bets[b].market == m && db.bets[b].owner == u {
      var rows := Holders(db.bets, m);
      var k := BetIsRow(db, m, b);
      RefundGetsThrough(db, l, buyer, m, rows, k + 1);
      CreditedFits(db, m, rows, k + 1, k);
    }
  }

  // ------------------------------------------------------------------- two refunds

  /** `u` and `v` each own bets on both markets, and there is room to pay `u` on the
      first and `v` on the second. */
  predicate Entangled(db: Db, m: MarketId, n: MarketId, u: UserId, v: UserId) {
    u != v && FitsOn(db, m, u) && OwnsOn(db, m, v) && FitsOn(db, n, v) && OwnsOn(db, n, u)
  }

  /** Two refunds can deadlock exactly when two users own bets on both markets and
      can be paid crosswise. */
  lemma TwoRefundsDeadlockIff(db: Db, m: MarketId, n: MarketId)
    requires Valid(db)
    ensures CanDeadlock(db, RefundMarket(m), RefundMarket(n)) <==>
      && m != n && Payable(db, RefundMarket(m)) && Payable(db, RefundMarket(n))
      && exists u, v :: Entangled(db, m, n, u, v)
  {
    hide Valid, Payable, MeetAt, CanDeadlock, OwnsOn, FitsOn;
    CanDeadlockIff(db, RefundMarket(m), RefundMarket(n));
    if rowsA, i, rowsB, j :| MeetAt(db, RefundMarket(m), rowsA, i, RefundMarket(n), rowsB, j) {
      RefundsEntangle(db, m, rowsA, i, n, rowsB, j);
    }
    if m != n && Payable(db, RefundMarket(m)) && Payable(db, RefundMarket(n)) {
      if u, v :| Entangled(db, m, n, u, v) {
        var rowsA := FirstTwo(db, m, u, v);
        var rowsB := FirstTwo(db, n, v, u);
        CrosswiseMeet(db, m, rowsA, n, rowsB);
      }
    }
  }

  lemma RefundsEntangle(db: Db, m: MarketId, rowsA: seq<Holding>, i: nat, n: MarketId, rowsB: seq<Holding>, j: nat)
    requires Valid(db) && MeetAt(db, RefundMarket(m), rowsA, i, RefundMarket(n), rowsB, j)
    ensures m != n && Payable(db, RefundMarket(m)) && Payable(db, RefundMarket(n))
    ensures i < |rowsA| && j < |rowsB| && Entangled(db, m, n, rowsB[j].owner, rowsA[i].owner)
  {
    hide Valid, Payable, Holders, Refunds, Postable, OwnsOn, FitsOn;
    RefundsSize(rowsA);
    RefundsSize(rowsB);
    var ua, ub := UsersLocked(db, RefundMarket(m), rowsA), UsersLocked(db, RefundMarket(n), rowsB);
    var k :| 0 <= k < |ub[..j]| && ub[..j][k] == ua[i];
    var t :| 0 <= t < |ua[..i]| && ua[..i][t] == ub[j];
    CreditedFits(db, n, rowsB, j, k);
    CreditedFits(db, m, rowsA, i, t);
    OwnsRow(db, m, rowsA, i);
    OwnsRow(db, n, rowsB, j);
    assert ua[t] != ub[k];
  }

  lemma OwnsRow(db: Db, m: MarketId, rows: seq<Holding>, k: nat)
    requires multiset(rows) == multiset(Holders(db.bets, m)) && k < |rows|
    ensures OwnsOn(db, m, rows[k].owner)
  {
    hide Holders;
    var b := RowIsBet(db, m, rows, k);
  }

  lemma CrosswiseMeet(db: Db, m: MarketId, rowsA: seq<Holding>, n: MarketId, rowsB: seq<Holding>)
    requires m != n && Comes(db, RefundMarket(m), rowsA, 1) && Comes(db, RefundMarket(n), rowsB, 1)
    requires |rowsA| > 1 && |rowsB| > 1 && rowsA[0].owner != rowsA[1].owner
    requires rowsA[0].owner == rowsB[1].owner && rowsA[1].owner == rowsB[0].owner
    ensures MeetAt(db, RefundMarket(m), rowsA, 1, RefundMarket(n), rowsB, 1)
  {
    hide Payable, Holders, Refunds, Postable;
    RefundsSize(rowsA);
    RefundsSize(rowsB);
    var ua, ub := UsersLocked(db, RefundMarket(m), rowsA), UsersLocked(db, RefundMarket(n), rowsB);
    assert ua[..1] == [ua[0]] && ub[..1] == [ub[0]];
  }

  // ------------------------------------------------------------------- an example

  const OPEN_MARKET := Market("q", ["SIM", "NAO"], Open, 0, None)

  /** User 2 bet on both markets, user 1 on the second, and user 2 offers the
      first bet for sale. */
  const EXAMPLE := Db(
    [100, 100, 100],
    [OPEN_MARKET, OPEN_MARKET],
    map[PoolKey(0, "SIM") := 1, PoolKey(0, "NAO") := 0, PoolKey(1, "SIM") := 2, PoolKey(1, "NAO") := 0],
    [Bet(0, 2, 2, "SIM", 1), Bet(1, 2, 2, "SIM", 1), Bet(1, 1, 1, "SIM", 1)],
    [Listing(0, 0, 2, None, 5, Listed)])

  lemma ExamplePools()
    ensures PoolsOk(EXAMPLE) && MarketsOk(EXAMPLE)
  {
    hide Total;
    assert OPEN_MARKET.outcomes[0] == "SIM" && OPEN_MARKET.outcomes[1] == "NAO";
    assert "SIM"[0] != "NAO"[0];
    forall k | k in EXAMPLE.pools ensures PoolOk(EXAMPLE, k) {
      TotalOfThree(EXAMPLE.bets, OnPool(k));
    }
  }

  lemma ExampleRows()
    ensures BalancesOk(EXAMPLE) && BetsOk(EXAMPLE) && ListingsOk(EXAMPLE) && ChainsOk(EXAMPLE) && SeedsOk(EXAMPLE)
  {
    assert OPEN_MARKET.outcomes[0] == "SIM";
    assert EXAMPLE.listings[..0] == [];
  }

  lemma ExampleHolders()
    ensures Holders(EXAMPLE.bets, 1) == [Holding(2, 1), Holding(1, 1)]
  {
    var bs := EXAMPLE.bets;
    assert bs[..2] == [bs[0], bs[1]] && [bs[0], bs[1]][..1] == [bs[0]] && [bs[0]][..0] == [];
    assert Holders([], 1) == [];
    assert Holders([bs[0]], 1) == [];
    assert Holders([bs[0], bs[1]], 1) == [Holding(2, 1)];
  }

  lemma ExamplePurchase()
    ensures BuyBetTx(EXAMPLE, 0, 1).Committed?
  {
  }

  lemma ExampleCredits()
    ensures Refunds([Holding(2, 1), Holding(1, 1)]) == [Credit(2, 1), Credit(1, 1)]
    ensures Postable([100, 100, 100], [Credit(2, 1), Credit(1, 1)])
  {
    var balances, credits := [100, 100, 100], [Credit(2, 1), Credit(1, 1)];
    assert credits[..1] == [Credit(2, 1)] && credits[..2] == credits && [Credit(2, 1)][..0] == [];
    assert Post(balances, []) == balances;
    assert Post(balances, [Credit(2, 1)]) == [100, 100, 101];
    assert Post(balances, credits) == [100, 101, 101];
  }

  /** The situation is an ordinary one, and the bets read oldest first. */
  lemma ExampleDeadlocks()
    ensures Valid(EXAMPLE) && BothCommit(EXAMPLE, 0, 1, 1)
    ensures DeadlocksOn(EXAMPLE, BuyBet(0, 1), [], RefundMarket(1), Holders(EXAMPLE.bets, 1))
  {
    hide MarketsOk, PoolsOk, BetsOk, ListingsOk, ChainsOk, SeedsOk, BalancesOk, Holders, WithdrawAll, Post,
        Postable, Refunds, BuyBetTx, DeadlocksOn;
    ExamplePools();
    ExampleRows();
    ExampleHolders();
    ExamplePurchase();
    ExampleCredits();
    var rows := Holders(EXAMPLE.bets, 1);
    assert rows[0].owner == 2 && rows[1].owner == 1;
    assert HiBefore(rows, 2, 1, 1);
    PurchaseAndRefundOrderIff(EXAMPLE, 0, 1, 1, rows);
  }
}
