/** When two transactions in flight wait for each other. Only purchases and the two
    settlements lock more than one user; two of them are in a circle exactly when
    they are about different markets and each needs next a user the other has
    locked. */
module Interlock {
  import opened Tables
  import opened Settlement
  import opened Transactions
  import opened Invariants
  import opened Locking
  import opened Isolation
  import opened Guards
  import opened Serializability
  import opened Deadlock
  import opened Pairs

  /** The programs that lock several users. */
  predicate Trades(r: Request) { r.BuyBet? || r.RefundMarket? || r.ResolveMarket? }

  predicate Settles(r: Request) { r.RefundMarket? || r.ResolveMarket? }

  /** How many statements come before the first user is locked. */
  function First(r: Request): nat { if r.RefundMarket? then 3 else 4 }

  /** The user a purchase locks first, and the one it locks second. */
  function Low(listing: Listing, buyer: UserId): UserId {
    if buyer < listing.seller then buyer else listing.seller
  }

  function High(listing: Listing, buyer: UserId): UserId {
    if buyer < listing.seller then listing.seller else buyer
  }

  function UsersOf(credits: seq<Credit>): (users: seq<UserId>)
    ensures |users| == |credits| && forall i :: 0 <= i < |users| ==> users[i] == credits[i].user
  {
    seq(|credits|, i requires 0 <= i < |credits| => credits[i].user)
  }

  function CreditsRead(tx: Tx): seq<Credit>
    requires Settles(tx.request)
  {
    if tx.request.RefundMarket? then RefundCreditsRead(tx.log) else ResolveCreditsRead(tx.request, tx.log)
  }

  /** The users a program locks, in order, as far as it knows them. */
  function Users(tx: Tx): seq<UserId>
    requires Trades(tx.request)
  {
    if tx.request.BuyBet? then
      var listing := ListingRead(tx.log, 2);
      [Low(listing, tx.request.buyer), High(listing, tx.request.buyer)]
    else UsersOf(CreditsRead(tx))
  }

  /** How it locks them. */
  function ModeOf(r: Request): Mode { if r.BuyBet? then Update else NoKeyUpdate }

  /** The order in which its bets came back. */
  function RowsRead(tx: Tx): seq<Holding> {
    match tx.request
    case RefundMarket(_) => if |tx.log| > 2 && tx.log[2].HoldingsAre? then tx.log[2].holdings else []
    case ResolveMarket(_, _) => WinnersRead(tx.log)
    case _ => []
  }

  /** The market a program is about. */
  function MarketOf(db: Db, r: Request): MarketId {
    match r
    case BuyBet(l, _) => if l < |db.listings| then db.listings[l].market else 0
    case RefundMarket(m) => m
    case ResolveMarket(m, _) => m
    case _ => 0
  }

  // -------------------------------------------------------- the shape of a settlement

  lemma RefundsSize(holders: seq<Holding>)
    ensures |Refunds(holders)| == |holders|
    ensures forall i :: 0 <= i < |holders| ==> Refunds(holders)[i].user == holders[i].owner
  {
  }

  /** Lock the market, withdraw its listings, read, pay, close. */
  lemma SettlementShape(tx: Tx)
    requires Settles(tx.request)
    ensures var script, credits, m := ScriptOf(tx.request, tx.log), CreditsRead(tx), tx.request.market;
      && |script| == First(tx.request) + |credits| + 1
      && script[0] == LockMarketRow(m, Update) && script[1] == WithdrawListed(m)
      && (forall j :: 2 <= j < First(tx.request) ==> ReadsBets(script[j]) || script[j].ReadPools?)
      && PaysThen(script, First(tx.request), credits, script[|script| - 1])
      && script[|script| - 1].SetMarket? && script[|script| - 1].market == m
  {
    hide RefundCreditsRead, ResolveCreditsRead, MarketRead;
  }

  lemma SettlementViews(db: Db, tx: Tx)
    requires Settles(tx.request)
    ensures var script := ScriptOf(tx.request, tx.log);
      First(tx.request) < |script| && Views(db, script)[First(tx.request)].balances == db.balances
  {
    hide Views, RefundCreditsRead, ResolveCreditsRead, MarketRead, WithdrawAll, PaysThen;
    if tx.request.RefundMarket? {
      RefundViews(db, tx.request, tx.log);
    } else {
      ResolveViews(db, tx.request, tx.log);
    }
  }

  /** None of its credits has failed, or it would have rolled back. */
  lemma NothingFailed(db: Db, tx: Tx)
    requires Running(db, tx) && Settles(tx.request)
    ensures forall j :: First(tx.request) <= j < |tx.log| ==> tx.log[j] != Failed
  {
    hide Replays, RefundCreditsRead, ResolveCreditsRead, RefundScript, ResolveScript, Follows;
    if tx.request.RefundMarket? {
      RefundFollows(db, tx);
      LastRefundHolds(tx.request, tx.log);
    } else {
      ResolveFollows(db, tx);
      LastPayoutHolds(tx.request, tx.log);
    }
  }

  lemma LastRefundHolds(r: Request, log: seq<Reply>)
    requires r.RefundMarket? && !Next(r, log).Abort?
    ensures |log| > 3 ==> log[|log| - 1] != Failed
  {
    hide Refunds;
  }

  lemma LastPayoutHolds(r: Request, log: seq<Reply>)
    requires r.ResolveMarket? && !Next(r, log).Abort?
    ensures |log| > 4 ==> log[|log| - 1] != Failed
  {
    hide SettlementCredits, TotalRead;
  }

  // ---------------------------------------------------------------- what is locked

  lemma HeldAt(tx: Tx, y: Lock) returns (j: nat)
    requires Holds(tx, y)
    ensures j < |tx.log| && Ran(tx, j) && y in Locks(StatementAt(tx, j), tx.log[j])
  {
    hide Ran, Locks, StatementAt;
    j :| 0 <= j < |tx.log| && Ran(tx, j) && y in Locks(StatementAt(tx, j), tx.log[j]);
  }

  lemma BuyReads(db: Db, tx: Tx)
    requires Running(db, tx) && tx.request.BuyBet? && |tx.log| >= 4
    ensures tx.request.listing < |db.listings|
    ensures ListingRead(tx.log, 2) == db.listings[tx.request.listing]
    ensures MarketIdRead(tx.log) == db.listings[tx.request.listing].market
  {
    hide Running, Views, View, Written, NoInserts, Ran, StatementAt;
    BuyBetReplies(db, tx);
    assert tx.log[0] == Ask(db, BuyBetScript(tx.request, tx.log)[0]);
    assert tx.log[2] == Ask(db, BuyBetScript(tx.request, tx.log)[2]);
    StatementIs(db, tx, 0);
  }

  /** The rows of a market, other than users and pools. */
  predicate InMarket(db: Db, row: Row, m: MarketId) {
    match row
    case MarketRow(on) => on == m
    case ListingRow(l) => l < |db.listings| && db.listings[l].market == m
    case BetRow(b) => b < |db.bets| && db.bets[b].market == m
    case UserRow(_) => false
    case PoolRow(_) => false
  }

  /** Every lock is on the program's market, or on one of its users so far. */
  predicate Expected(db: Db, tx: Tx, y: Lock)
    requires Trades(tx.request)
  {
    || InMarket(db, y.row, MarketOf(db, tx.request))
    || (exists k :: 0 <= k < |Users(tx)| && First(tx.request) + k < |tx.log| && y.row == UserRow(Users(tx)[k]))
  }

  lemma SettlementHolds(db: Db, tx: Tx, y: Lock)
    requires Running(db, tx) && Settles(tx.request) && Holds(tx, y)
    ensures Expected(db, tx, y)
  {
    hide Running, Written, View, Views, NoInserts, Missing, Ask, Next, Holds, Answers, CreditsRead, ScriptOf;
    var script, first := ScriptOf(tx.request, tx.log), First(tx.request);
    var j := HeldAt(tx, y);
    StatementIs(db, tx, j);
    SettlementShape(tx);
    WithdrawnRows(db, tx, j);
    if first <= j < |script| - 1 {
      assert script[j] == CreditStatement(CreditsRead(tx)[j - first]);
      assert y.row == UserRow(Users(tx)[j - first]);
    }
  }

  /** What each statement of a purchase locks. */
  lemma BuyLocks(r: Request, log: seq<Reply>, j: nat, y: Lock)
    requires r.BuyBet? && j < 10 && j < |log| && y in Locks(BuyBetScript(r, log)[j], log[j])
    ensures var listing := ListingRead(log, 2);
      || y.row == MarketRow(MarketIdRead(log)) || y.row == ListingRow(r.listing)
      || (j >= 3 && y.row == BetRow(listing.bet))
      || (j >= 4 && y.row == UserRow(Low(listing, r.buyer)))
      || (j >= 5 && y.row == UserRow(High(listing, r.buyer)))
    ensures j == 1 <== y.row.MarketRow?
  {
    hide ListingRead, MarketIdRead;
  }

  lemma BuyHolds(db: Db, tx: Tx, y: Lock)
    requires Valid(db) && Running(db, tx) && tx.request.BuyBet? && |tx.log| >= 4 && Holds(tx, y)
    ensures Expected(db, tx, y)
  {
    hide Running, Written, View, Views, NoInserts, Missing, Ask, Next, Holds, Answers, ListingRead, MarketIdRead,
        Valid, Low, High, BuyBetScript;
    var j := HeldAt(tx, y);
    StatementIs(db, tx, j);
    BuyReads(db, tx);
    BuyScriptSize(tx);
    BuyLocks(tx.request, tx.log, j, y);
    ValidListings(db);
    assert ListingOk(db, db.listings[tx.request.listing]);
    if y.row.UserRow? {
      var k := if y.row == UserRow(Users(tx)[0]) then 0 else 1;
      assert First(tx.request) + k < |tx.log| && y.row == UserRow(Users(tx)[k]);
    }
  }

  lemma BuyScriptSize(tx: Tx)
    requires tx.request.BuyBet?
    ensures |BuyBetScript(tx.request, tx.log)| == 10 && |Users(tx)| == 2
    ensures ScriptOf(tx.request, tx.log) == BuyBetScript(tx.request, tx.log)
  {
  }

  lemma TradeHolds(db: Db, tx: Tx, y: Lock)
    requires Valid(db) && Running(db, tx) && Trades(tx.request) && |tx.log| >= First(tx.request) && Holds(tx, y)
    ensures Expected(db, tx, y)
  {
    hide Valid, Running, Holds, Expected;
    if tx.request.BuyBet? {
      BuyHolds(db, tx, y);
    } else {
      SettlementHolds(db, tx, y);
    }
  }

  /** Each of its users so far is locked, and the market is shared or taken. */
  lemma UserIsHeld(db: Db, tx: Tx, k: nat)
    requires Running(db, tx) && Trades(tx.request) && k < |Users(tx)| && First(tx.request) + k < |tx.log|
    ensures Holds(tx, Lock(UserRow(Users(tx)[k]), ModeOf(tx.request)))
  {
    hide Running, Holds, Users, ScriptOf, Locks;
    UserStatement(tx, k, tx.log[First(tx.request) + k]);
    HeldSince(db, tx, First(tx.request) + k, Lock(UserRow(Users(tx)[k]), ModeOf(tx.request)));
  }

  lemma MarketIsHeld(db: Db, tx: Tx)
    requires Valid(db) && Running(db, tx) && Trades(tx.request) && |tx.log| >= First(tx.request)
    ensures Holds(tx, Lock(MarketRow(MarketOf(db, tx.request)), if tx.request.BuyBet? then Share else Update))
  {
    hide Valid, Running, Holds, ListingRead, CreditsRead, MarketIdRead;
    if tx.request.BuyBet? {
      BuyReads(db, tx);
      BuyScriptSize(tx);
      HeldSince(db, tx, 1, Lock(MarketRow(MarketOf(db, tx.request)), Share));
    } else {
      SettlementShape(tx);
      HeldSince(db, tx, 0, Lock(MarketRow(MarketOf(db, tx.request)), Update));
    }
  }

  // ------------------------------------------------------------ the other programs

  /** No other program locks one user and then another. */
  lemma OneUser(r: Request, log: seq<Reply>, j: nat, n: nat, y: Lock, x: Lock)
    requires !Trades(r) && j < n < |log| && n < |ScriptOf(r, log)|
    requires n == 1 && (r.CancelListing? || r.InvalidateListing?) ==> ListingRead(log, 0).buyer.None?
    requires y in Locks(ScriptOf(r, log)[j], log[j]) && x in Locks(ScriptOf(r, log)[n], log[n])
    requires y.row.UserRow? && x.row.UserRow?
    ensures x.row == y.row
  {
    hide SeedDebit, MarketRead, MarketIdRead;
  }

  // ------------------------------------------------------------- what a wait means

  /** A settlement's last statement is on the market it holds. */
  lemma EndInOrder(script: seq<Statement>, log: seq<Reply>, m: MarketId)
    requires 1 < |script| == |log| && script[0] == LockMarketRow(m, Update)
    requires script[|script| - 1].SetMarket? && script[|script| - 1].market == m
    ensures InOrder(script, log, |log| - 1)
  {
    hide Taken, Later;
    TakenAt(script, log, |log| - 1, 0, Update, Lock(MarketRow(m), NoKeyUpdate));
  }

  lemma BeforeCreditsInOrder(r: Request, log: seq<Reply>)
    requires Settles(r) && 0 < |log| <= First(r) && |log| <= |ScriptOf(r, log)|
    ensures InOrder(ScriptOf(r, log), log, |log| - 1)
  {
    hide InOrder, RefundCreditsRead, ResolveCreditsRead;
    if r.RefundMarket? {
      RefundInOrder(r, log, |log| - 1);
    } else {
      ResolveInOrder(r, log, |log| - 1);
    }
  }

  /** Only a settlement waits out of order, and only for a user it is to credit. */
  lemma OutOfOrder(db: Db, tx: Tx, other: Tx, z: Lock, held: Lock)
    requires Valid(db) && Running(db, tx) && Compatible(tx, other) && ContestedBy(db, tx, other, z)
    requires Holds(tx, held) && !Before(held.row, z.row)
    ensures Settles(tx.request) && z.row.UserRow?
  {
    hide Valid, Replays, Next, View, Ask, Compatible, Holds, Locks, Before, ScriptOf, InOrder, CreditsRead;
    if !Settles(tx.request) {
      ContestedIsLater(db, tx, other, z, held);
    }
    var asked, n, first := Asked(db, tx), |tx.log|, First(tx.request);
    var script := ScriptOf(tx.request, asked.log);
    NextInScript(db, tx);
    SettlementShape(asked);
    if n < first || n == |script| - 1 {
      if n < first {
        BeforeCreditsInOrder(tx.request, asked.log);
      } else {
        EndInOrder(script, asked.log, tx.request.market);
      }
      InOrderIsLater(db, tx, other, z, held);
    } else {
      CreditLocks(script[n], asked.log[n], CreditsRead(asked)[n - first], z);
    }
  }

  lemma CreditLocks(s: Statement, reply: Reply, c: Credit, z: Lock)
    requires s == CreditStatement(c) && z in Locks(s, reply)
    ensures z == Lock(UserRow(c.user), NoKeyUpdate)
  {
  }

  /** A settlement that waits for a user waits for the next one it credits. */
  lemma SettlementWants(db: Db, tx: Tx, other: Tx, x: Lock)
    requires Running(db, tx) && Settles(tx.request) && ContestedBy(db, tx, other, x) && x.row.UserRow?
    ensures var i := |tx.log| - First(tx.request); 0 <= i < |Users(tx)| && x.row == UserRow(Users(tx)[i])
  {
    hide Replays, Next, View, Ask, Holds, ScriptOf, CreditsRead;
    var asked, n, first := Asked(db, tx), |tx.log|, First(tx.request);
    NextInScript(db, tx);
    SettlementShape(asked);
    WithdrawsListings(ScriptOf(tx.request, asked.log)[1], asked.log[1 .. ]);
    if n >= first {
      SameUsers(tx, asked);
    }
  }

  lemma WithdrawsListings(s: Statement, more: seq<Reply>)
    requires s.WithdrawListed?
    ensures forall reply, x :: x in Locks(s, reply) ==> x.row.ListingRow?
  {
  }

  /** Which users a program locks is settled once it has read what it reads. */
  lemma SameUsers(tx: Tx, later: Tx)
    requires Trades(tx.request) && later.request == tx.request && tx.log <= later.log && |tx.log| >= First(tx.request)
    ensures Users(later) == Users(tx) && RowsRead(later) == RowsRead(tx)
  {
    hide RefundCreditsRead, ResolveCreditsRead;
    SameCredits(tx.request, tx.log, later.log);
  }

  /** A purchase that waits for a user waits for the first or the second. */
  lemma BuyWants(db: Db, tx: Tx, other: Tx, x: Lock)
    requires Valid(db) && Running(db, tx) && tx.request.BuyBet? && Compatible(tx, other)
    requires ContestedBy(db, tx, other, x) && x.row.UserRow?
    ensures var i := |tx.log| - First(tx.request); 0 <= i < |Users(tx)| && x.row == UserRow(Users(tx)[i])
  {
    hide Valid, Replays, Next, View, Ask, Holds, ListingRead, MarketIdRead, Compatible, Low, High;
    var asked, n := Asked(db, tx), |tx.log|;
    NextInScript(db, tx);
    BuyUserLocks(tx.request, asked.log, n, x);
    SameUsers(tx, asked);
    if n > 5 {
      var k := if x.row == UserRow(Users(tx)[0]) then 0 else 1;
      UserIsHeld(db, tx, k);
      var y :| Holds(other, y) && x.row == y.row && Conflicts(x.mode, y.mode);
      CoveredIsUncontested(tx, other, Lock(UserRow(Users(tx)[k]), Update), x, y);
    }
  }

  lemma BuyUserLocks(r: Request, log: seq<Reply>, j: nat, y: Lock)
    requires r.BuyBet? && j < |log| && j < |ScriptOf(r, log)|
    requires y in Locks(ScriptOf(r, log)[j], log[j]) && y.row.UserRow?
    ensures var users := Users(Tx(r, log));
      && j >= 4 && (j == 4 ==> y.row == UserRow(users[0])) && (j == 5 ==> y.row == UserRow(users[1]))
      && (y.row == UserRow(users[0]) || y.row == UserRow(users[1]))
  {
    hide ListingRead, MarketIdRead;
  }

  lemma WantsUser(db: Db, tx: Tx, other: Tx, x: Lock)
    requires Valid(db) && Running(db, tx) && Trades(tx.request) && Compatible(tx, other)
    requires ContestedBy(db, tx, other, x) && x.row.UserRow?
    ensures var i := |tx.log| - First(tx.request); 0 <= i < |Users(tx)| && x.row == UserRow(Users(tx)[i])
  {
    hide Valid, Running, Compatible, ContestedBy;
    if tx.request.BuyBet? {
      BuyWants(db, tx, other, x);
    } else {
      SettlementWants(db, tx, other, x);
    }
  }

  /** Whoever holds a user and waits for another row after it trades. */
  lemma HolderTrades(db: Db, tx: Tx, other: Tx, x: Lock, w: Lock)
    requires Valid(db) && Running(db, tx) && Compatible(tx, other) && ContestedBy(db, tx, other, x) && Holds(tx, w)
    requires w.row.UserRow? && x.row.UserRow? && w.row != x.row
    ensures Trades(tx.request)
  {
    hide Valid, Replays, Next, View, Ask, Locks, ScriptOf, ListingRead, Compatible;
    if !Trades(tx.request) {
      var asked, n := Asked(db, tx), |tx.log|;
      NextInScript(db, tx);
      var j := HeldAt(tx, w);
      if n == 1 && (tx.request.CancelListing? || tx.request.InvalidateListing?) {
        ValidListings(db);
        WithdrawnUnsold(db, tx);
        SameFirst(tx.log, asked.log);
      }
      OneUser(tx.request, asked.log, j, n, w, x);
    }
  }

  // ------------------------------------------------------------------ the criterion

  /** After `i` and `j` users, each next needs one the other has locked, and none has
      been locked by both. */
  predicate Crosses(ua: seq<UserId>, i: nat, ub: seq<UserId>, j: nat) {
    && i < |ua| && j < |ub| && ua[i] in ub[..j] && ub[j] in ua[..i]
    && forall k, n :: 0 <= k < i && 0 <= n < j ==> ua[k] != ub[n]
  }

  /** How many users a program in flight has locked. */
  function UsersHeld(tx: Tx): int { |tx.log| - First(tx.request) }

  ghost predicate AtCrossing(db: Db, a: Tx, b: Tx) {
    && Trades(a.request) && Trades(b.request) && UsersHeld(a) >= 0 && UsersHeld(b) >= 0
    && MarketOf(db, a.request) != MarketOf(db, b.request)
    && Crosses(Users(a), UsersHeld(a), Users(b), UsersHeld(b))
  }

  lemma HeldUser(db: Db, tx: Tx, y: Lock) returns (k: nat)
    requires Valid(db) && Running(db, tx) && Trades(tx.request) && UsersHeld(tx) >= 0 && Holds(tx, y) && y.row.UserRow?
    ensures k < |Users(tx)| && k < UsersHeld(tx) && y.row == UserRow(Users(tx)[k])
  {
    hide Valid, Running, Holds, Users;
    TradeHolds(db, tx, y);
    k :| 0 <= k < |Users(tx)| && First(tx.request) + k < |tx.log| && y.row == UserRow(Users(tx)[k]);
  }

  lemma NeverBoth(db: Db, a: Tx, b: Tx, k: nat, n: nat)
    requires Running(db, a) && Running(db, b) && Compatible(a, b) && Trades(a.request) && Trades(b.request)
    requires k < |Users(a)| && k < UsersHeld(a) && n < |Users(b)| && n < UsersHeld(b)
    ensures Users(a)[k] != Users(b)[n]
  {
    hide Running, Compatible, Users;
    UserIsHeld(db, a, k);
    UserIsHeld(db, b, n);
    if Users(a)[k] == Users(b)[n] {
      Excluded(a, b, UserRow(Users(a)[k]), ModeOf(a.request), ModeOf(b.request));
    }
  }

  /** With `b` waiting out of order. */
  lemma CrossesFrom(db: Db, a: Tx, b: Tx, x: Lock, y: Lock, z: Lock, w: Lock)
    requires Valid(db) && Running(db, a) && Running(db, b) && Compatible(a, b)
    requires ContestedBy(db, a, b, x) && Holds(b, y) && x.row == y.row
    requires ContestedBy(db, b, a, z) && Holds(a, w) && z.row == w.row
    requires !Before(y.row, z.row)
    ensures AtCrossing(db, a, b)
  {
    hide Valid, Running, Compatible, ContestedBy, Users, Holds;
    CompatibleSymmetric(a, b);
    OutOfOrder(db, b, a, z, y);
    SettlementWants(db, b, a, z);
    if !Before(w.row, x.row) {
      OutOfOrder(db, a, b, x, w);
    } else {
      TradeHolds(db, b, y);
      assert x.row.UserRow?;
      HolderTrades(db, a, b, x, w);
    }
    WantsUser(db, a, b, x);
    var k := HeldUser(db, b, y);
    var n := HeldUser(db, a, w);
    assert Users(b)[..UsersHeld(b)][k] == Users(a)[UsersHeld(a)];
    assert Users(a)[..UsersHeld(a)][n] == Users(b)[UsersHeld(b)];
    forall k, n | 0 <= k < UsersHeld(a) && 0 <= n < UsersHeld(b) ensures Users(a)[k] != Users(b)[n] {
      NeverBoth(db, a, b, k, n);
    }
    MarketIsHeld(db, a);
    MarketIsHeld(db, b);
    if MarketOf(db, a.request) == MarketOf(db, b.request) {
      Excluded(a, b, MarketRow(MarketOf(db, a.request)), if a.request.BuyBet? then Share else Update, Update);
    }
  }

  lemma CrossingSymmetric(db: Db, a: Tx, b: Tx)
    requires AtCrossing(db, a, b)
    ensures AtCrossing(db, b, a)
  {
    hide Users;
  }

  lemma InterlockedCrosses(db: Db, a: Tx, b: Tx)
    requires Valid(db) && Interlocked(db, a, b)
    ensures AtCrossing(db, a, b)
  {
    hide Valid, Running, Compatible, AtCrossing, Next, Ask, View, Locks, Before;
    var x :| ContestedBy(db, a, b, x);
    var z :| ContestedBy(db, b, a, z);
    var y :| Holds(b, y) && x.row == y.row && Conflicts(x.mode, y.mode);
    var w :| Holds(a, w) && z.row == w.row && Conflicts(z.mode, w.mode);
    if !Before(y.row, z.row) {
      CrossesFrom(db, a, b, x, y, z, w);
    } else if !Before(w.row, x.row) {
      CompatibleSymmetric(a, b);
      CrossesFrom(db, b, a, z, w, x, y);
      CrossingSymmetric(db, b, a);
    } else {
      BeforeIsTransitive(y.row, z.row, y.row);
    }
  }

  /** The row the program locks next. */
  lemma NextLocks(db: Db, tx: Tx)
    requires Running(db, tx) && Trades(tx.request) && Next(tx.request, tx.log).Run?
    requires 0 <= UsersHeld(tx) < |Users(tx)|
    ensures var st := Next(tx.request, tx.log).statement;
      Lock(UserRow(Users(tx)[UsersHeld(tx)]), ModeOf(tx.request)) in Locks(st, Ask(View(db, tx, |tx.log|), st))
  {
    hide Replays, Next, View, Ask, Users, ScriptOf, Asked;
    var asked := Asked(db, tx);
    NextInScript(db, tx);
    AskedSame(db, tx);
    SameUsers(tx, asked);
    UserStatement(asked, UsersHeld(tx), Ask(View(db, tx, |tx.log|), Next(tx.request, tx.log).statement));
  }

  lemma AskedSame(db: Db, tx: Tx)
    requires Next(tx.request, tx.log).Run?
    ensures Asked(db, tx).request == tx.request && tx.log <= Asked(db, tx).log
  {
    hide Next, Ask, View;
  }

  /** The statement that locks the program's user `k`. */
  lemma UserStatement(tx: Tx, k: nat, reply: Reply)
    requires Trades(tx.request) && k < |Users(tx)|
    ensures var script, j := ScriptOf(tx.request, tx.log), First(tx.request) + k;
      j < |script| && Lock(UserRow(Users(tx)[k]), ModeOf(tx.request)) in Locks(script[j], reply)
  {
    hide ScriptOf, Locks, CreditsRead, ListingRead, Low, High;
    if tx.request.BuyBet? {
      BuyScriptSize(tx);
      BuyUserStatements(tx.request, tx.log);
      LocksUser(Users(tx)[k], reply);
    } else {
      SettlementShape(tx);
      var c := CreditsRead(tx)[k];
      assert ScriptOf(tx.request, tx.log)[First(tx.request) + k] == CreditStatement(c);
      LocksCredited(c, reply);
    }
  }

  lemma LocksUser(u: UserId, reply: Reply)
    ensures Lock(UserRow(u), Update) in Locks(LockUserRow(u), reply)
  {
  }

  lemma LocksCredited(c: Credit, reply: Reply)
    ensures Lock(UserRow(c.user), NoKeyUpdate) in Locks(CreditStatement(c), reply)
  {
  }

  lemma BuyUserStatements(r: Request, log: seq<Reply>)
    requires r.BuyBet?
    ensures var script, users := BuyBetScript(r, log), Users(Tx(r, log));
      script[4] == LockUserRow(users[0]) && script[5] == LockUserRow(users[1])
  {
    hide ListingRead, MarketIdRead;
  }

  lemma SameMarket(db: Db, row: Row, m: MarketId, n: MarketId)
    requires InMarket(db, row, m) && InMarket(db, row, n)
    ensures m == n
  {
  }

  /** About different markets, and no user locked by both: no row is. */
  lemma CrossingDisjoint(db: Db, a: Tx, b: Tx, x: Lock, y: Lock)
    requires Valid(db) && Running(db, a) && Running(db, b) && AtCrossing(db, a, b) && Holds(a, x) && Holds(b, y)
    ensures x.row != y.row
  {
    hide Valid, Running, Users, Holds, InMarket, Expected;
    TradeHolds(db, a, x);
    TradeHolds(db, b, y);
    if x.row == y.row {
      if x.row.UserRow? {
        var k := HeldUser(db, a, x);
        var n := HeldUser(db, b, y);
      } else {
        ExpectedInMarket(db, a, x);
        ExpectedInMarket(db, b, y);
        SameMarket(db, x.row, MarketOf(db, a.request), MarketOf(db, b.request));
      }
    }
  }

  lemma ExpectedInMarket(db: Db, tx: Tx, y: Lock)
    requires Trades(tx.request) && Expected(db, tx, y) && !y.row.UserRow?
    ensures InMarket(db, y.row, MarketOf(db, tx.request))
  {
    hide Users, InMarket;
  }

  lemma CrossingCompatible(db: Db, a: Tx, b: Tx)
    requires Valid(db) && Running(db, a) && Running(db, b) && AtCrossing(db, a, b)
    ensures Compatible(a, b)
  {
    hide Valid, Running, Holds, AtCrossing;
    forall x, y | Holds(a, x) && Holds(b, y) ensures x.row != y.row {
      CrossingDisjoint(db, a, b, x, y);
    }
  }

  lemma CrossingContests(db: Db, a: Tx, b: Tx)
    requires Running(db, a) && Running(db, b) && AtCrossing(db, a, b) && Next(a.request, a.log).Run?
    ensures exists x :: ContestedBy(db, a, b, x)
  {
    hide Running, Users, Holds, Next, Locks, Ask, View;
    var u, i := Users(a)[UsersHeld(a)], UsersHeld(a);
    NextLocks(db, a);
    var n :| 0 <= n < |Users(b)[..UsersHeld(b)]| && Users(b)[..UsersHeld(b)][n] == u;
    assert Users(b)[n] == u;
    UserIsHeld(db, b, n);
    var x, y := Lock(UserRow(u), ModeOf(a.request)), Lock(UserRow(u), ModeOf(b.request));
    assert Holds(b, y) && x.row == y.row && Conflicts(x.mode, y.mode);
    assert ContestedBy(db, a, b, x);
  }

  lemma CrossingInterlocks(db: Db, a: Tx, b: Tx)
    requires Valid(db) && Running(db, a) && Running(db, b) && AtCrossing(db, a, b)
    requires Next(a.request, a.log).Run? && Next(b.request, b.log).Run?
    ensures Interlocked(db, a, b)
  {
    hide Valid, Running, AtCrossing, ContestedBy, Compatible, Next;
    CrossingCompatible(db, a, b);
    CrossingContests(db, a, b);
    CrossingSymmetric(db, a, b);
    CrossingContests(db, b, a);
  }
}
