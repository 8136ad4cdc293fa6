/** The same transactions statement by statement: what each one locks, reads and
    writes, in program order, under READ COMMITTED with row locks held to the
    end of the transaction. A transaction in flight is its request and the
    replies so far; its uncommitted row versions follow from those. */
module Locking {
  import opened Int64
  import opened Sums
  import opened Tables
  import opened Wrappers
  import opened Settlement
  import opened Transactions

  // --------------------------------------------------------------------- locks

  datatype Row =
    | MarketRow(m: MarketId)
    | ListingRow(l: ListingId)
    | BetRow(b: BetId)
    | UserRow(u: UserId)
    | PoolRow(k: PoolKey)

  /** PostgreSQL's row lock strengths: foreign-key checks, FOR SHARE, plain
      UPDATE, and FOR UPDATE. */
  datatype Mode = KeyShare | Share | NoKeyUpdate | Update

  predicate Conflicts(a: Mode, b: Mode) {
    match a
    case KeyShare => b == Update
    case Share => b == NoKeyUpdate || b == Update
    case NoKeyUpdate => b != KeyShare
    case Update => true
  }

  datatype Lock = Lock(row: Row, mode: Mode)

  // ---------------------------------------------------------------- statements

  datatype Statement =
    | FindBetMarket(bet: BetId)
    | FindListingMarket(listing: ListingId)
    | LockMarketRow(market: MarketId, mode: Mode)
    | LockListingRow(listing: ListingId)
    | LockBetRow(bet: BetId)
    | LockUserRow(user: UserId)
    | WithdrawListed(market: MarketId)
    | ReadPools(market: MarketId)
    | ReadWinners(market: MarketId, outcome: string)
    | ReadHolders(market: MarketId)
    | SetBalance(user: UserId, value: int)
    | AddBalance(user: UserId, amount: int)
    | AddPool(pool: PoolKey, amount: int)
    | SetOwner(bet: BetId, user: UserId)
    | SetListing(listing: ListingId, listingRow: Listing)
    | SetMarket(market: MarketId, marketRow: Market)
    | InsertMarket(marketRow: Market)
    | InsertBet(betRow: Bet)
    | InsertListing(listingRow: Listing)

  datatype Reply =
    | MarketId(id: Option<MarketId>)
    | MarketIs(market: Option<Market>)
    | ListingIs(listing: Option<Listing>)
    | BetIs(bet: Option<Bet>)
    | ValueIs(value: Option<int>)
    | PoolsAre(pools: map<PoolKey, nat>)
    | HoldingsAre(holdings: seq<Holding>)
    | Withdrew(rows: map<ListingId, Listing>)
    | Done
    | Failed

  function Get<T>(s: seq<T>, i: nat): Option<T> {
    if i < |s| then Some(s[i]) else None
  }

  function ListedOn(listings: seq<Listing>, m: MarketId): map<ListingId, Listing> {
    map l | 0 <= l < |listings| && listings[l].market == m && listings[l].status == Listed :: listings[l]
  }

  function PoolsOn(pools: map<PoolKey, nat>, m: MarketId): map<PoolKey, nat> {
    map k | k in pools && k.market == m :: pools[k]
  }

  function Adjusted(value: int, amount: int): Reply {
    if 0 <= value + amount <= MAX then ValueIs(Some(value + amount)) else Failed
  }

  /** What a statement returns to a transaction that sees the database as `v`.
      Failed is an aborting error: out of range, or a unique violation. */
  function Ask(v: Db, s: Statement): Reply {
    match s
    case FindBetMarket(b) => MarketId(if b < |v.bets| then Some(v.bets[b].market) else None)
    case FindListingMarket(l) => MarketId(if l < |v.listings| then Some(v.listings[l].market) else None)
    case LockMarketRow(m, _) => MarketIs(Get(v.markets, m))
    case LockListingRow(l) => ListingIs(Get(v.listings, l))
    case LockBetRow(b) => BetIs(Get(v.bets, b))
    case LockUserRow(u) => ValueIs(Get(v.balances, u))
    case WithdrawListed(m) => Withdrew(ListedOn(v.listings, m))
    case ReadPools(m) => PoolsAre(PoolsOn(v.pools, m))
    case ReadWinners(m, o) => HoldingsAre(Winners(v.bets, m, o))
    case ReadHolders(m) => HoldingsAre(Holders(v.bets, m))
    case AddBalance(u, amount) => if u < |v.balances| then Adjusted(v.balances[u], amount) else ValueIs(None)
    case AddPool(k, amount) => if k in v.pools then Adjusted(v.pools[k], amount) else ValueIs(None)
    case InsertMarket(market) => if Storable(market.outcomes) && market.seed >= 0 then Done else Failed
    case InsertListing(listing) => if HasListed(v.listings, listing.bet) then Failed else Done
    case SetBalance(_, _) => Done
    case SetOwner(_, _) => Done
    case SetListing(_, _) => Done
    case SetMarket(_, _) => Done
    case InsertBet(_) => Done
  }

  /** The two queries that return bets have no ORDER BY. */
  predicate ReadsBets(s: Statement) { s.ReadWinners? || s.ReadHolders? }

  /** A reply the statement may get: the one above, its bets in any order. */
  predicate Answers(v: Db, s: Statement, reply: Reply) {
    || reply == Ask(v, s)
    || (ReadsBets(s) && reply.HoldingsAre? && Ask(v, s).HoldingsAre? &&
        multiset(reply.holdings) == multiset(Ask(v, s).holdings))
  }

  /** The row locks a statement takes, foreign-key checks included. */
  function Locks(s: Statement, reply: Reply): set<Lock> {
    match s
    case LockMarketRow(m, mode) => {Lock(MarketRow(m), mode)}
    case LockListingRow(l) => {Lock(ListingRow(l), Update)}
    case LockBetRow(b) => {Lock(BetRow(b), Update)}
    case LockUserRow(u) => {Lock(UserRow(u), Update)}
    case WithdrawListed(_) =>
      if reply.Withdrew? then set l | l in reply.rows :: Lock(ListingRow(l), NoKeyUpdate) else {}
    case SetBalance(u, _) => {Lock(UserRow(u), NoKeyUpdate)}
    case AddBalance(u, _) => {Lock(UserRow(u), NoKeyUpdate)}
    case AddPool(k, _) => {Lock(PoolRow(k), NoKeyUpdate)}
    case SetOwner(b, u) => {Lock(BetRow(b), NoKeyUpdate), Lock(UserRow(u), KeyShare)}
    case SetListing(l, row) =>
      {Lock(ListingRow(l), NoKeyUpdate)} + (if row.buyer.Some? then {Lock(UserRow(row.buyer.value), KeyShare)} else {})
    case SetMarket(m, _) => {Lock(MarketRow(m), NoKeyUpdate)}
    case InsertMarket(market) => if market.seed > 0 then {Lock(UserRow(HOUSE), KeyShare)} else {}
    case InsertBet(bet) => {Lock(MarketRow(bet.market), KeyShare), Lock(UserRow(bet.owner), KeyShare)}
    case InsertListing(listing) =>
      {Lock(BetRow(listing.bet), KeyShare), Lock(MarketRow(listing.market), KeyShare),
       Lock(UserRow(listing.seller), KeyShare)}
    case FindBetMarket(_) => {}
    case FindListingMarket(_) => {}
    case ReadPools(_) => {}
    case ReadWinners(_, _) => {}
    case ReadHolders(_) => {}
  }

  // ---------------------------------------------------- uncommitted row versions

  datatype Writes = Writes(
    balances: map<UserId, int>,
    markets: map<MarketId, Market>,
    pools: map<PoolKey, nat>,
    owners: map<BetId, UserId>,
    listings: map<ListingId, Listing>,
    newMarkets: seq<Market>,
    newBets: seq<Bet>,
    newListings: seq<Listing>)

  const NOTHING := Writes(map[], map[], map[], map[], map[], [], [], [])

  function Write(w: Writes, s: Statement, reply: Reply): Writes {
    match s
    case SetBalance(u, value) => w.(balances := w.balances[u := value])
    case AddBalance(u, _) =>
      if reply.ValueIs? && reply.value.Some? then w.(balances := w.balances[u := reply.value.value]) else w
    case AddPool(k, _) =>
      if reply.ValueIs? && reply.value.Some? && reply.value.value >= 0 then
        w.(pools := w.pools[k := reply.value.value])
      else w
    case WithdrawListed(_) =>
      if reply.Withdrew? then
        w.(listings := w.listings + map l | l in reply.rows :: reply.rows[l].(status := Withdrawn))
      else w
    case SetOwner(b, u) => w.(owners := w.owners[b := u])
    case SetListing(l, row) => w.(listings := w.listings[l := row])
    case SetMarket(m, row) => w.(markets := w.markets[m := row])
    case InsertMarket(row) => if reply.Done? then w.(newMarkets := w.newMarkets + [row]) else w
    case InsertBet(row) => w.(newBets := w.newBets + [row])
    case InsertListing(row) => if reply.Done? then w.(newListings := w.newListings + [row]) else w
    case _ => w
  }

  function Overlay<T>(s: seq<T>, w: map<nat, T>): (r: seq<T>)
    ensures |r| == |s|
    ensures forall i :: 0 <= i < |s| ==> r[i] == if i in w then w[i] else s[i]
  {
    seq(|s|, i requires 0 <= i < |s| => if i in w then w[i] else s[i])
  }

  function OverlayOwners(bets: seq<Bet>, owners: map<BetId, UserId>): (r: seq<Bet>)
    ensures |r| == |bets|
    ensures forall b :: 0 <= b < |bets| ==> r[b] == if b in owners then bets[b].(owner := owners[b]) else bets[b]
  {
    seq(|bets|, b requires 0 <= b < |bets| => if b in owners then bets[b].(owner := owners[b]) else bets[b])
  }

  /** The seed column is never negative. */
  function Seed(market: Market): nat {
    if market.seed > 0 then market.seed else 0
  }

  /** Pools and seed bets of markets inserted after `m` existing ones. */
  function PoolsOfNew(m: MarketId, markets: seq<Market>): map<PoolKey, nat> {
    if |markets| == 0 then map[]
    else
      PoolsOfNew(m, markets[..|markets| - 1]) +
      (var market := markets[|markets| - 1]; SeedPools(m + |markets| - 1, market.outcomes, Seed(market)))
  }

  function BetsOfNew(m: MarketId, markets: seq<Market>): seq<Bet> {
    if |markets| == 0 then []
    else
      BetsOfNew(m, markets[..|markets| - 1]) +
      (var market := markets[|markets| - 1]; SeedBets(m + |markets| - 1, market.outcomes, Seed(market)))
  }

  /** The database with a transaction's row versions on top: what that
      transaction sees, and what everyone sees once it commits. */
  function Merge(db: Db, w: Writes): Db {
    Db(Overlay(db.balances, w.balances),
       Overlay(db.markets, w.markets) + w.newMarkets,
       db.pools + w.pools + PoolsOfNew(|db.markets|, w.newMarkets),
       OverlayOwners(db.bets, w.owners) + w.newBets + BetsOfNew(|db.markets|, w.newMarkets),
       Overlay(db.listings, w.listings) + w.newListings)
  }

  // ------------------------------------------------------------------ programs

  datatype Action = Run(statement: Statement) | Commit | Abort(error: Error)

  function NextCreateMarket(question: string, outcomes: seq<string>, seed: int64, log: seq<Reply>): Action {
    var market := Market(question, outcomes, Open, seed, None);
    if |outcomes| < 2 then Abort(TooFewOutcomes)
    else if seed < 0 then Abort(NegativeSeed)
    else
      var debit := SeedDebit(seed, |outcomes|);
      if debit <= 0 then
        if |log| == 0 then Run(InsertMarket(market))
        else if log[0].Failed? then Abort(OutcomeRejected)
        else Commit
      else if |log| == 0 then Run(LockUserRow(HOUSE))
      else if !log[0].ValueIs? || log[0].value.None? then Abort(UserNotFound)
      else if log[0].value.value < debit then Abort(HouseShort)
      else if |log| == 1 then Run(AddBalance(HOUSE, -debit))
      else if log[1].Failed? then Abort(OutOfRange)
      else if |log| == 2 then Run(InsertMarket(market))
      else if log[2].Failed? then Abort(OutcomeRejected)
      else Commit
  }

  function NextPlaceBet(u: UserId, m: MarketId, o: string, stake: int64, log: seq<Reply>): Action {
    if stake <= 0 then Abort(StakeNotPositive)
    else if |log| == 0 then Run(LockMarketRow(m, Share))
    else if !log[0].MarketIs? || log[0].market.None? then Abort(MarketNotFound)
    else if log[0].market.value.status != Open then Abort(MarketNotOpen)
    else if o !in log[0].market.value.outcomes then Abort(InvalidOutcome)
    else if |log| == 1 then Run(LockUserRow(u))
    else if !log[1].ValueIs? || log[1].value.None? then Abort(UserNotFound)
    else if log[1].value.value < stake then Abort(InsufficientBalance)
    else if |log| == 2 then Run(AddBalance(u, -stake))
    else if log[2].Failed? then Abort(OutOfRange)
    else if |log| == 3 then Run(AddPool(PoolKey(m, o), stake))
    else if log[3].Failed? then Abort(OutOfRange)
    else if |log| == 4 then Run(InsertBet(Bet(m, u, u, o, stake)))
    else Commit
  }

  function NextLockMarket(m: MarketId, log: seq<Reply>): Action {
    if |log| == 0 then Run(LockMarketRow(m, Update))
    else if !log[0].MarketIs? || log[0].market.None? then Abort(MarketNotFound)
    else if log[0].market.value.status != Open then Abort(InvalidStateTransition)
    else if |log| == 1 then Run(WithdrawListed(m))
    else if |log| == 2 then Run(SetMarket(m, log[0].market.value.(status := Locked)))
    else Commit
  }

  /** The credits one UPDATE each, then the market row, then COMMIT. `log[from..]`
      holds the replies to the credits. */
  function NextCredit(credits: seq<Credit>, m: MarketId, market: Market, log: seq<Reply>, from: nat): Action
    requires from <= |log|
  {
    if exists i :: from <= i < |log| && log[i].Failed? then Abort(OutOfRange)
    else
      var i := |log| - from;
      if i < |credits| then Run(AddBalance(credits[i].user, credits[i].amount))
      else if i == |credits| then Run(SetMarket(m, market))
      else Commit
  }

  /** ResolveMarket's total, from the pool rows it read. */
  function TotalRead(pools: map<PoolKey, nat>, m: MarketId, outcomes: seq<string>): int64 {
    Wrap(Total(PoolTotals(pools, m, outcomes), Id))
  }

  function NextResolveMarket(m: MarketId, o: string, log: seq<Reply>): Action {
    if |log| == 0 then Run(LockMarketRow(m, Update))
    else if !log[0].MarketIs? || log[0].market.None? then Abort(MarketNotFound)
    else
      var market := log[0].market.value;
      if market.status == Resolved then Abort(MarketAlreadyResolved)
      else if market.status == Cancelled then Abort(MarketAlreadyCancelled)
      else if market.status != Locked then Abort(MarketNotLocked)
      else if |log| == 1 then Run(WithdrawListed(m))
      else if o !in market.outcomes then Abort(InvalidOutcome)
      else if |log| == 2 then Run(ReadPools(m))
      else if !log[2].PoolsAre? || PoolOf(log[2].pools, PoolKey(m, o)) == 0 then Abort(ZeroWinningPool)
      else if |log| == 3 then Run(ReadWinners(m, o))
      else if !log[3].HoldingsAre? then Abort(OutOfRange)
      else
        var total, pool := TotalRead(log[2].pools, m, market.outcomes), PoolOf(log[2].pools, PoolKey(m, o));
        NextCredit(SettlementCredits(total, pool, log[3].holdings), m,
                   market.(status := Resolved, winner := Some(o)), log, 4)
  }

  function NextRefundMarket(m: MarketId, log: seq<Reply>): Action {
    if |log| == 0 then Run(LockMarketRow(m, Update))
    else if !log[0].MarketIs? || log[0].market.None? then Abort(MarketNotFound)
    else
      var market := log[0].market.value;
      if market.status == Resolved then Abort(MarketAlreadyResolved)
      else if market.status == Cancelled then Abort(MarketAlreadyCancelled)
      else if |log| == 1 then Run(WithdrawListed(m))
      else if |log| == 2 then Run(ReadHolders(m))
      else if !log[2].HoldingsAre? then Abort(OutOfRange)
      else NextCredit(Refunds(log[2].holdings), m, market.(status := Cancelled), log, 3)
  }

  function NextAdjustBalance(u: UserId, delta: int64, log: seq<Reply>): Action {
    if |log| == 0 then Run(LockUserRow(u))
    else if !log[0].ValueIs? || log[0].value.None? then Abort(UserNotFound)
    else
      var newBalance := Wrap(log[0].value.value + delta);
      if newBalance < 0 then Abort(InsufficientBalance)
      else if |log| == 1 then Run(SetBalance(u, newBalance))
      else Commit
  }

  function NextListBet(b: BetId, seller: UserId, price: int64, log: seq<Reply>): Action {
    if price <= 0 then Abort(PriceNotPositive)
    else if |log| == 0 then Run(FindBetMarket(b))
    else if !log[0].MarketId? || log[0].id.None? then Abort(BetNotFound)
    else
      var m := log[0].id.value;
      if |log| == 1 then Run(LockMarketRow(m, Share))
      else if !log[1].MarketIs? || log[1].market.None? then Abort(MarketNotFound)
      else if log[1].market.value.status != Open then Abort(MarketNotOpen)
      else if |log| == 2 then Run(LockBetRow(b))
      else if !log[2].BetIs? || log[2].bet.None? then Abort(BetNotFound)
      else if log[2].bet.value.owner != seller then Abort(NotBetOwner)
      else if seller == HOUSE then Abort(CannotListHouseBet)
      else if |log| == 3 then Run(InsertListing(Listing(b, m, seller, None, price, Listed)))
      else if log[3].Failed? then Abort(BetAlreadyListed)
      else Commit
  }

  function NextCancelListing(l: ListingId, seller: UserId, log: seq<Reply>): Action {
    if |log| == 0 then Run(LockListingRow(l))
    else if !log[0].ListingIs? || log[0].listing.None? then Abort(ListingNotFound)
    else
      var listing := log[0].listing.value;
      if listing.seller != seller then Abort(NotListingOwner)
      else if listing.status != Listed then Abort(ListingNotActive)
      else if |log| == 1 then Run(SetListing(l, listing.(status := Withdrawn)))
      else Commit
  }

  function NextInvalidateListing(l: ListingId, log: seq<Reply>): Action {
    if |log| == 0 then Run(LockListingRow(l))
    else if !log[0].ListingIs? || log[0].listing.None? then Abort(ListingNotFound)
    else if |log| == 1 && log[0].listing.value.status == Listed then
      Run(SetListing(l, log[0].listing.value.(status := Withdrawn)))
    else Commit
  }

  function NextBuyBet(l: ListingId, buyer: UserId, log: seq<Reply>): Action {
    if |log| == 0 then Run(FindListingMarket(l))
    else if !log[0].MarketId? || log[0].id.None? then Abort(ListingNotFound)
    else if |log| == 1 then Run(LockMarketRow(log[0].id.value, Share))
    else if !log[1].MarketIs? || log[1].market.None? then Abort(MarketNotFound)
    else if |log| == 2 then Run(LockListingRow(l))
    else if !log[2].ListingIs? || log[2].listing.None? then Abort(ListingNotFound)
    else
      var listing := log[2].listing.value;
      if log[1].market.value.status != Open then Abort(ListingMarketNoLongerOpen)
      else if listing.status != Listed then Abort(ListingNotActive)
      else if listing.seller == buyer then Abort(CannotBuyOwnListing)
      else if |log| == 3 then Run(LockBetRow(listing.bet))
      else if !log[3].BetIs? || log[3].bet.None? then Abort(BetNotFound)
      else if log[3].bet.value.owner != listing.seller then Abort(OwnerIsNotSeller)
      else NextBuyUsers(l, listing, buyer, log)
  }

  /** The part of BuyListedBet after its bet is locked: both users in ascending
      order, the transfer, the bet's new owner, the listing's sale. */
  function NextBuyUsers(l: ListingId, listing: Listing, buyer: UserId, log: seq<Reply>): Action
    requires |log| >= 4
  {
    var buyerFirst := buyer < listing.seller;
    if |log| == 4 then Run(LockUserRow(if buyerFirst then buyer else listing.seller))
    else if !log[4].ValueIs? || log[4].value.None? then Abort(UserNotFound)
    else if |log| == 5 then Run(LockUserRow(if buyerFirst then listing.seller else buyer))
    else if !log[5].ValueIs? || log[5].value.None? then Abort(UserNotFound)
    else if log[if buyerFirst then 4 else 5].value.value < listing.price then Abort(InsufficientBalance)
    else if |log| == 6 then Run(AddBalance(buyer, -listing.price))
    else if log[6].Failed? then Abort(OutOfRange)
    else if |log| == 7 then Run(AddBalance(listing.seller, listing.price))
    else if log[7].Failed? then Abort(OutOfRange)
    else if |log| == 8 then Run(SetOwner(listing.bet, buyer))
    else if |log| == 9 then Run(SetListing(l, listing.(status := Sold, buyer := Some(buyer))))
    else Commit
  }

  /** The next action of a request that has received these replies. */
  function Next(r: Request, log: seq<Reply>): Action {
    match r
    case CreateMarket(question, outcomes, seed) => NextCreateMarket(question, outcomes, seed, log)
    case PlaceBet(u, m, o, stake) => NextPlaceBet(u, m, o, stake, log)
    case LockMarket(m) => NextLockMarket(m, log)
    case ResolveMarket(m, o) => NextResolveMarket(m, o, log)
    case RefundMarket(m) => NextRefundMarket(m, log)
    case AdjustBalance(u, delta) => NextAdjustBalance(u, delta, log)
    case ListBet(b, seller, price) => NextListBet(b, seller, price, log)
    case CancelListing(l, seller) => NextCancelListing(l, seller, log)
    case InvalidateListing(l) => NextInvalidateListing(l, log)
    case BuyBet(l, buyer) => NextBuyBet(l, buyer, log)
  }

  // ---------------------------------------------------- transactions in flight

  datatype Tx = Tx(request: Request, log: seq<Reply>)

  /** The statement that got reply `j`. */
  predicate Ran(tx: Tx, j: nat) {
    j < |tx.log| && Next(tx.request, tx.log[..j]).Run?
  }

  function StatementAt(tx: Tx, j: nat): Statement
    requires Ran(tx, j)
  {
    Next(tx.request, tx.log[..j]).statement
  }

  /** Row versions written by the first `n` statements. */
  function Written(tx: Tx, n: nat): Writes {
    if n == 0 then NOTHING
    else if Ran(tx, n - 1) then Write(Written(tx, n - 1), StatementAt(tx, n - 1), tx.log[n - 1])
    else Written(tx, n - 1)
  }

  predicate Holds(tx: Tx, lock: Lock) {
    exists j :: 0 <= j < |tx.log| && Ran(tx, j) && lock in Locks(StatementAt(tx, j), tx.log[j])
  }

  /** The database as the transaction sees it before its statement `n`, when
      `db` is what the others have committed. */
  function View(db: Db, tx: Tx, n: nat): Db {
    Merge(db, Written(tx, n))
  }

  /** Each reply so far is one its statement may get when the same statements run
      in the same order on `db` with nobody else around. */
  predicate Replays(db: Db, tx: Tx) {
    forall j :: 0 <= j < |tx.log| ==> Ran(tx, j) && Answers(View(db, tx, j), StatementAt(tx, j), tx.log[j])
  }

  function WinnersRead(log: seq<Reply>): seq<Holding> {
    if |log| > 3 && log[3].HoldingsAre? then log[3].holdings else []
  }

  /** The request, with the winning bets in the order it read them. */
  function CallOf(tx: Tx): Call {
    Call(tx.request, if tx.request.ResolveMarket? then WinnersRead(tx.log) else [])
  }

  // -------------------------------------------------------------- which locks are taken

  /** PostgreSQL's table of row locks that exclude each other. */
  lemma ConflictTable(a: Mode, b: Mode)
    ensures Conflicts(a, b) <==> Conflicts(b, a)
    ensures Conflicts(Update, a)
    ensures Conflicts(NoKeyUpdate, NoKeyUpdate) && Conflicts(NoKeyUpdate, Share)
    ensures !Conflicts(NoKeyUpdate, KeyShare) && !Conflicts(Share, Share) && !Conflicts(Share, KeyShare)
    ensures !Conflicts(KeyShare, KeyShare)
  {
  }

  /** Bets and listings share their market with each other; whoever moves it to its next
      state has it alone. */
  lemma MarketLockModes(r: Request, log: seq<Reply>)
    requires Next(r, log).Run? && Next(r, log).statement.LockMarketRow?
    ensures var mode := Next(r, log).statement.mode;
      && (mode == Share <==> r.PlaceBet? || r.ListBet? || r.BuyBet?)
      && (mode == Update <==> r.LockMarket? || r.ResolveMarket? || r.RefundMarket?)
  {
    hide SettlementCredits, TotalRead, Refunds, SeedDebit;
  }

  /** Rows read to be checked are locked FOR UPDATE, rows written as UPDATE does, rows
      only referred to as foreign keys do. */
  lemma LockStrengths(s: Statement, reply: Reply, x: Lock)
    requires x in Locks(s, reply) && !s.LockMarketRow?
    ensures x.mode == Update <==> s.LockListingRow? || s.LockBetRow? || s.LockUserRow?
    ensures x.mode == KeyShare <==>
      s.InsertMarket? || s.InsertBet? || s.InsertListing? || ((s.SetOwner? || s.SetListing?) && x.row.UserRow?)
    ensures x.mode != Share
  {
  }
}
