/** Every transaction of the betting service as a function from the committed
    database to the next one, or to the error it rolls back with. */
module Transactions {
  import opened Int64
  import opened Sums
  import opened Tables
  import opened Wrappers
  import opened Settlement

  datatype Error =
    | TooFewOutcomes
    | NegativeSeed
    | HouseShort
    | OutcomeRejected
    | StakeNotPositive
    | PriceNotPositive
    | MarketNotFound
    | MarketNotOpen
    | MarketNotLocked
    | MarketAlreadyResolved
    | MarketAlreadyCancelled
    | InvalidStateTransition
    | InvalidOutcome
    | ZeroWinningPool
    | UserNotFound
    | InsufficientBalance
    | BetNotFound
    | ListingNotFound
    | NotBetOwner
    | NotListingOwner
    | CannotListHouseBet
    | BetAlreadyListed
    | ListingNotActive
    | CannotBuyOwnListing
    | ListingMarketNoLongerOpen
    | OwnerIsNotSeller
    | OutOfRange

  datatype TxResult = Committed(db: Db) | RolledBack(error: Error)

  datatype Request =
    | CreateMarket(question: string, outcomes: seq<string>, seed: int64)
    | PlaceBet(user: UserId, market: MarketId, outcome: string, stake: int64)
    | LockMarket(market: MarketId)
    | ResolveMarket(market: MarketId, outcome: string)
    | RefundMarket(market: MarketId)
    | AdjustBalance(user: UserId, delta: int64)
    | ListBet(bet: BetId, seller: UserId, price: int64)
    | CancelListing(listing: ListingId, seller: UserId)
    | InvalidateListing(listing: ListingId)
    | BuyBet(listing: ListingId, buyer: UserId)

  // ------------------------------------------------------------------- markets

  const MAX_OUTCOME_LENGTH := 100

  /** The pools primary key and the VARCHAR(100) columns accept these outcomes. */
  predicate Storable(outcomes: seq<string>) {
    && (forall i, j :: 0 <= i < j < |outcomes| ==> outcomes[i] != outcomes[j])
    && (forall i :: 0 <= i < |outcomes| ==> |outcomes[i]| <= MAX_OUTCOME_LENGTH)
  }

  /** What the house is debited for seeding: an int64 product. */
  function SeedDebit(seed: int64, outcomes: nat): int64 {
    Wrap(seed * outcomes)
  }

  function SeedPools(m: MarketId, outcomes: seq<string>, seed: nat): map<PoolKey, nat> {
    map o | o in outcomes :: PoolKey(m, o) := seed
  }

  function SeedBets(m: MarketId, outcomes: seq<string>, seed: nat): seq<Bet> {
    if seed == 0 then []
    else seq(|outcomes|, i requires 0 <= i < |outcomes| => Bet(m, HOUSE, HOUSE, outcomes[i], seed))
  }

  function CreateMarketTx(db: Db, question: string, outcomes: seq<string>, seed: int64): TxResult {
    if |outcomes| < 2 then RolledBack(TooFewOutcomes)
    else if seed < 0 then RolledBack(NegativeSeed)
    else if seed > 0 && |db.balances| == 0 then RolledBack(UserNotFound)
    else
      var debit := SeedDebit(seed, |outcomes|);
      if debit > 0 && db.balances[HOUSE] < debit then RolledBack(HouseShort)
      else if !Storable(outcomes) then RolledBack(OutcomeRejected)
      else
        var m := |db.markets|;
        Committed(Db(
          if debit > 0 then db.balances[HOUSE := db.balances[HOUSE] - debit] else db.balances,
          db.markets + [Market(question, outcomes, Open, seed, None)],
          db.pools + SeedPools(m, outcomes, seed),
          db.bets + SeedBets(m, outcomes, seed),
          db.listings))
  }

  function PlaceBetTx(db: Db, u: UserId, m: MarketId, o: string, stake: int64): TxResult {
    if stake <= 0 then RolledBack(StakeNotPositive)
    else if m >= |db.markets| then RolledBack(MarketNotFound)
    else if db.markets[m].status != Open then RolledBack(MarketNotOpen)
    else if o !in db.markets[m].outcomes then RolledBack(InvalidOutcome)
    else if u >= |db.balances| then RolledBack(UserNotFound)
    else if db.balances[u] < stake then RolledBack(InsufficientBalance)
    else
      var k := PoolKey(m, o);
      if k in db.pools && db.pools[k] + stake > MAX then RolledBack(OutOfRange)
      else
        Committed(db.(
          balances := db.balances[u := db.balances[u] - stake],
          pools := if k in db.pools then db.pools[k := db.pools[k] + stake] else db.pools,
          bets := db.bets + [Bet(m, u, u, o, stake)]))
  }

  function LockMarketTx(db: Db, m: MarketId): TxResult {
    if m >= |db.markets| then RolledBack(MarketNotFound)
    else if db.markets[m].status != Open then RolledBack(InvalidStateTransition)
    else
      Committed(db.(
        markets := db.markets[m := db.markets[m].(status := Locked)],
        listings := WithdrawAll(db.listings, m)))
  }

  /** The first error ResolveMarket meets on a market row, if any. */
  function ResolveGuard(market: Market, o: string): Option<Error> {
    match market.status
    case Resolved => Some(MarketAlreadyResolved)
    case Cancelled => Some(MarketAlreadyCancelled)
    case Open => Some(MarketNotLocked)
    case Locked => if o !in market.outcomes then Some(InvalidOutcome) else None
  }

  /** Go's `totalPool`: the sum of the market's pool rows, in int64. */
  function TotalPool(db: Db, m: MarketId): int64
    requires m < |db.markets|
  {
    Wrap(Total(PoolTotals(db.pools, m, db.markets[m].outcomes), Id))
  }

  /** The balance updates that pay out market `m` on outcome `o`, its winning bets
      having come back as `rows`. */
  function PayoutCredits(db: Db, m: MarketId, o: string, rows: seq<Holding>): seq<Credit>
    requires m < |db.markets| && PoolOf(db.pools, PoolKey(m, o)) > 0
  {
    SettlementCredits(TotalPool(db, m), PoolOf(db.pools, PoolKey(m, o)), rows)
  }

  function ResolvedDb(db: Db, m: MarketId, o: string, rows: seq<Holding>): Db
    requires m < |db.markets| && PoolOf(db.pools, PoolKey(m, o)) > 0
  {
    db.(balances := Post(db.balances, PayoutCredits(db, m, o, rows)),
        markets := db.markets[m := db.markets[m].(status := Resolved, winner := Some(o))],
        listings := WithdrawAll(db.listings, m))
  }

  function ResolveMarketTx(db: Db, m: MarketId, o: string, rows: seq<Holding>): TxResult {
    if m >= |db.markets| then RolledBack(MarketNotFound)
    else
      var guard := ResolveGuard(db.markets[m], o);
      if guard.Some? then RolledBack(guard.value)
      else
        if PoolOf(db.pools, PoolKey(m, o)) == 0 then RolledBack(ZeroWinningPool)
        else if !Postable(db.balances, PayoutCredits(db, m, o, rows)) then RolledBack(OutOfRange)
        else Committed(ResolvedDb(db, m, o, rows))
  }

  function RefundCredit(h: Holding): Credit {
    Credit(h.owner, h.stake)
  }

  function Refunds(holders: seq<Holding>): (credits: seq<Credit>)
    ensures |credits| == |holders|
  {
    Map(holders, RefundCredit)
  }

  function RefundMarketTx(db: Db, m: MarketId): TxResult {
    if m >= |db.markets| then RolledBack(MarketNotFound)
    else if db.markets[m].status == Resolved then RolledBack(MarketAlreadyResolved)
    else if db.markets[m].status == Cancelled then RolledBack(MarketAlreadyCancelled)
    else
      var credits := Refunds(Holders(db.bets, m));
      if !Postable(db.balances, credits) then RolledBack(OutOfRange)
      else
        Committed(db.(
          balances := Post(db.balances, credits),
          markets := db.markets[m := db.markets[m].(status := Cancelled)],
          listings := WithdrawAll(db.listings, m)))
  }

  // ------------------------------------------------------------------ balances

  function AdjustBalanceTx(db: Db, u: UserId, delta: int64): TxResult {
    if u >= |db.balances| then RolledBack(UserNotFound)
    else
      var newBalance := Wrap(db.balances[u] + delta);
      if newBalance < 0 then RolledBack(InsufficientBalance)
      else Committed(db.(balances := db.balances[u := newBalance]))
  }

  // ------------------------------------------------------------------ listings

  function ListBetTx(db: Db, b: BetId, seller: UserId, price: int64): TxResult {
    if price <= 0 then RolledBack(PriceNotPositive)
    else if b >= |db.bets| then RolledBack(BetNotFound)
    else
      var m := db.bets[b].market;
      if m >= |db.markets| then RolledBack(MarketNotFound)
      else if db.markets[m].status != Open then RolledBack(MarketNotOpen)
      else if db.bets[b].owner != seller then RolledBack(NotBetOwner)
      else if seller == HOUSE then RolledBack(CannotListHouseBet)
      else if HasListed(db.listings, b) then RolledBack(BetAlreadyListed)
      else Committed(db.(listings := db.listings + [Listing(b, m, seller, None, price, Listed)]))
  }

  function CancelListingTx(db: Db, l: ListingId, seller: UserId): TxResult {
    if l >= |db.listings| then RolledBack(ListingNotFound)
    else if db.listings[l].seller != seller then RolledBack(NotListingOwner)
    else if db.listings[l].status != Listed then RolledBack(ListingNotActive)
    else Committed(db.(listings := db.listings[l := db.listings[l].(status := Withdrawn)]))
  }

  function InvalidateListingTx(db: Db, l: ListingId): TxResult {
    if l >= |db.listings| then RolledBack(ListingNotFound)
    else if db.listings[l].status == Listed then
      Committed(db.(listings := db.listings[l := db.listings[l].(status := Withdrawn)]))
    else Committed(db)
  }

  function BuyBetTx(db: Db, l: ListingId, buyer: UserId): TxResult {
    if l >= |db.listings| then RolledBack(ListingNotFound)
    else
      var listing := db.listings[l];
      if listing.market >= |db.markets| then RolledBack(MarketNotFound)
      else if db.markets[listing.market].status != Open then RolledBack(ListingMarketNoLongerOpen)
      else if listing.status != Listed then RolledBack(ListingNotActive)
      else if listing.seller == buyer then RolledBack(CannotBuyOwnListing)
      else if listing.bet >= |db.bets| then RolledBack(BetNotFound)
      else if db.bets[listing.bet].owner != listing.seller then RolledBack(OwnerIsNotSeller)
      else if buyer >= |db.balances| || listing.seller >= |db.balances| then RolledBack(UserNotFound)
      else if db.balances[buyer] < listing.price then RolledBack(InsufficientBalance)
      else if db.balances[listing.seller] + listing.price > MAX then RolledBack(OutOfRange)
      else
        Committed(db.(
          balances := db.balances
            [buyer := db.balances[buyer] - listing.price]
            [listing.seller := db.balances[listing.seller] + listing.price],
          bets := db.bets[listing.bet := db.bets[listing.bet].(owner := buyer)],
          listings := db.listings[l := listing.(status := Sold, buyer := Some(buyer))]))
  }

  // ------------------------------------------------------------------ dispatch

  /** A request as it ran. A settlement reads its winning bets without ORDER BY:
      `rows` is the order in which they came back. (A refund's order is immaterial.) */
  datatype Call = Call(request: Request, rows: seq<Holding>)

  /** The rows a settlement read are the winning bets, in some order. */
  predicate Possible(db: Db, c: Call) {
    c.request.ResolveMarket? ==> multiset(c.rows) == multiset(Winners(db.bets, c.request.market, c.request.outcome))
  }

  function Apply(db: Db, c: Call): TxResult {
    match c.request
    case CreateMarket(question, outcomes, seed) => CreateMarketTx(db, question, outcomes, seed)
    case PlaceBet(u, m, o, stake) => PlaceBetTx(db, u, m, o, stake)
    case LockMarket(m) => LockMarketTx(db, m)
    case ResolveMarket(m, o) => ResolveMarketTx(db, m, o, c.rows)
    case RefundMarket(m) => RefundMarketTx(db, m)
    case AdjustBalance(u, delta) => AdjustBalanceTx(db, u, delta)
    case ListBet(b, seller, price) => ListBetTx(db, b, seller, price)
    case CancelListing(l, seller) => CancelListingTx(db, l, seller)
    case InvalidateListing(l) => InvalidateListingTx(db, l)
    case BuyBet(l, buyer) => BuyBetTx(db, l, buyer)
  }
}
