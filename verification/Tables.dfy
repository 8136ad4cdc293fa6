/** The betting database: one sequence or map per table. A row's identifier is
    its position, so inserted rows are appended; users are numbered in the
    string order of their UUIDs, which puts the all-zero house account first. */
module Tables {
  import opened Int64
  import opened Sums
  import opened Wrappers

  type UserId = nat
  type MarketId = nat
  type BetId = nat
  type ListingId = nat

  const HOUSE: UserId := 0

  datatype MarketStatus = Open | Locked | Resolved | Cancelled

  datatype Market = Market(
    question: string,
    outcomes: seq<string>,
    status: MarketStatus,
    seed: int64,
    winner: Option<string>)

  datatype Bet = Bet(market: MarketId, owner: UserId, originalOwner: UserId, outcome: string, stake: int)

  datatype ListingStatus = Listed | Sold | Withdrawn

  datatype Listing = Listing(
    bet: BetId,
    market: MarketId,
    seller: UserId,
    buyer: Option<UserId>,
    price: int,
    status: ListingStatus)

  datatype PoolKey = PoolKey(market: MarketId, outcome: string)

  datatype Db = Db(
    balances: seq<int>,
    markets: seq<Market>,
    pools: map<PoolKey, nat>,
    bets: seq<Bet>,
    listings: seq<Listing>)

  /** One `UPDATE users SET balance = balance + amount`. */
  datatype Credit = Credit(user: UserId, amount: int)

  /** The two columns settlement reads from a bet. */
  datatype Holding = Holding(owner: UserId, stake: int)

  // ---------------------------------------------------------------- quantities

  function Id(x: int): int { x }

  function HeldStake(h: Holding): int { h.stake }

  function Amount(c: Credit): int { c.amount }

  function To(u: UserId): Credit -> int {
    (c: Credit) => if c.user == u then c.amount else 0
  }

  function OnPool(k: PoolKey): Bet -> int {
    (b: Bet) => if b.market == k.market && b.outcome == k.outcome then b.stake else 0
  }

  function OnMarket(m: MarketId): Bet -> int {
    (b: Bet) => if b.market == m then b.stake else 0
  }

  function OwnedOn(m: MarketId, u: UserId): Bet -> int {
    (b: Bet) => if b.market == m && b.owner == u then b.stake else 0
  }

  function PlacedOn(m: MarketId, u: UserId): Bet -> int {
    (b: Bet) => if b.market == m && b.originalOwner == u then b.stake else 0
  }

  predicate Live(s: MarketStatus) { s == Open || s == Locked }

  /** What a bet contributes to escrow: its stake until its market is settled. */
  function InEscrow(markets: seq<Market>): Bet -> int {
    (b: Bet) => if b.market < |markets| && Live(markets[b.market].status) then b.stake else 0
  }

  function Escrow(db: Db): int { Total(db.bets, InEscrow(db.markets)) }

  /** All the money in the system: balances, house included, plus live stakes. */
  function Supply(db: Db): int { Total(db.balances, Id) + Escrow(db) }

  // ------------------------------------------------------------------- queries

  function PoolOf(pools: map<PoolKey, nat>, k: PoolKey): nat {
    if k in pools then pools[k] else 0
  }

  /** `SELECT outcome, total FROM pools WHERE market_id = m`, in one order. */
  function PoolTotals(pools: map<PoolKey, nat>, m: MarketId, outcomes: seq<string>): (rows: seq<int>)
    ensures |rows| == |outcomes|
    ensures forall i :: 0 <= i < |rows| ==> rows[i] == PoolOf(pools, PoolKey(m, outcomes[i]))
  {
    seq(|outcomes|, i requires 0 <= i < |outcomes| => PoolOf(pools, PoolKey(m, outcomes[i])))
  }

  /** `SELECT user_id, stake FROM bets WHERE market_id = m`, oldest first. */
  function Holders(bets: seq<Bet>, m: MarketId): seq<Holding> {
    if |bets| == 0 then []
    else
      var b := bets[|bets| - 1];
      Holders(bets[..|bets| - 1], m) + (if b.market == m then [Holding(b.owner, b.stake)] else [])
  }

  /** `SELECT user_id, stake FROM bets WHERE market_id = m AND outcome = o`. */
  function Winners(bets: seq<Bet>, m: MarketId, o: string): seq<Holding> {
    if |bets| == 0 then []
    else
      var b := bets[|bets| - 1];
      Winners(bets[..|bets| - 1], m, o) + (if b.market == m && b.outcome == o then [Holding(b.owner, b.stake)] else [])
  }

  predicate HasListed(listings: seq<Listing>, b: BetId) {
    exists l :: 0 <= l < |listings| && listings[l].bet == b && listings[l].status == Listed
  }

  /** `UPDATE bet_listings SET status = 'CANCELLED' WHERE market_id = m AND status = 'LISTED'`. */
  function WithdrawAll(listings: seq<Listing>, m: MarketId): (r: seq<Listing>)
    ensures |r| == |listings|
    ensures forall l :: 0 <= l < |r| && listings[l].market == m && listings[l].status == Listed ==>
      r[l] == listings[l].(status := Withdrawn)
    ensures forall l :: 0 <= l < |r| && !(listings[l].market == m && listings[l].status == Listed) ==>
      r[l] == listings[l]
  {
    seq(|listings|, l requires 0 <= l < |listings| =>
      var active := listings[l].market == m && listings[l].status == Listed;
      if active then listings[l].(status := Withdrawn) else listings[l])
  }

  // ------------------------------------------------------------------- credits

  /** Balances after applying credits one row update at a time; an update that
      matches no row changes nothing. */
  function Post(balances: seq<int>, credits: seq<Credit>): (r: seq<int>)
    ensures |r| == |balances|
  {
    if |credits| == 0 then balances
    else
      var n := |credits| - 1;
      var p := Post(balances, credits[..n]);
      if credits[n].user < |balances| then p[credits[n].user := p[credits[n].user] + credits[n].amount] else p
  }

  /** Every row update stays inside the balance column's range, so none aborts. */
  predicate Postable(balances: seq<int>, credits: seq<Credit>) {
    forall k :: 0 < k <= |credits| && credits[k - 1].user < |balances| ==>
      0 <= Post(balances, credits[..k])[credits[k - 1].user] <= MAX
  }

  predicate UsersExist(balances: seq<int>, credits: seq<Credit>) {
    forall i :: 0 <= i < |credits| ==> credits[i].user < |balances|
  }

  /** Each account ends with its own credits and nothing else. */
  lemma {:induction false} PostAt(balances: seq<int>, credits: seq<Credit>, u: UserId)
    requires u < |balances|
    ensures Post(balances, credits)[u] == balances[u] + Total(credits, To(u))
  {
    if |credits| > 0 {
      PostAt(balances, credits[..|credits| - 1], u);
    }
  }

  lemma {:induction false} PostTotal(balances: seq<int>, credits: seq<Credit>)
    requires UsersExist(balances, credits)
    ensures Total(Post(balances, credits), Id) == Total(balances, Id) + Total(credits, Amount)
  {
    if |credits| > 0 {
      var n := |credits| - 1;
      PostTotal(balances, credits[..n]);
      var p := Post(balances, credits[..n]);
      TotalUpdate(p, credits[n].user, p[credits[n].user] + credits[n].amount, Id);
    }
  }

  /** The order in which the rows come back does not change the balances. */
  lemma {:induction false} PostOrderFree(balances: seq<int>, credits: seq<Credit>, reordered: seq<Credit>)
    requires multiset(credits) == multiset(reordered)
    ensures Post(balances, credits) == Post(balances, reordered)
  {
    forall u | 0 <= u < |balances| ensures Post(balances, credits)[u] == Post(balances, reordered)[u] {
      PostAt(balances, credits, u);
      PostAt(balances, reordered, u);
      TotalOrderFree(credits, reordered, To(u));
    }
  }

  predicate WithinColumn(balances: seq<int>) {
    forall u :: 0 <= u < |balances| ==> 0 <= balances[u] <= MAX
  }

  /** Updates succeed one by one: the earlier ones, then the last. */
  lemma {:induction false} PostableLast(balances: seq<int>, credits: seq<Credit>)
    requires UsersExist(balances, credits) && |credits| > 0
    ensures var n := |credits| - 1;
      Postable(balances, credits) <==>
        Postable(balances, credits[..n]) && 0 <= Post(balances, credits)[credits[n].user] <= MAX
  {
    var n := |credits| - 1;
    assert credits[..n + 1] == credits;
    assert forall k :: 0 <= k <= n ==> credits[..n][..k] == credits[..k];
    hide Post;
  }

  /** Non-negative credits abort exactly when some final balance is too large. */
  lemma {:induction false} PostableIff(balances: seq<int>, credits: seq<Credit>)
    requires UsersExist(balances, credits)
    requires forall i :: 0 <= i < |credits| ==> credits[i].amount >= 0
    requires WithinColumn(balances)
    ensures Postable(balances, credits) <==> WithinColumn(Post(balances, credits))
    ensures forall u :: 0 <= u < |balances| ==> balances[u] <= Post(balances, credits)[u]
  {
    if |credits| > 0 {
      var n := |credits| - 1;
      var early := credits[..n];
      PostableIff(balances, early);
      var p, r := Post(balances, early), Post(balances, credits);
      assert credits[..n + 1] == credits;
      PostableLast(balances, credits);
      assert r == p[credits[n].user := p[credits[n].user] + credits[n].amount];
      assert forall u :: 0 <= u < |balances| ==> p[u] <= r[u];
      assert WithinColumn(r) ==> WithinColumn(p);
      assert WithinColumn(p) && r[credits[n].user] <= MAX ==> WithinColumn(r);
    }
  }

  /** One more update after the first `i`. */
  lemma {:induction false} PostStep(balances: seq<int>, credits: seq<Credit>, i: nat)
    requires i < |credits|
    ensures var p, c := Post(balances, credits[..i]), credits[i];
      && Post(balances, credits[..i + 1]) == (if c.user < |balances| then p[c.user := p[c.user] + c.amount] else p)
      && (Postable(balances, credits[..i]) && (c.user < |balances| ==> 0 <= p[c.user] + c.amount <= MAX) ==>
            Postable(balances, credits[..i + 1]))
      && (c.user < |balances| && !(0 <= p[c.user] + c.amount <= MAX) ==> !Postable(balances, credits))
  {
    var s := credits[..i + 1];
    assert s[..i] == credits[..i];
    assert forall k :: 0 <= k <= i ==> s[..k] == credits[..i][..k];
    assert s[..i + 1] == s;
  }
}
