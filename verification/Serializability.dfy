/** Transactions interleaved statement by statement under row locks: whatever
    the interleaving, the committed database is the one reached by running the
    committed transactions one at a time, in commit order. */
module Serializability {
  import opened Sums
  import opened Tables
  import opened Wrappers
  import opened Transactions
  import opened Invariants
  import opened Accounting
  import Runs
  import opened Locking
  import opened Isolation
  import opened Guards

  ghost predicate Compatible(a: Tx, b: Tx) {
    forall x, y :: Holds(a, x) && Holds(b, y) && x.row == y.row ==> !Conflicts(x.mode, y.mode)
  }

  // ------------------------------------------------ a commit disturbs nobody else

  /** `tx` holds the row in a mode that keeps writers out. */
  ghost predicate Firm(tx: Tx, row: Row) {
    exists mode :: mode != KeyShare && Holds(tx, Lock(row, mode))
  }

  /** Going from `db` to `after` changed nothing that `tx` has locked. */
  ghost predicate Preserved(db: Db, after: Db, tx: Tx) {
    && |after.balances| == |db.balances| && |db.markets| <= |after.markets|
    && |db.bets| <= |after.bets| && |db.listings| <= |after.listings|
    && (forall u :: 0 <= u < |db.balances| && Firm(tx, UserRow(u)) ==> after.balances[u] == db.balances[u])
    && (forall m :: 0 <= m < |db.markets| && Firm(tx, MarketRow(m)) ==> after.markets[m] == db.markets[m])
    && (forall b :: 0 <= b < |db.bets| ==> after.bets[b] == db.bets[b].(owner := after.bets[b].owner))
    && (forall b :: 0 <= b < |db.bets| && Firm(tx, BetRow(b)) ==> after.bets[b] == db.bets[b])
    && (forall k: PoolKey :: k.market < |db.markets| && Firm(tx, PoolRow(k)) ==>
          (k in after.pools <==> k in db.pools) && PoolOf(after.pools, k) == PoolOf(db.pools, k))
    && ListingsPreserved(db, after, tx)
  }

  ghost predicate ListingsPreserved(db: Db, after: Db, tx: Tx)
    requires |db.listings| <= |after.listings|
  {
    && (forall l :: 0 <= l < |db.listings| ==>
          after.listings[l].market == db.listings[l].market && after.listings[l].bet == db.listings[l].bet)
    && (forall l :: 0 <= l < |db.listings| && Firm(tx, ListingRow(l)) ==> after.listings[l] == db.listings[l])
    && (forall l :: 0 <= l < |db.listings| && db.listings[l].status != Listed ==> after.listings[l] == db.listings[l])
    && (forall l :: |db.listings| <= l < |after.listings| ==>
          && !Holds(tx, Lock(MarketRow(after.listings[l].market), Update))
          && !Holds(tx, Lock(BetRow(after.listings[l].bet), Update)))
  }

  /** Nor anything about the bets and pools of a market locked FOR UPDATE. */
  ghost predicate MarketPreserved(db: Db, after: Db, m: MarketId) {
    && PoolsOn(after.pools, m) == PoolsOn(db.pools, m)
    && Holders(after.bets, m) == Holders(db.bets, m)
    && (forall o :: Winners(after.bets, m, o) == Winners(db.bets, m, o))
  }

  lemma {:induction false} WritesAreGuarded(db: Db, tx: Tx, n: nat)
    requires Valid(db) && Running(db, tx) && n <= |tx.log|
    ensures WritesGuarded(db, tx, Written(tx, n))
  {
    hide Valid, Running, ScriptOf, Ask, Missing, NoInserts, View, Views, Guarded, Holds, Locks, Write, StatementAt,
        WritesGuarded, Ran;
    if n == 0 {
      NothingGuarded(db, tx);
    } else {
      var j := n - 1;
      WritesAreGuarded(db, tx, j);
      StatementIs(db, tx, j);
      StatementGuarded(db, tx, j);
      var s := ScriptOf(tx.request, tx.log)[j];
      forall lock | lock in Locks(s, tx.log[j]) ensures Holds(tx, lock) {
        HeldSince(db, tx, j, lock);
      }
      WithdrawnRows(db, tx, j);
      WriteGuarded(db, tx, Written(tx, j), s, tx.log[j]);
    }
  }

  lemma NothingGuarded(db: Db, tx: Tx)
    ensures WritesGuarded(db, tx, NOTHING)
  {
  }

  /** The bulk UPDATE of listings sees the committed rows. */
  lemma WithdrawnRows(db: Db, tx: Tx, j: nat)
    requires Running(db, tx) && j < |tx.log| && j < |ScriptOf(tx.request, tx.log)|
    ensures var s := ScriptOf(tx.request, tx.log)[j]; s.WithdrawListed? ==>
        tx.log[j] == Withdrew(ListedOn(db.listings, s.market))
  {
    hide Running, ScriptOf, Missing, Views, StatementAt, Merge, Written, ListedOn, Ran;
    StatementIs(db, tx, j);
    WrittenBefore(db, tx, j, j);
    MergeNothing(db);
  }

  lemma Excluded(a: Tx, b: Tx, row: Row, x: Mode, y: Mode)
    requires Compatible(a, b) && Holds(a, Lock(row, x)) && Holds(b, Lock(row, y))
    ensures !Conflicts(x, y)
  {
    hide Holds;
    assert Lock(row, x).row == Lock(row, y).row;
  }

  /** A written row is not one another transaction holds firmly. */
  lemma WriterExcludes(writer: Tx, tx: Tx, row: Row)
    requires Compatible(writer, tx) && Holds(writer, Lock(row, NoKeyUpdate))
    ensures !Firm(tx, row)
  {
    hide Holds, Compatible;
    if Firm(tx, row) {
      var mode :| mode != KeyShare && Holds(tx, Lock(row, mode));
      Excluded(writer, tx, row, NoKeyUpdate, mode);
    }
  }

  lemma RowsPreserved(db: Db, w: Writes, c: Tx, t: Tx)
    requires WritesGuarded(db, c, w) && Compatible(c, t)
    ensures forall u :: u in w.balances ==> !Firm(t, UserRow(u))
    ensures forall m :: m in w.markets ==> !Firm(t, MarketRow(m))
    ensures forall k :: k in w.pools ==> !Firm(t, PoolRow(k)) && !Holds(t, Lock(MarketRow(k.market), Update))
    ensures forall b :: b in w.owners ==> !Firm(t, BetRow(b)) && !Holds(t, Lock(MarketRow(db.bets[b].market), Update))
    ensures forall l :: l in w.listings ==> !Firm(t, ListingRow(l))
    ensures forall b :: b in w.newBets ==> !Holds(t, Lock(MarketRow(b.market), Update))
    ensures forall l :: l in w.newListings ==>
      !Holds(t, Lock(MarketRow(l.market), Update)) && !Holds(t, Lock(BetRow(l.bet), Update))
  {
    hide Holds, Compatible, Firm;
    forall u | u in w.balances ensures !Firm(t, UserRow(u)) { WriterExcludes(c, t, UserRow(u)); }
    forall m | m in w.markets ensures !Firm(t, MarketRow(m)) { WriterExcludes(c, t, MarketRow(m)); }
    forall k | k in w.pools ensures !Firm(t, PoolRow(k)) && !Holds(t, Lock(MarketRow(k.market), Update)) {
      WriterExcludes(c, t, PoolRow(k));
      SharerExcludes(c, t, MarketRow(k.market), Share);
    }
    forall b | b in w.owners ensures !Firm(t, BetRow(b)) && !Holds(t, Lock(MarketRow(db.bets[b].market), Update)) {
      WriterExcludes(c, t, BetRow(b));
      SharerExcludes(c, t, MarketRow(db.bets[b].market), Share);
    }
    forall l | l in w.listings ensures !Firm(t, ListingRow(l)) { WriterExcludes(c, t, ListingRow(l)); }
    forall b | b in w.newBets ensures !Holds(t, Lock(MarketRow(b.market), Update)) {
      SharerExcludes(c, t, MarketRow(b.market), KeyShare);
    }
    forall l | l in w.newListings
      ensures !Holds(t, Lock(MarketRow(l.market), Update)) && !Holds(t, Lock(BetRow(l.bet), Update))
    {
      SharerExcludes(c, t, MarketRow(l.market), KeyShare);
      SharerExcludes(c, t, BetRow(l.bet), KeyShare);
    }
  }

  /** Any lock at all keeps out FOR UPDATE. */
  lemma SharerExcludes(sharer: Tx, tx: Tx, row: Row, mode: Mode)
    requires Compatible(sharer, tx) && Holds(sharer, Lock(row, mode))
    ensures !Holds(tx, Lock(row, Update))
  {
    hide Holds, Compatible;
    if Holds(tx, Lock(row, Update)) {
      Excluded(sharer, tx, row, mode, Update);
    }
  }

  lemma {:induction false} NewPoolsAreNew(m: MarketId, markets: seq<Market>)
    ensures forall k :: k in PoolsOfNew(m, markets) ==> k.market >= m
  {
    if |markets| > 0 {
      NewPoolsAreNew(m, markets[..|markets| - 1]);
    }
  }

  lemma {:induction false} NewBetsAreNew(m: MarketId, markets: seq<Market>)
    ensures forall b :: b in BetsOfNew(m, markets) ==> b.market >= m
  {
    if |markets| > 0 {
      NewBetsAreNew(m, markets[..|markets| - 1]);
    }
  }

  lemma PoolsPreserved(db: Db, w: Writes, c: Tx, t: Tx, k: PoolKey)
    requires WritesGuarded(db, c, w) && Compatible(c, t)
    requires k.market < |db.markets|
    requires Firm(t, PoolRow(k)) || Holds(t, Lock(MarketRow(k.market), Update))
    ensures k in Merge(db, w).pools <==> k in db.pools
    ensures PoolOf(Merge(db, w).pools, k) == PoolOf(db.pools, k)
  {
    hide Holds, Compatible, Firm, PoolsOfNew, BetsOfNew, WritesGuarded, Overlay, OverlayOwners;
    RowsPreserved(db, w, c, t);
    NewPoolsAreNew(|db.markets|, w.newMarkets);
    assert k !in w.pools && k !in PoolsOfNew(|db.markets|, w.newMarkets);
  }

  lemma CommitPreserves(db: Db, w: Writes, c: Tx, t: Tx)
    requires WritesGuarded(db, c, w) && Compatible(c, t)
    ensures Preserved(db, Merge(db, w), t)
  {
    hide Holds, Compatible, Firm, PoolsOfNew, BetsOfNew, WritesGuarded, ListingsPreserved, PoolOf;
    RowsPreserved(db, w, c, t);
    CommitPreservesListings(db, w, c, t);
    forall k: PoolKey | k.market < |db.markets| && Firm(t, PoolRow(k))
      ensures (k in Merge(db, w).pools <==> k in db.pools) && PoolOf(Merge(db, w).pools, k) == PoolOf(db.pools, k)
    {
      PoolsPreserved(db, w, c, t, k);
    }
  }

  lemma CommitPreservesListings(db: Db, w: Writes, c: Tx, t: Tx)
    requires WritesGuarded(db, c, w) && Compatible(c, t)
    ensures |Merge(db, w).listings| >= |db.listings| && ListingsPreserved(db, Merge(db, w), t)
  {
    RowsPreserved(db, w, c, t);
    hide Holds, Compatible, Firm, PoolsOfNew, BetsOfNew, OverlayOwners;
    var after := Merge(db, w);
    forall l | |db.listings| <= l < |after.listings|
      ensures !Holds(t, Lock(MarketRow(after.listings[l].market), Update))
      ensures !Holds(t, Lock(BetRow(after.listings[l].bet), Update))
    {
      assert after.listings[l] in w.newListings;
    }
  }

  // -------------------------------------------------- what a settlement has read

  lemma {:induction false} WinnersConcat(s: seq<Bet>, t: seq<Bet>, m: MarketId, o: string)
    requires forall b :: b in t ==> b.market != m
    ensures Winners(s + t, m, o) == Winners(s, m, o) && Holders(s + t, m) == Holders(s, m)
  {
    hide Winners, Holders;
    if |t| == 0 {
      assert s + t == s;
    } else {
      var n := |t| - 1;
      assert (s + t)[..|s| + n] == s + t[..n];
      WinnersConcat(s, t[..n], m, o);
      assert t[n] in t;
      LastWinner(s + t, m, o);
      LastHolder(s + t, m);
    }
  }

  lemma {:induction false} WinnersOverlay(bets: seq<Bet>, owners: map<BetId, UserId>, m: MarketId, o: string)
    requires forall b :: b in owners && b < |bets| ==> bets[b].market != m
    ensures Winners(OverlayOwners(bets, owners), m, o) == Winners(bets, m, o)
    ensures Holders(OverlayOwners(bets, owners), m) == Holders(bets, m)
  {
    if |bets| == 0 {
      assert OverlayOwners(bets, owners) == bets;
    } else {
      hide Winners, Holders, OverlayOwners;
      var n := |bets| - 1;
      var owned := OverlayOwners(bets, owners);
      assert owned[..n] == OverlayOwners(bets[..n], owners);
      WinnersOverlay(bets[..n], owners, m, o);
      LastWinner(bets, m, o);
      LastWinner(owned, m, o);
      LastHolder(bets, m);
      LastHolder(owned, m);
    }
  }

  lemma {:induction false} BetsPreserved(db: Db, w: Writes, c: Tx, t: Tx, m: MarketId, o: string)
    requires WritesGuarded(db, c, w) && Compatible(c, t)
    requires m < |db.markets| && Holds(t, Lock(MarketRow(m), Update))
    ensures Winners(Merge(db, w).bets, m, o) == Winners(db.bets, m, o)
    ensures Holders(Merge(db, w).bets, m) == Holders(db.bets, m)
  {
    hide Holds, Compatible, Firm, PoolsOfNew, BetsOfNew, Winners, Holders, WritesGuarded, Overlay, OverlayOwners;
    RowsPreserved(db, w, c, t);
    NewBetsAreNew(|db.markets|, w.newMarkets);
    var owned, added := OverlayOwners(db.bets, w.owners), BetsOfNew(|db.markets|, w.newMarkets);
    WinnersOverlay(db.bets, w.owners, m, o);
    WinnersConcat(owned, w.newBets, m, o);
    WinnersConcat(owned + w.newBets, added, m, o);
  }

  /** Locked FOR UPDATE, a market's bets and pools are safe from every commit. */
  lemma CommitPreservesMarket(db: Db, w: Writes, c: Tx, t: Tx, m: MarketId)
    requires WritesGuarded(db, c, w) && Compatible(c, t)
    requires m < |db.markets| && Holds(t, Lock(MarketRow(m), Update))
    ensures MarketPreserved(db, Merge(db, w), m)
  {
    hide Holds, Compatible, Firm, Winners, Holders, WritesGuarded, Merge;
    BetsPreserved(db, w, c, t, m, "");
    forall o ensures Winners(Merge(db, w).bets, m, o) == Winners(db.bets, m, o) {
      BetsPreserved(db, w, c, t, m, o);
    }
    var before, after := PoolsOn(db.pools, m), PoolsOn(Merge(db, w).pools, m);
    forall k: PoolKey ensures (k in after <==> k in before) && (k in before ==> after[k] == before[k]) {
      if k.market == m {
        PoolsPreserved(db, w, c, t, k);
      }
    }
  }

  // --------------------------------------------------------- replies stay valid

  lemma Firmly(tx: Tx, row: Row, mode: Mode)
    requires mode != KeyShare && Holds(tx, Lock(row, mode))
    ensures Firm(tx, row)
  {
    hide Holds;
  }

  /** A row that both databases have and `tx` holds firmly is the same in both. */
  predicate SameRow(db: Db, after: Db, row: Row) {
    match row
    case MarketRow(m) => m < |db.markets| ==> m < |after.markets| && after.markets[m] == db.markets[m]
    case ListingRow(l) => l < |db.listings| ==> l < |after.listings| && after.listings[l] == db.listings[l]
    case BetRow(b) => b < |db.bets| ==> b < |after.bets| && after.bets[b] == db.bets[b]
    case UserRow(u) => |after.balances| == |db.balances| && (u < |db.balances| ==> after.balances[u] == db.balances[u])
    case PoolRow(_) => true
  }

  lemma HeldRow(db: Db, after: Db, tx: Tx, row: Row, mode: Mode)
    requires Preserved(db, after, tx) && mode != KeyShare && Holds(tx, Lock(row, mode))
    ensures SameRow(db, after, row)
  {
    hide Holds, Firm;
    Firmly(tx, row, mode);
  }

  lemma UserReplyStable(db: Db, after: Db, t: Tx, w: Writes, s: Statement)
    requires Preserved(db, after, t) && Guarded(db, t, s) && NoInserts(w)
    requires forall lock :: lock in Locks(s, Ask(Merge(db, w), s)) ==> Holds(t, lock)
    requires s.LockMarketRow? || s.LockUserRow? || s.AddBalance?
    ensures Ask(Merge(after, w), s) == Ask(Merge(db, w), s)
  {
    hide Holds, Preserved, Merge, NoInserts, OverlayOwners, HasListed, ListedOn, PoolsOn, Winners, Holders;
    MergeIs(db, w);
    MergeIs(after, w);
    match s
    case LockMarketRow(m, mode) => HeldRow(db, after, t, MarketRow(m), mode);
    case LockUserRow(u) => HeldRow(db, after, t, UserRow(u), Update);
    case AddBalance(u, _) => HeldRow(db, after, t, UserRow(u), NoKeyUpdate);
  }

  /** The market a bet or a listing belongs to never changes: the unlocked
      pre-reads of it are harmless. */
  lemma MarketIdReplyStable(db: Db, after: Db, t: Tx, w: Writes, s: Statement)
    requires Preserved(db, after, t) && Guarded(db, t, s) && NoInserts(w)
    requires s.FindBetMarket? || s.FindListingMarket?
    ensures Ask(Merge(after, w), s) == Ask(Merge(db, w), s)
  {
    hide Holds, Firm, Merge, NoInserts, HasListed, ListedOn, PoolsOn, Winners, Holders;
    MergeIs(db, w);
    MergeIs(after, w);
  }

  lemma BetReplyStable(db: Db, after: Db, t: Tx, w: Writes, s: Statement)
    requires Preserved(db, after, t) && Guarded(db, t, s) && NoInserts(w)
    requires forall lock :: lock in Locks(s, Ask(Merge(db, w), s)) ==> Holds(t, lock)
    requires s.LockListingRow? || s.LockBetRow?
    ensures Ask(Merge(after, w), s) == Ask(Merge(db, w), s)
  {
    hide Holds, Preserved, Merge, NoInserts, HasListed, ListedOn, PoolsOn, Winners, Holders;
    MergeIs(db, w);
    MergeIs(after, w);
    match s
    case LockListingRow(l) => HeldRow(db, after, t, ListingRow(l), Update);
    case LockBetRow(b) => HeldRow(db, after, t, BetRow(b), Update);
  }

  lemma HeldPool(db: Db, after: Db, tx: Tx, k: PoolKey)
    requires Preserved(db, after, tx) && k.market < |db.markets| && Holds(tx, Lock(PoolRow(k), NoKeyUpdate))
    ensures k in after.pools <==> k in db.pools
    ensures PoolOf(after.pools, k) == PoolOf(db.pools, k)
  {
    hide Holds, Firm, PoolOf;
    Firmly(tx, PoolRow(k), NoKeyUpdate);
  }

  lemma AddPoolStable(db: Db, after: Db, w: Writes, k: PoolKey, amount: int)
    requires NoInserts(w)
    requires (k in after.pools <==> k in db.pools) && PoolOf(after.pools, k) == PoolOf(db.pools, k)
    ensures Ask(Merge(after, w), AddPool(k, amount)) == Ask(Merge(db, w), AddPool(k, amount))
  {
    hide Merge, Overlay, OverlayOwners;
    MergeIs(db, w);
    MergeIs(after, w);
  }

  lemma ReadPoolsStable(db: Db, after: Db, w: Writes, m: MarketId)
    requires NoInserts(w) && PoolsOn(after.pools, m) == PoolsOn(db.pools, m)
    ensures Ask(Merge(after, w), ReadPools(m)) == Ask(Merge(db, w), ReadPools(m))
  {
    hide Merge, Overlay, OverlayOwners, PoolsOn, NoInserts;
    MergeIs(db, w);
    MergeIs(after, w);
    PoolsOnMerge(db.pools, after.pools, w.pools, m);
  }

  lemma PoolReplyStable(db: Db, after: Db, t: Tx, w: Writes, s: Statement)
    requires Preserved(db, after, t) && Guarded(db, t, s) && NoInserts(w)
    requires forall lock :: lock in Locks(s, Ask(Merge(db, w), s)) ==> Holds(t, lock)
    requires s.AddPool? || (s.ReadPools? && MarketPreserved(db, after, s.market))
    ensures Ask(Merge(after, w), s) == Ask(Merge(db, w), s)
  {
    hide Holds, Preserved, Merge, Winners, Holders, Ask, NoInserts;
    match s
    case AddPool(k, amount) =>
      HeldPool(db, after, t, k);
      AddPoolStable(db, after, w, k, amount);
    case ReadPools(m) => ReadPoolsStable(db, after, w, m);
  }

  lemma PoolsOnMerge(before: map<PoolKey, nat>, after: map<PoolKey, nat>, w: map<PoolKey, nat>,
      m: MarketId)
    requires PoolsOn(before, m) == PoolsOn(after, m)
    ensures PoolsOn(before + w, m) == PoolsOn(after + w, m)
  {
    assert PoolsOn(before + w, m) == PoolsOn(before, m) + PoolsOn(w, m);
    assert PoolsOn(after + w, m) == PoolsOn(after, m) + PoolsOn(w, m);
  }

  lemma SameOwners(bets: seq<Bet>)
    ensures OverlayOwners(bets, map[]) == bets
  {
  }

  lemma BetsReplyStable(db: Db, after: Db, w: Writes, s: Statement)
    requires NoInserts(w) && w.owners == map[]
    requires (s.ReadWinners? || s.ReadHolders?) && MarketPreserved(db, after, s.market)
    ensures Ask(Merge(after, w), s) == Ask(Merge(db, w), s)
  {
    hide Merge, Winners, Holders, Overlay, OverlayOwners, NoInserts, PoolsOn, ListedOn, HasListed;
    MergeIs(db, w);
    MergeIs(after, w);
    SameOwners(db.bets);
    SameOwners(after.bets);
    match s
    case ReadWinners(m, o) => assert Winners(after.bets, m, o) == Winners(db.bets, m, o);
    case ReadHolders(m) => assert Holders(after.bets, m) == Holders(db.bets, m);
  }

  lemma ListingsReplyStable(db: Db, after: Db, t: Tx, s: Statement)
    requires |db.listings| <= |after.listings| && ListingsPreserved(db, after, t) && Guarded(db, t, s)
    requires s.WithdrawListed? || (s.InsertListing? && !HasListed(db.listings, s.listingRow.bet))
    requires forall lock :: lock in Locks(s, Ask(db, s)) ==> Holds(t, lock)
    ensures Ask(after, s) == Ask(db, s)
  {
    hide Holds, Firm;
    if s.WithdrawListed? {
      var m := s.market;
      forall l | 0 <= l < |after.listings|
        ensures l in ListedOn(after.listings, m) <==> l in ListedOn(db.listings, m)
        ensures l in ListedOn(db.listings, m) ==> after.listings[l] == db.listings[l]
      {
        if l in ListedOn(db.listings, m) {
          assert Lock(ListingRow(l), NoKeyUpdate) in Locks(s, Ask(db, s));
          Firmly(t, ListingRow(l), NoKeyUpdate);
        }
      }
      assert ListedOn(after.listings, m) == ListedOn(db.listings, m);
    }
  }

  predicate ReadsMarket(s: Statement) {
    s.WithdrawListed? || s.ReadPools? || s.ReadWinners? || s.ReadHolders?
  }

  /** What a statement was told, with these guards, it would still be told. */
  lemma StatementStable(db: Db, after: Db, t: Tx, w: Writes, s: Statement)
    requires Preserved(db, after, t) && Guarded(db, t, s) && NoInserts(w)
    requires ReadsMarket(s) ==> MarketPreserved(db, after, s.market)
    requires s.WithdrawListed? || s.InsertListing? ==> w == NOTHING
    requires s.ReadWinners? || s.ReadHolders? ==> w.owners == map[]
    requires forall lock :: lock in Locks(s, Ask(Merge(db, w), s)) ==> Holds(t, lock)
    requires s.InsertListing? ==> Ask(Merge(db, w), s) != Failed
    ensures Ask(Merge(after, w), s) == Ask(Merge(db, w), s)
  {
    hide Holds, Firm, Merge, ListingsPreserved, MarketPreserved, Guarded, NoInserts, Locks, HasListed, ListedOn;
    if s.LockMarketRow? || s.LockUserRow? || s.AddBalance? {
      UserReplyStable(db, after, t, w, s);
    } else if s.FindBetMarket? || s.FindListingMarket? {
      MarketIdReplyStable(db, after, t, w, s);
    } else if s.LockListingRow? || s.LockBetRow? {
      BetReplyStable(db, after, t, w, s);
    } else if s.AddPool? || s.ReadPools? {
      PoolReplyStable(db, after, t, w, s);
    } else if s.ReadWinners? || s.ReadHolders? {
      BetsReplyStable(db, after, w, s);
    } else if s.WithdrawListed? || s.InsertListing? {
      MergeNothing(db);
      MergeNothing(after);
      ListingsReplyStable(db, after, t, s);
    }
  }

  lemma GuardingMarket(db: Db, tx: Tx, s: Statement)
    requires Guarded(db, tx, s) && ReadsMarket(s)
    ensures s.market < |db.markets| && Holds(tx, Lock(MarketRow(s.market), Update))
  {
    hide Holds;
  }

  lemma NotMissing(s: Statement, reply: Reply)
    requires !Missing(s, reply)
    ensures s.InsertListing? ==> reply != Failed
  {
  }

  /** What a running transaction was told, it would still be told after any other
      transaction commits. */
  lemma ReplyStable(db: Db, c: Tx, t: Tx, j: nat)
    requires Valid(db) && Running(db, c) && Running(db, t) && Compatible(c, t) && j < |t.log|
    ensures Ran(t, j) && Answers(View(View(db, c, |c.log|), t, j), StatementAt(t, j), t.log[j])
  {
    hide Valid, Running, Compatible, Merge, Written, ScriptOf, StatementAt, Ran, Guarded, NoInserts, Views, Ask,
        Answers, Missing, WritesGuarded,
      Preserved, MarketPreserved, Holds, Locks;
    var w, wc := Written(t, j), Written(c, |c.log|);
    var after := Merge(db, wc);
    StatementIs(db, t, j);
    StatementGuarded(db, t, j);
    var s := ScriptOf(t.request, t.log)[j];
    NotMissing(s, t.log[j]);
    WrittenBefore(db, t, j, j);
    WritesAreGuarded(db, c, |c.log|);
    CommitPreserves(db, wc, c, t);
    if ReadsMarket(s) {
      GuardingMarket(db, t, s);
      CommitPreservesMarket(db, wc, c, t, s.market);
    }
    forall lock | lock in Locks(s, t.log[j]) ensures Holds(t, lock) {
      HeldSince(db, t, j, lock);
    }
    AnswersAsk(Merge(db, w), s, t.log[j]);
    StatementStable(db, after, t, w, s);
    StillAnswers(Merge(db, w), Merge(after, w), s, t.log[j]);
  }

  /** The order of the bets read matters neither to the locks nor to failure. */
  lemma AnswersAsk(v: Db, s: Statement, reply: Reply)
    requires Answers(v, s, reply)
    ensures Locks(s, Ask(v, s)) == Locks(s, reply)
    ensures s.InsertListing? ==> reply == Ask(v, s)
  {
    hide Ask;
  }

  lemma StillAnswers(v: Db, after: Db, s: Statement, reply: Reply)
    requires Answers(v, s, reply) && Ask(after, s) == Ask(v, s)
    ensures Answers(after, s, reply)
  {
    hide Ask;
  }

  lemma CommitDisturbsNobody(db: Db, c: Tx, t: Tx)
    requires Valid(db) && Running(db, c) && Running(db, t) && Compatible(c, t)
    ensures Running(View(db, c, |c.log|), t)
  {
    hide Valid, Compatible, View, Answers, Next, Ran, StatementAt;
    forall j | 0 <= j < |t.log|
      ensures Ran(t, j) && Answers(View(View(db, c, |c.log|), t, j), StatementAt(t, j), t.log[j])
    {
      ReplyStable(db, c, t, j);
    }
  }

  // ---------------------------------------------------------------- interleaving

  /** The committed database, the transactions in flight, and the calls committed
      so far, in commit order. */
  datatype Sys = Sys(db: Db, txs: map<nat, Tx>, done: seq<Call>)

  /** `rows` is the order in which a query of bets finds them. */
  datatype Event =
    | Begin(id: nat, request: Request)
    | Advance(id: nat, rows: seq<Holding>)
    | Finish(id: nat)
    | Rollback(id: nat)

  predicate Replacing(db: Db, tx: Tx, b: BetId) {
    exists l ::
      && 0 <= l < |db.listings| && l in Written(tx, |tx.log|).listings
      && db.listings[l].bet == b && db.listings[l].status == Listed
  }

  /** `other` holds a row lock that conflicts with one this statement needs; or,
      for an INSERT of a listing, has an uncommitted change to an active listing
      of the same bet, which the unique index must wait for. */
  ghost predicate Blocks(db: Db, other: Tx, s: Statement, reply: Reply) {
    || (exists x, y :: x in Locks(s, reply) && Holds(other, y) && x.row == y.row && Conflicts(x.mode, y.mode))
    || (s.InsertListing? && Replacing(db, other, s.listingRow.bet))
  }

  ghost predicate Waits(s: Sys, id: nat, other: nat) {
    && id in s.txs && other in s.txs && id != other
    && var tx := s.txs[id];
    var next := Next(tx.request, tx.log);
    next.Run? && Blocks(s.db, s.txs[other], next.statement, Ask(View(s.db, tx, |tx.log|), next.statement))
  }

  function Without(txs: map<nat, Tx>, id: nat): map<nat, Tx> { txs - {id} }

  /** The transaction once its next statement got this reply. */
  function Told(tx: Tx, reply: Reply): Tx {
    Tx(tx.request, tx.log + [reply])
  }

  /** The reply to the next statement, bets being found in the order `rows`. */
  function ReplyIn(db: Db, tx: Tx, rows: seq<Holding>): Reply
    requires Next(tx.request, tx.log).Run?
  {
    var next := Next(tx.request, tx.log).statement;
    if ReadsBets(next) then HoldingsAre(rows) else Ask(View(db, tx, |tx.log|), next)
  }

  predicate Answerable(db: Db, tx: Tx, reply: Reply)
    requires Next(tx.request, tx.log).Run?
  {
    Answers(View(db, tx, |tx.log|), Next(tx.request, tx.log).statement, reply)
  }

  ghost predicate CanAdvance(s: Sys, id: nat, rows: seq<Holding>) {
    && id in s.txs && Next(s.txs[id].request, s.txs[id].log).Run?
    && Answerable(s.db, s.txs[id], ReplyIn(s.db, s.txs[id], rows))
    && !(exists other :: Waits(s, id, other))
  }

  /** One step of one transaction. Events that cannot happen change nothing. */
  ghost function Step(s: Sys, e: Event): Sys {
    match e
    case Begin(id, r) =>
      if id in s.txs || Next(r, []).Abort? then s else s.(txs := s.txs[id := Tx(r, [])])
    case Advance(id, rows) =>
      if !CanAdvance(s, id, rows) then s
      else
        var told := Told(s.txs[id], ReplyIn(s.db, s.txs[id], rows));
        if Next(told.request, told.log).Abort? then s.(txs := Without(s.txs, id)) else s.(txs := s.txs[id := told])
    case Finish(id) =>
      if id !in s.txs || !Next(s.txs[id].request, s.txs[id].log).Commit? then s
      else Sys(View(s.db, s.txs[id], |s.txs[id].log|), Without(s.txs, id), s.done + [CallOf(s.txs[id])])
    case Rollback(id) => s.(txs := Without(s.txs, id))
  }

  ghost function Execute(s: Sys, es: seq<Event>): Sys {
    if |es| == 0 then s else Step(Execute(s, es[..|es| - 1]), es[|es| - 1])
  }

  ghost predicate Consistent(s: Sys) {
    && Valid(s.db)
    && (forall id :: id in s.txs ==> Running(s.db, s.txs[id]))
    && (forall i, j :: i in s.txs && j in s.txs && i != j ==> Compatible(s.txs[i], s.txs[j]))
  }

  /** Every call commits when the calls run one at a time from `db`. */
  predicate AllCommit(db: Db, cs: seq<Call>) {
    forall i :: 0 <= i < |cs| ==> Runs.Commits(Runs.After(db, cs[..i]), cs[i])
  }

  lemma CompatibleSymmetric(a: Tx, b: Tx)
    requires Compatible(a, b)
    ensures Compatible(b, a)
  {
    hide Holds;
  }

  lemma FreshIsFree(r: Request, tx: Tx)
    ensures Compatible(Tx(r, []), tx) && Compatible(tx, Tx(r, []))
  {
  }

  lemma BeginConsistent(s: Sys, id: nat, r: Request)
    requires Consistent(s)
    ensures Consistent(Step(s, Begin(id, r)))
    ensures Step(s, Begin(id, r)).db == s.db && Step(s, Begin(id, r)).done == s.done
  {
    hide Valid, Next, Compatible;
    forall other ensures Compatible(Tx(r, []), other) && Compatible(other, Tx(r, [])) {
      FreshIsFree(r, other);
    }
  }

  /** A longer log starts with the same statements and row versions. */
  lemma {:induction false} WrittenPrefix(tx: Tx, told: Tx, n: nat)
    requires told.request == tx.request && n <= |tx.log| && tx.log <= told.log
    ensures Written(told, n) == Written(tx, n)
  {
    hide Next, Write;
    if n > 0 {
      WrittenPrefix(tx, told, n - 1);
      assert told.log[..n - 1] == tx.log[..n - 1];
    }
  }

  lemma ToldReplays(db: Db, tx: Tx, reply: Reply)
    requires Replays(db, tx) && Next(tx.request, tx.log).Run? && Answerable(db, tx, reply)
    ensures Replays(db, Told(tx, reply))
  {
    hide Next, Answers, Merge, Written;
    var told := Told(tx, reply);
    forall j | 0 <= j < |told.log|
      ensures Ran(told, j) && Answers(View(db, told, j), StatementAt(told, j), told.log[j])
    {
      assert told.log[..j] == tx.log[..j];
      assert tx.log[..|tx.log|] == tx.log;
      WrittenPrefix(tx, told, j);
      assert j < |tx.log| ==> Ran(tx, j);
    }
  }

  /** A new lock is one that no other transaction conflicts with. */
  lemma AdvanceCompatible(db: Db, tx: Tx, reply: Reply, other: Tx)
    requires Next(tx.request, tx.log).Run? && Answerable(db, tx, reply) && Compatible(tx, other)
    requires var s := Next(tx.request, tx.log).statement; !Blocks(db, other, s, Ask(View(db, tx, |tx.log|), s))
    ensures Compatible(Told(tx, reply), other) && Compatible(other, Told(tx, reply))
  {
    hide Next, Ask, View, Written, Locks, Answers;
    var told, s := Told(tx, reply), Next(tx.request, tx.log).statement;
    AnswersAsk(View(db, tx, |tx.log|), s, reply);
    forall x, y | Holds(told, x) && Holds(other, y) && x.row == y.row ensures !Conflicts(x.mode, y.mode) {
      var j :| 0 <= j < |told.log| && Ran(told, j) && x in Locks(StatementAt(told, j), told.log[j]);
      assert told.log[..j] == tx.log[..j];
      if j < |tx.log| {
        assert Ran(tx, j);
        assert Holds(tx, x);
      } else {
        assert tx.log[..j] == tx.log;
        assert x in Locks(s, reply);
      }
    }
    CompatibleSymmetric(told, other);
  }

  lemma AdvanceConsistent(s: Sys, id: nat, rows: seq<Holding>)
    requires Consistent(s)
    ensures Consistent(Step(s, Advance(id, rows)))
    ensures Step(s, Advance(id, rows)).db == s.db && Step(s, Advance(id, rows)).done == s.done
  {
    hide Valid, Replays, Compatible, Blocks, View, Next, Ask, Answerable, ReplyIn;
    if CanAdvance(s, id, rows) {
      var tx, reply := s.txs[id], ReplyIn(s.db, s.txs[id], rows);
      var told := Told(tx, reply);
      if !Next(told.request, told.log).Abort? {
        ToldReplays(s.db, tx, reply);
        forall other | other in s.txs && other != id
          ensures Compatible(told, s.txs[other]) && Compatible(s.txs[other], told)
        {
          assert !Waits(s, id, other);
          AdvanceCompatible(s.db, tx, reply, s.txs[other]);
        }
      }
    }
  }

  /** Committing runs the transaction's request, whole, on the database as it is
      at that moment, and leaves every other transaction in flight intact. */
  lemma FinishConsistent(s: Sys, id: nat)
    requires Consistent(s) && id in s.txs && Next(s.txs[id].request, s.txs[id].log).Commit?
    ensures var after, call := Step(s, Finish(id)), CallOf(s.txs[id]);
      && Consistent(after)
      && Possible(s.db, call) && Apply(s.db, call) == Committed(after.db)
      && after.done == s.done + [call]
  {
    hide Valid, Compatible, View, Next, Apply, Replays, CallOf, Possible;
    var c, after := s.txs[id], Step(s, Finish(id));
    ProgramIsTransaction(s.db, c);
    ApplyKeepsValid(s.db, CallOf(c));
    forall other | other in after.txs ensures Running(after.db, after.txs[other]) {
      CommitDisturbsNobody(s.db, c, s.txs[other]);
    }
  }

  /** The error of a program that gives up on this reply, or before its first
      statement. */
  function GivesUp(s: Sys, e: Event): Option<Error> {
    match e
    case Begin(_, r) => if Next(r, []).Abort? then Some(Next(r, []).error) else None
    case Advance(id, rows) =>
      if id !in s.txs || !Next(s.txs[id].request, s.txs[id].log).Run? then None
      else
        var told := Told(s.txs[id], ReplyIn(s.db, s.txs[id], rows));
        if Next(told.request, told.log).Abort? then Some(Next(told.request, told.log).error) else None
    case _ => None
  }

  /** Winning bets read, or not read yet: in some order the transaction fails the same. */
  predicate FailsWith(db: Db, r: Request, rows: seq<Holding>, error: Error) {
    Possible(db, Call(r, rows)) && Apply(db, Call(r, rows)) == RolledBack(error)
  }

  /** A program that rolls back on its own returns the error that its transaction,
      whole, would return on the database as it is at that moment. */
  lemma AbortIsRollback(s: Sys, e: Event)
    requires Consistent(s) && GivesUp(s, e).Some? && (e.Advance? ==> CanAdvance(s, e.id, e.rows))
    ensures var r := if e.Begin? then e.request else s.txs[e.id].request;
      exists rows :: FailsWith(s.db, r, rows, GivesUp(s, e).value)
  {
    hide Valid, Compatible, View, Next, Apply, Replays, Answerable, ReplyIn, Waits;
    var tx := if e.Begin? then Tx(e.request, []) else Told(s.txs[e.id], ReplyIn(s.db, s.txs[e.id], e.rows));
    if e.Begin? {
      NothingReplayed(s.db, e.request);
    } else {
      ToldReplays(s.db, s.txs[e.id], ReplyIn(s.db, s.txs[e.id], e.rows));
    }
    AbortFailsWith(s.db, tx);
  }

  lemma NothingReplayed(db: Db, r: Request)
    ensures Replays(db, Tx(r, []))
  {
  }

  lemma AbortFailsWith(db: Db, tx: Tx)
    requires Valid(db) && Replays(db, tx) && Next(tx.request, tx.log).Abort?
    ensures exists rows :: FailsWith(db, tx.request, rows, Next(tx.request, tx.log).error)
  {
    hide Valid, View, Next, Apply, Replays, Possible;
    ProgramIsTransaction(db, tx);
    var error := Next(tx.request, tx.log).error;
    if |tx.log| > 3 {
      assert FailsWith(db, tx.request, CallOf(tx).rows, error);
    } else {
      var rows := if tx.request.ResolveMarket? then Winners(db.bets, tx.request.market, tx.request.outcome) else [];
      assert Possible(db, Call(tx.request, rows)) by { InsertionOrder(db, tx.request); }
      EarlyAbort(db, tx, rows);
      assert FailsWith(db, tx.request, rows, error);
    }
  }

  lemma InsertionOrder(db: Db, r: Request)
    ensures var rows := if r.ResolveMarket? then Winners(db.bets, r.market, r.outcome) else [];
      Possible(db, Call(r, rows))
  {
  }

  /** An error before the winning bets are read has nothing to do with their order. */
  lemma EarlyAbort(db: Db, tx: Tx, rows: seq<Holding>)
    requires Replays(db, tx) && |tx.log| <= 3 && Next(tx.request, tx.log).Abort?
    requires Apply(db, CallOf(tx)) == RolledBack(Next(tx.request, tx.log).error)
    ensures Apply(db, Call(tx.request, rows)) == RolledBack(Next(tx.request, tx.log).error)
  {
    hide Replays, Winners, Postable, PayoutCredits, TotalPool;
    if tx.request.ResolveMarket? {
      EarlyError(tx.request, tx.log);
    }
  }

  lemma EarlyError(r: Request, log: seq<Reply>)
    requires r.ResolveMarket? && |log| <= 3 && Next(r, log).Abort?
    ensures Next(r, log).error != OutOfRange
  {
  }

  lemma {:induction false} Snoc(db: Db, cs: seq<Call>, c: Call)
    requires AllCommit(db, cs) && Possible(Runs.After(db, cs), c) && Apply(Runs.After(db, cs), c).Committed?
    ensures AllCommit(db, cs + [c])
    ensures Runs.After(db, cs + [c]) == Apply(Runs.After(db, cs), c).db
  {
    hide Apply, Possible;
    var all := cs + [c];
    assert all[..|cs|] == cs;
    forall i | 0 <= i < |all| ensures Runs.Commits(Runs.After(db, all[..i]), all[i]) {
      assert i < |cs| ==> all[..i] == cs[..i];
    }
  }

  /** Every interleaving of every program, whatever order its queries find bets in,
      is serializable in commit order. */
  lemma {:induction false} Serializable(db: Db, es: seq<Event>)
    requires Valid(db)
    ensures var end := Execute(Sys(db, map[], []), es);
      Consistent(end) && end.db == Runs.After(db, end.done) && AllCommit(db, end.done)
  {
    hide Valid, Running, Compatible, Step, Next, View, Apply, Possible;
    if |es| > 0 {
      var n := |es| - 1;
      var s := Execute(Sys(db, map[], []), es[..n]);
      Serializable(db, es[..n]);
      SerialStep(db, s, es[n]);
    }
  }

  lemma RollbackConsistent(s: Sys, id: nat)
    requires Consistent(s)
    ensures Consistent(Step(s, Rollback(id)))
    ensures Step(s, Rollback(id)).db == s.db && Step(s, Rollback(id)).done == s.done
  {
    hide Valid, Running, Compatible;
  }

  lemma NothingToFinish(s: Sys, id: nat)
    requires id !in s.txs || !Next(s.txs[id].request, s.txs[id].log).Commit?
    ensures Step(s, Finish(id)) == s
  {
    hide Next;
  }

  lemma {:induction false} SerialStep(db: Db, s: Sys, e: Event)
    requires Consistent(s) && s.db == Runs.After(db, s.done) && AllCommit(db, s.done)
    ensures var after := Step(s, e);
      Consistent(after) && after.db == Runs.After(db, after.done) && AllCommit(db, after.done)
  {
    hide *;
    match e
    case Begin(id, r) => BeginConsistent(s, id, r);
    case Advance(id, rows) => AdvanceConsistent(s, id, rows);
    case Finish(id) =>
      if id in s.txs && Next(s.txs[id].request, s.txs[id].log).Commit? {
        FinishConsistent(s, id);
        Snoc(db, s.done, CallOf(s.txs[id]));
      } else {
        NothingToFinish(s, id);
      }
    case Rollback(id) => RollbackConsistent(s, id);
  }

  // ------------------------------------------------- what every interleaving keeps

  function Delta(c: Call): int { Injected(c.request) }

  lemma {:induction false} InflowIsDeltas(db: Db, cs: seq<Call>)
    requires AllCommit(db, cs)
    ensures Runs.Inflow(db, cs) == Total(cs, Delta)
  {
    hide Apply, Injected, Possible;
    if |cs| > 0 {
      var n := |cs| - 1;
      forall i | 0 <= i < n ensures Runs.Commits(Runs.After(db, cs[..n][..i]), cs[..n][i]) {
        assert cs[..n][..i] == cs[..i];
      }
      InflowIsDeltas(db, cs[..n]);
    }
  }

  /** So whatever the interleaving, no market's stakes leave escrow twice, nobody's
      balance is negative, and as long as no committed step overflows the money is
      what it was plus the adjustments committed. */
  lemma {:induction false} InterleavingsConserve(db: Db, es: seq<Event>, m: MarketId)
    requires Valid(db)
    ensures var end := Execute(Sys(db, map[], []), es);
      && Runs.ReleaseCount(db, end.done, m) <= 1
      && (forall u :: 0 <= u < |end.db.balances| ==> end.db.balances[u] >= 0)
      && (Runs.NeverOverflows(db, end.done) ==> Supply(end.db) == Supply(db) + Total(end.done, Delta))
  {
    hide *;
    Serializable(db, es);
    var end := Execute(Sys(db, map[], []), es);
    if Runs.NeverOverflows(db, end.done) {
      Runs.RunConserves(db, end.done);
    }
    InflowIsDeltas(db, end.done);
    Runs.ReleasedAtMostOnce(db, end.done, m);
    StateIsValid(end);
    Runs.NoneBelowZero(end.db);
  }

  lemma StateIsValid(s: Sys)
    requires Consistent(s)
    ensures Valid(s.db)
  {
  }
}
