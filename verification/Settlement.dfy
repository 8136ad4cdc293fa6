/** The arithmetic of ResolveMarket: a floored 3% commission, floored payouts,
    and the dust going to the house, all computed in Go's int64. */
module Settlement {
  import opened Int64
  import opened Sums
  import opened Tables

  /** The largest pool whose product with its own 97% fits int64. */
  const SAFE_POOL: int := 3_083_606_810

  function Commission(totalPool: int): int {
    Quot(Wrap(totalPool * 3), 100)
  }

  function Distributable(totalPool: int): int {
    Wrap(totalPool - Commission(totalPool))
  }

  function Payout(stake: int, distributable: int, pool: int): int
    requires pool > 0
  {
    Quot(Wrap(stake * distributable), pool)
  }

  /** The payout without overflow: floor(stake * distributable / pool). */
  function Share(stake: int, distributable: int, pool: int): int
    requires pool > 0
  {
    stake * distributable / pool
  }

  function Pays(distributable: int, pool: int): Holding -> int
    requires pool > 0
  {
    (h: Holding) => Payout(h.stake, distributable, pool)
  }

  function Shares(distributable: int, pool: int): Holding -> int
    requires pool > 0
  {
    (h: Holding) => Share(h.stake, distributable, pool)
  }

  function PayoutCredit(distributable: int, pool: int): Holding -> Credit
    requires pool > 0
  {
    (h: Holding) => Credit(h.owner, Payout(h.stake, distributable, pool))
  }

  function Payouts(winners: seq<Holding>, distributable: int, pool: int): (credits: seq<Credit>)
    requires pool > 0
    ensures |credits| == |winners|
  {
    Map(winners, PayoutCredit(distributable, pool))
  }

  /** What is left of the distributable pool once `paid` has been paid out. */
  function Remainder(totalPool: int, paid: int): int {
    Wrap(Distributable(totalPool) - Wrap(paid))
  }

  /** Commission plus remainder. */
  function HouseGain(totalPool: int, paid: int): int {
    Wrap(Commission(totalPool) + Remainder(totalPool, paid))
  }

  /** Every credit ResolveMarket makes, the house's last and only if positive. */
  function SettlementCredits(totalPool: int, pool: int, winners: seq<Holding>): (credits: seq<Credit>)
    requires pool > 0
    ensures forall i :: 0 <= i < |credits| ==>
      credits[i].user == HOUSE || exists w :: w in winners && w.owner == credits[i].user
  {
    var payouts := Payouts(winners, Distributable(totalPool), pool);
    var gain := HouseGain(totalPool, Total(payouts, Amount));
    if gain > 0 then payouts + [Credit(HOUSE, gain)] else payouts
  }

  // ----------------------------------------------------------- exact arithmetic

  lemma {:induction false} PayoutsTotal(winners: seq<Holding>, d: int, pool: int)
    requires pool > 0
    ensures Total(Payouts(winners, d, pool), Amount) == Total(winners, Pays(d, pool))
  {
    if |winners| > 0 {
      var n := |winners| - 1;
      PayoutsTotal(winners[..n], d, pool);
      assert Payouts(winners, d, pool)[..n] == Payouts(winners[..n], d, pool);
    }
  }

  lemma ShareBounds(stake: int, d: int, pool: int)
    requires pool > 0
    ensures pool * Share(stake, d, pool) <= stake * d <= pool * Share(stake, d, pool) + pool - 1
  {
  }

  /** Flooring each share loses less than one unit per bet. */
  lemma {:induction false} SharesBounds(winners: seq<Holding>, d: int, pool: int)
    requires pool > 0
    ensures pool * Total(winners, Shares(d, pool)) <= Total(winners, HeldStake) * d
    ensures Total(winners, HeldStake) * d <= pool * Total(winners, Shares(d, pool)) + |winners| * (pool - 1)
  {
    if |winners| > 0 {
      var n := |winners| - 1;
      SharesBounds(winners[..n], d, pool);
      ShareBounds(winners[n].stake, d, pool);
      ShareStep(Total(winners[..n], HeldStake), Total(winners[..n], Shares(d, pool)), n,
                winners[n].stake, Share(winners[n].stake, d, pool), d, pool);
    }
  }

  lemma ShareStep(s: int, t: int, n: int, stake: int, share: int, d: int, pool: int)
    requires pool * t <= s * d <= pool * t + n * (pool - 1)
    requires pool * share <= stake * d <= pool * share + pool - 1
    ensures pool * (t + share) <= (s + stake) * d <= pool * (t + share) + (n + 1) * (pool - 1)
  {
    assert (s + stake) * d == s * d + stake * d;
    assert pool * (t + share) == pool * t + pool * share;
    assert (n + 1) * (pool - 1) == n * (pool - 1) + (pool - 1);
  }

  lemma Scaled(p: int, a: int, b: int)
    requires p > 0 && p * a < p * b
    ensures a < b
  {
  }

  /** When the winning stakes make up the winning pool, exact floored shares leave
      at least zero and less than the number of winning bets. */
  lemma {:induction false} DustBound(winners: seq<Holding>, d: int, pool: int)
    requires pool > 0 && Total(winners, HeldStake) == pool
    ensures 0 <= d - Total(winners, Shares(d, pool)) < |winners|
  {
    SharesBounds(winners, d, pool);
    DustArithmetic(pool, d, Total(winners, Shares(d, pool)), |winners|);
  }

  lemma DustArithmetic(pool: int, d: int, t: int, n: int)
    requires pool > 0 && n > 0
    requires pool * t <= pool * d <= pool * t + n * (pool - 1)
    ensures 0 <= d - t < n
  {
    assert pool * (d + 1) == pool * d + pool;
    Scaled(pool, t, d + 1);
    assert n * (pool - 1) == pool * n - n;
    assert pool * (t + n) == pool * t + pool * n;
    Scaled(pool, d, t + n);
  }

  /** Cutting one winning stake into k bets never raises its exact floored share and
      costs at most k - 1 units. */
  lemma {:induction false} SplitStake(parts: seq<Holding>, d: int, pool: int)
    requires pool > 0 && |parts| > 0
    ensures Total(parts, Shares(d, pool)) <= Share(Total(parts, HeldStake), d, pool)
    ensures Share(Total(parts, HeldStake), d, pool) <= Total(parts, Shares(d, pool)) + |parts| - 1
  {
    SharesBounds(parts, d, pool);
    ShareBounds(Total(parts, HeldStake), d, pool);
    SplitArithmetic(pool, Total(parts, HeldStake) * d, Share(Total(parts, HeldStake), d, pool),
                    Total(parts, Shares(d, pool)), |parts|);
  }

  lemma SplitArithmetic(pool: int, x: int, whole: int, t: int, k: int)
    requires pool > 0 && k > 0
    requires pool * t <= x <= pool * t + k * (pool - 1)
    requires pool * whole <= x <= pool * whole + pool - 1
    ensures t <= whole <= t + k - 1
  {
    assert pool * (whole + 1) == pool * whole + pool;
    Scaled(pool, t, whole + 1);
    assert k * (pool - 1) == pool * k - k;
    assert pool * (t + k) == pool * t + pool * k;
    Scaled(pool, whole, t + k);
  }

  // ------------------------------------------------------------ int64 arithmetic

  /** The int64 payout is the exact floored share if and only if the product
      fits; when it does not, overflow can only shrink it. */
  lemma PayoutExactIff(stake: int, d: int, pool: int)
    requires stake >= 0 && d >= 0 && 0 < pool <= MAX
    ensures Payout(stake, d, pool) == Share(stake, d, pool) <==> stake * d <= MAX
    ensures Abs(Payout(stake, d, pool)) <= Share(stake, d, pool)
  {
    assert stake * d >= 0;
    WrappedQuotient(stake * d, pool);
  }

  lemma WrappedQuotient(x: int, p: int)
    requires x >= 0 && 0 < p <= MAX
    ensures Quot(Wrap(x), p) == x / p <==> x <= MAX
    ensures Abs(Quot(Wrap(x), p)) <= x / p
  {
    WrapShrinks(x);
    var w: int := Wrap(x);
    if x <= MAX {
      QuotientMonotone(0, x, p);
    } else if w >= 0 {
      QuotientMonotone(0, w, p);
      QuotientGap(w, x, p);
    } else {
      var v: int := -w;
      QuotientGap(0, x, p);
      QuotientMonotone(v, x, p);
    }
  }

  lemma QuotientMonotone(a: int, b: int, p: int)
    requires 0 <= a <= b && p > 0
    ensures 0 <= a / p <= b / p
  {
    assert p * (b / p + 1) == p * (b / p) + p;
    Scaled(p, a / p, b / p + 1);
  }

  lemma QuotientGap(a: int, b: int, p: int)
    requires 0 <= a && a + p <= b && p > 0
    ensures a / p < b / p
  {
    assert p * (b / p + 1) == p * (b / p) + p;
    Scaled(p, a / p, b / p + 1);
    assert p * (a / p + 1) == p * (a / p) + p;
    Scaled(p, a / p + 1, b / p + 1);
  }

  lemma NetMonotone(a: int, b: int)
    requires 0 <= a <= b
    ensures 0 <= a - a * 3 / 100 <= b - b * 3 / 100
  {
  }

  /** A stake within a pool of at most SAFE_POOL never overflows its payout. */
  lemma SafePoolIsExact(stake: int, total: int)
    requires 0 <= stake <= total <= SAFE_POOL
    ensures stake * (total - total * 3 / 100) <= MAX
  {
    NetMonotone(total, SAFE_POOL);
    ProductMonotone(stake, SAFE_POOL, total - total * 3 / 100, SAFE_POOL - SAFE_POOL * 3 / 100);
  }

  lemma ProductMonotone(a: int, b: int, c: int, d: int)
    requires 0 <= a <= b && 0 <= c <= d
    ensures 0 <= a * c <= b * d
  {
    assert a * c <= b * c <= b * d;
  }

  lemma SafePoolIff(total: int)
    requires total > 0
    ensures total * (total - total * 3 / 100) <= MAX <==> total <= SAFE_POOL
  {
    if total <= SAFE_POOL {
      SafePoolIsExact(total, total);
    } else {
      var least := SAFE_POOL + 1;
      NetMonotone(least, total);
      ProductMonotone(least, total, least - least * 3 / 100, total - total * 3 / 100);
    }
  }

  /** For any total that does not overflow when tripled, commission and
      distributable pool are the exact ones. */
  lemma CommissionExact(total: int)
    requires 0 <= total && total * 3 <= MAX
    ensures Commission(total) == total * 3 / 100
    ensures Distributable(total) == total - total * 3 / 100
    ensures 0 <= Commission(total) <= total && 0 <= Distributable(total) <= total
  {
    WrapShrinks(total * 3);
    WrapShrinks(total - total * 3 / 100);
  }

  /** What the house is credited, whatever overflowed on the way: the pool minus
      the payouts, reduced to 64 bits. */
  lemma HouseGainIs(total: int, paid: int)
    ensures HouseGain(Wrap(total), paid) == Wrap(total - paid)
  {
    hide Wrap;
    WrapCancels(total, Commission(Wrap(total)), paid);
  }

  lemma WrapCancels(total: int, c: int, paid: int)
    ensures Wrap(c + Wrap(Wrap(Wrap(total) - c) - Wrap(paid))) == Wrap(total - paid)
  {
    WrapDifference(Wrap(Wrap(total) - c), paid);
    WrapSum(Wrap(total) - c, -paid);
    WrapSum(Wrap(total) - c - paid, c);
    WrapSum(total, -paid);
  }

  lemma HouseGainExact(total: int, paid: int)
    requires 0 <= total <= MAX && 0 <= total - paid <= MAX
    ensures HouseGain(total, paid) == total - paid
  {
    WrapShrinks(total);
    HouseGainIs(total, paid);
    WrapShrinks(total - paid);
  }

  /** Settlement hands out exactly the pool if and only if the payouts do not
      exceed it and leave the house an int64 amount. */
  lemma {:induction false} SettlementConservesIff(total: int, pool: int, winners: seq<Holding>)
    requires pool > 0
    ensures var paid := Total(winners, Pays(Distributable(Wrap(total)), pool));
      Total(SettlementCredits(Wrap(total), pool, winners), Amount) == total <==> 0 <= total - paid <= MAX
  {
    var d := Distributable(Wrap(total));
    var payouts := Payouts(winners, d, pool);
    var paid := Total(payouts, Amount);
    PayoutsTotal(winners, d, pool);
    HouseGainIs(total, paid);
    var gain := HouseGain(Wrap(total), paid);
    assert gain == Wrap(total - paid);
    if 0 <= total - paid {
      WrapShrinks(total - paid);
    }
    TotalAppend(payouts, Credit(HOUSE, gain), Amount);
  }

  /** Overflowing products cannot break conservation while the tripled pool fits:
      they only shrink payouts, and the house absorbs the difference. */
  lemma {:induction false} SettlementConserves(total: int, pool: int, winners: seq<Holding>)
    requires 0 < pool <= total && total * 3 <= MAX
    requires Total(winners, HeldStake) == pool
    requires forall i :: 0 <= i < |winners| ==> winners[i].stake >= 0
    ensures Total(SettlementCredits(total, pool, winners), Amount) == total
    ensures Total(winners, Pays(Distributable(total), pool)) <= Distributable(total)
  {
    WrapShrinks(total);
    CommissionExact(total);
    var d := Distributable(total);
    var paid := Total(winners, Pays(d, pool));
    PaidBetween(winners, d, pool);
    DustBound(winners, d, pool);
    assert -d <= paid <= d;
    SettlementConservesIff(total, pool, winners);
  }

  lemma {:induction false} PaidBetween(winners: seq<Holding>, d: int, pool: int)
    requires 0 < pool <= MAX && d >= 0
    requires forall i :: 0 <= i < |winners| ==> winners[i].stake >= 0
    ensures -Total(winners, Shares(d, pool)) <= Total(winners, Pays(d, pool)) <= Total(winners, Shares(d, pool))
  {
    if |winners| > 0 {
      var n := |winners| - 1;
      PaidBetween(winners[..n], d, pool);
      PayoutExactIff(winners[n].stake, d, pool);
    }
  }

  /** Winning bets that make up a winning pool, inside a total. */
  predicate Makes(total: int, pool: int, winners: seq<Holding>) {
    && 0 < pool <= total && pool <= MAX && Total(winners, HeldStake) == pool
    && forall i :: 0 <= i < |winners| ==> winners[i].stake > 0
  }

  /** Every winner gets the floored share of 97% of the total. */
  predicate PaysExactShares(total: int, pool: int, winners: seq<Holding>)
    requires pool > 0
  {
    forall i :: 0 <= i < |winners| ==>
      Payout(winners[i].stake, Distributable(Wrap(total)), pool) ==
        Share(winners[i].stake, total - total * 3 / 100, pool)
  }

  /** With a safe pool no product overflows, so every winner gets the exact floored
      share. */
  lemma {:induction false} SafePayouts(total: int, pool: int, winners: seq<Holding>)
    requires total <= SAFE_POOL && Makes(total, pool, winners)
    ensures var d := total - total * 3 / 100;
      && Distributable(Wrap(total)) == Distributable(total) == d >= 0
      && (forall i :: 0 <= i < |winners| ==> Payout(winners[i].stake, d, pool) == Share(winners[i].stake, d, pool))
      && Total(winners, Pays(d, pool)) == Total(winners, Shares(d, pool)) >= 0
  {
    var d := total - total * 3 / 100;
    WrapShrinks(total);
    CommissionExact(total);
    TotalNonNegative(winners, HeldStake);
    forall i | 0 <= i < |winners|
      ensures Payout(winners[i].stake, d, pool) == Share(winners[i].stake, d, pool)
      ensures Shares(d, pool)(winners[i]) >= 0
    {
      assert HeldStake(winners[i]) <= pool;
      SafePoolIsExact(winners[i].stake, total);
      PayoutExactIff(winners[i].stake, d, pool);
    }
    TotalNonNegative(winners, Shares(d, pool));
    TotalPointwise(winners, Pays(d, pool), Shares(d, pool));
  }

  /** The house gets the commission plus exactly what flooring left over, which is
      fewer units than there are winning bets. */
  lemma {:induction false} SafeSettlement(total: int, pool: int, winners: seq<Holding>)
    requires total <= SAFE_POOL && Makes(total, pool, winners)
    ensures PaysExactShares(total, pool, winners)
    ensures var d := total - total * 3 / 100;
      var rest := d - Total(winners, Shares(d, pool));
      && 0 <= rest < |winners|
      && HouseGain(total, Total(winners, Pays(Distributable(total), pool))) == total * 3 / 100 + rest
  {
    var d := total - total * 3 / 100;
    SafePayouts(total, pool, winners);
    DustBound(winners, d, pool);
    HouseGainExact(total, Total(winners, Pays(d, pool)));
  }

  lemma OneWinner(pool: int)
    requires pool > 0
    ensures Total([Holding(1, pool)], HeldStake) == pool
  {
    assert [Holding(1, pool)][..0] == [];
  }

  /** A sole winner of everything, owed 97% of a total that does not fit, is not
      paid that. */
  lemma SoleWinnerUnderpaid(total: int)
    requires SAFE_POOL < total <= MAX
    ensures !PaysExactShares(total, total, [Holding(1, total)])
  {
    hide Wrap, Distributable;
    var d, net := Distributable(Wrap(total)), total - total * 3 / 100;
    var w: int := Wrap(total * d);
    NetMonotone(1, total);
    SafePoolIff(total);
    assert Share(total, net, total) == net by { ShareOfWhole(total, net); }
    var paid := Payout(total, d, total);
    if w >= 0 {
      ShareBounds(1, w, total);
      assert total * (w / total) <= w <= MAX < total * net;
    } else {
      QuotientMonotone(0, -w, total);
    }
    assert [Holding(1, total)][0].stake == total;
  }

  lemma ShareOfWhole(pool: int, d: int)
    requires pool > 0
    ensures Share(pool, d, pool) == d
  {
    ShareBounds(pool, d, pool);
    Scaled(pool, Share(pool, d, pool), d + 1);
    assert pool * (Share(pool, d, pool) + 1) == pool * Share(pool, d, pool) + pool;
    Scaled(pool, d, Share(pool, d, pool) + 1);
  }

  /** Every settlement of a total pays exact shares if and only if that total times
      its own 97% fits int64 - up to 3,083,606,810. */
  lemma ExactSharesIff(total: int)
    requires 0 < total <= MAX
    ensures (forall pool, winners :: Makes(total, pool, winners) ==> PaysExactShares(total, pool, winners)) <==>
      total * (total - total * 3 / 100) <= MAX
  {
    hide PaysExactShares, Total;
    SafePoolIff(total);
    if total <= SAFE_POOL {
      forall pool, winners | Makes(total, pool, winners) ensures PaysExactShares(total, pool, winners) {
        SafeSettlement(total, pool, winners);
      }
    } else {
      OneWinner(total);
      SoleWinnerUnderpaid(total);
      assert Makes(total, total, [Holding(1, total)]);
    }
  }

  // --------------------------------------------------------- cutting a winning stake

  /** These bets make up the stake. */
  predicate Cuts(stake: int, parts: seq<Holding>) {
    && |parts| > 0 && Total(parts, HeldStake) == stake
    && forall i :: 0 <= i < |parts| ==> parts[i].stake > 0
  }

  /** As k bets, the stake is paid no more than as one, and at most k - 1 less. */
  predicate KeepsPayout(total: int, pool: int, stake: int, parts: seq<Holding>)
    requires pool > 0
  {
    var d := Distributable(Wrap(total));
    Total(parts, Pays(d, pool)) <= Payout(stake, d, pool) <= Total(parts, Pays(d, pool)) + |parts| - 1
  }

  /** However any winning stake is cut, in any settlement of the total. */
  ghost predicate EveryCutIsFair(total: int) {
    forall pool, winners: seq<Holding>, w: Holding, parts ::
      Makes(total, pool, winners) && w in winners && Cuts(w.stake, parts) ==> KeepsPayout(total, pool, w.stake, parts)
  }

  /** A part of a safe pool, and every part of that, is paid its exact share. */
  lemma SafeCut(total: int, pool: int, stake: int, parts: seq<Holding>)
    requires 0 < pool <= total <= SAFE_POOL && 0 < stake <= pool && Cuts(stake, parts)
    ensures KeepsPayout(total, pool, stake, parts)
  {
    var d := total - total * 3 / 100;
    WrapShrinks(total);
    CommissionExact(total);
    TotalNonNegative(parts, HeldStake);
    forall i | 0 <= i < |parts| ensures Pays(d, pool)(parts[i]) == Shares(d, pool)(parts[i]) {
      assert HeldStake(parts[i]) <= stake;
      SafePoolIsExact(parts[i].stake, total);
      PayoutExactIff(parts[i].stake, d, pool);
    }
    TotalPointwise(parts, Pays(d, pool), Shares(d, pool));
    SafePoolIsExact(stake, total);
    PayoutExactIff(stake, d, pool);
    SplitStake(parts, d, pool);
  }

  function EqualParts(n: nat, stake: int): (parts: seq<Holding>)
    ensures |parts| == n && forall i :: 0 <= i < n ==> parts[i] == Holding(1, stake)
  {
    seq(n, i requires 0 <= i < n => Holding(1, stake))
  }

  lemma {:induction false} EqualTotal(n: nat, stake: int, f: Holding -> int)
    ensures Total(EqualParts(n, stake), f) == n * f(Holding(1, stake))
  {
    if n > 0 {
      assert EqualParts(n, stake)[..n - 1] == EqualParts(n - 1, stake);
      EqualTotal(n - 1, stake, f);
    }
  }

  /** A sole winner of the whole pool is paid no more than fits. */
  lemma SoleWinnerAtMost(total: int, d: int, bound: int)
    requires total > 0 && bound >= 0 && MAX < bound * total
    ensures Payout(total, d, total) < bound || Payout(total, d, total) <= 0
  {
    var w: int := Wrap(total * d);
    if w >= 0 {
      ShareBounds(1, w, total);
      Scaled(total, w / total, bound);
    } else {
      QuotientMonotone(0, -w, total);
    }
  }

  /** Past the safe pool the sole winner of everything is paid less than half of it. */
  lemma SoleWinnerBelowHalf(total: int, d: int)
    requires SAFE_POOL < total && 0 <= d < total && MAX < total * d
    ensures Payout(total, d, total) < total / 2
  {
    var w: int := Wrap(total * d);
    if w < 0 {
      QuotientMonotone(0, -w, total);
    } else {
      assert total * d >= w + TWO_TO_64;
      AboveTwoTo32(total, d);
      SoleWinnerAtMost(total, d, 0x8000_0000);
    }
  }

  lemma AboveTwoTo32(total: int, d: int)
    requires 0 <= d < total && total * d >= TWO_TO_64
    ensures total > 0x1_0000_0000
  {
    if total <= 0x1_0000_0000 {
      ProductMonotone(total, 0x1_0000_0000, d, 0xFFFF_FFFF);
    }
  }

  /** Cut into stakes of two it is paid at least half. */
  lemma TwosPayHalf(total: int, d: int)
    requires 1 < total && total <= 2 * d <= MAX
    ensures var parts := EqualParts(total / 2, 2) + (if total % 2 == 1 then [Holding(1, 1)] else []);
      Cuts(total, parts) && Total(parts, Pays(d, total)) >= total / 2
  {
    var twos, rest := EqualParts(total / 2, 2), if total % 2 == 1 then [Holding(1, 1)] else [];
    EqualTotal(total / 2, 2, HeldStake);
    EqualTotal(total / 2, 2, Pays(d, total));
    TotalConcat(twos, rest, HeldStake);
    TotalConcat(twos, rest, Pays(d, total));
    WrapShrinks(2 * d);
    WrapShrinks(1 * d);
    AtLeast(2 * d, total, 1);
    AtLeast(d, total, 0);
    assert rest[..0] == [];
    TimesAtLeast(total / 2, Payout(2, d, total));
  }

  lemma AtLeast(x: int, p: int, q: int)
    requires p > 0 && 0 <= p * q <= x
    ensures x / p >= q
  {
    ShareBounds(1, x, p);
    Scaled(p, q, x / p + 1);
  }

  lemma TimesAtLeast(n: nat, x: int)
    requires x >= 1
    ensures n * x >= n
  {
    assert n * x == n + n * (x - 1);
  }

  /** Totals that do not fit when tripled: what int64 makes of the commission. */
  lemma BigTotal(total: int)
    requires MAX < total * 3 && total <= MAX
    ensures Wrap(total) == total && Distributable(total) == total - Commission(total)
    ensures 0x2000_0000_0000_0000 < Distributable(total) <= MAX
    ensures Commission(total) > 0 ==> 0x4000_0000_0000_0000 < Distributable(total)
  {
    WrapShrinks(total);
    WrapUnique(total * 3, total * 3 - TWO_TO_64);
    WrapShrinks(total - Commission(total));
  }

  lemma UnfairAboveSafe(total: int) returns (parts: seq<Holding>)
    requires SAFE_POOL < total && total * 3 <= MAX
    ensures Cuts(total, parts) && !KeepsPayout(total, total, total, parts)
  {
    hide Wrap, Total, Payout;
    WrapShrinks(total);
    CommissionExact(total);
    SafePoolIff(total);
    NetMonotone(1, total);
    var d := total - total * 3 / 100;
    SoleWinnerBelowHalf(total, d);
    TwosPayHalf(total, d);
    parts := EqualParts(total / 2, 2) + (if total % 2 == 1 then [Holding(1, 1)] else []);
  }

  /** With a commission below zero, stakes of one are each paid at least one. */
  lemma UnfairWithoutCommission(total: int) returns (parts: seq<Holding>)
    requires MAX < total * 3 && total <= MAX && Commission(total) <= 0
    ensures Cuts(total, parts) && !KeepsPayout(total, total, total, parts)
  {
    hide Wrap, Total, Commission, Distributable;
    BigTotal(total);
    var d := Distributable(total);
    SoleWinnerAtMost(total, d, 3);
    parts := EqualParts(total, 1);
    EqualTotal(total, 1, HeldStake);
    EqualTotal(total, 1, Pays(d, total));
    WrapShrinks(1 * d);
    AtLeast(d, total, 1);
    TimesAtLeast(total, Payout(1, d, total));
  }

  /** With one above zero, a stake of two is charged and two of one are paid. */
  lemma UnfairPair(total: int)
    requires MAX < total * 3 && total <= MAX && Commission(total) > 0
    ensures Cuts(2, EqualParts(2, 1)) && !KeepsPayout(total, 2, 2, EqualParts(2, 1))
  {
    hide Total, Commission, Distributable;
    BigTotal(total);
    var d := Distributable(total);
    EqualTotal(2, 1, HeldStake);
    EqualTotal(2, 1, Pays(d, 2));
    WrapShrinks(1 * d);
    WrapUnique(2 * d, 2 * d - TWO_TO_64);
  }

  /** In every settlement of a total, cutting a winning stake into k bets never raises
      its payout and costs at most k - 1 units, if and only if that total times its
      own 97% fits int64. */
  lemma EveryCutIsFairIff(total: int)
    requires 0 < total <= MAX
    ensures EveryCutIsFair(total) <==> total * (total - total * 3 / 100) <= MAX
  {
    hide KeepsPayout, Cuts, Commission;
    SafePoolIff(total);
    if total <= SAFE_POOL {
      forall pool, winners: seq<Holding>, w: Holding, parts
        | Makes(total, pool, winners) && w in winners && Cuts(w.stake, parts)
        ensures KeepsPayout(total, pool, w.stake, parts)
      {
        WithinPool(total, pool, winners, w);
        SafeCut(total, pool, w.stake, parts);
      }
    } else {
      var pool := if MAX < total * 3 && Commission(total) > 0 then 2 else total;
      OneWinner(pool);
      assert Makes(total, pool, [Holding(1, pool)]) && Holding(1, pool) in [Holding(1, pool)];
      if total * 3 <= MAX {
        var parts := UnfairAboveSafe(total);
      } else if Commission(total) <= 0 {
        var parts := UnfairWithoutCommission(total);
      } else {
        UnfairPair(total);
      }
    }
  }

  lemma WithinPool(total: int, pool: int, winners: seq<Holding>, w: Holding)
    requires Makes(total, pool, winners) && w in winners
    ensures 0 < w.stake <= pool
  {
    TotalNonNegative(winners, HeldStake);
    var i :| 0 <= i < |winners| && winners[i] == w;
    assert HeldStake(winners[i]) <= Total(winners, HeldStake);
  }

  /** As one bet the sole winner of 3,500,000,000 is paid 1,519,501,693; as ten bets,
      6,790,000,000. */
  lemma TenBetsPayMore()
    ensures var d, parts := Distributable(Wrap(7_000_000_000)), EqualParts(10, 350_000_000);
      && Cuts(3_500_000_000, parts)
      && Payout(3_500_000_000, d, 3_500_000_000) == 1_519_501_693
      && Total(parts, Pays(d, 3_500_000_000)) == 6_790_000_000
  {
    hide Total;
    WrapShrinks(7_000_000_000);
    LargePoolUnderpays();
    var d := Distributable(7_000_000_000);
    EqualTotal(10, 350_000_000, HeldStake);
    EqualTotal(10, 350_000_000, Pays(d, 3_500_000_000));
    WrapShrinks(350_000_000 * d);
  }

  // -------------------------------------------------------------- what is left over

  /** The remainder the house gets besides its commission is at least zero and
      smaller than the number of winning bets. */
  predicate LeavesDust(total: int, pool: int, winners: seq<Holding>)
    requires pool > 0
  {
    var paid := Total(winners, Pays(Distributable(Wrap(total)), pool));
    0 <= Remainder(Wrap(total), paid) < |winners|
  }

  lemma SafeLeavesDust(total: int, pool: int, winners: seq<Holding>)
    requires total <= SAFE_POOL && Makes(total, pool, winners)
    ensures LeavesDust(total, pool, winners)
  {
    hide Total;
    var d := total - total * 3 / 100;
    WrapShrinks(total);
    SafePayouts(total, pool, winners);
    DustBound(winners, d, pool);
    var paid := Total(winners, Pays(d, pool));
    WrapShrinks(paid);
    WrapShrinks(d - paid);
  }

  lemma SoleWinnerRemainder(total: int)
    requires SAFE_POOL < total <= MAX
    ensures !LeavesDust(total, total, [Holding(1, total)])
  {
    hide Wrap, Distributable, Commission, Total;
    var winners, d := [Holding(1, total)], Distributable(Wrap(total));
    var paid := Payout(total, d, total);
    WrapShrinks(total);
    OnePays(total, d);
    if total * 3 <= MAX {
      CommissionExact(total);
      SafePoolIff(total);
      SoleWinnerBelowHalf(total, d);
    } else {
      BigTotal(total);
      SoleWinnerAtMost(total, d, 3);
    }
    NotEverything(total, d);
    WrapDifference(d, paid);
    NonZeroWrap(d - paid);
  }

  lemma OnePays(stake: int, d: int)
    requires stake > 0
    ensures Total([Holding(1, stake)], Pays(d, stake)) == Payout(stake, d, stake)
  {
    assert [Holding(1, stake)][..0] == [];
  }

  /** A payout is itself an int64. */
  lemma NotEverything(total: int, d: int)
    requires total > 0
    ensures MIN <= Payout(total, d, total) <= MAX
  {
    var w: int := Wrap(total * d);
    QuotientMonotone(0, Abs(w), total);
    AtMostItself(Abs(w), total);
  }

  lemma AtMostItself(x: nat, p: int)
    requires p > 0
    ensures x / p <= x
  {
    TimesAtLeast(x, p);
    assert p * (x + 1) == x * p + p;
    ShareBounds(1, x, p);
    Scaled(p, x / p, x + 1);
  }

  lemma NonZeroWrap(x: int)
    requires x != 0 && -TWO_TO_64 < x < TWO_TO_64
    ensures Wrap(x) != 0
  {
  }

  /** Every settlement of a total leaves such a remainder if and only if that total
      times its own 97% fits int64. */
  lemma LeavesDustIff(total: int)
    requires 0 < total <= MAX
    ensures (forall pool, winners :: Makes(total, pool, winners) ==> LeavesDust(total, pool, winners)) <==>
      total * (total - total * 3 / 100) <= MAX
  {
    hide LeavesDust, Total;
    SafePoolIff(total);
    if total <= SAFE_POOL {
      forall pool, winners | Makes(total, pool, winners) ensures LeavesDust(total, pool, winners) {
        SafeLeavesDust(total, pool, winners);
      }
    } else {
      OneWinner(total);
      SoleWinnerRemainder(total);
      assert Makes(total, total, [Holding(1, total)]);
    }
  }

  // ---------------------------------------------------- which totals always conserve

  predicate HandsOut(total: int, pool: int, winners: seq<Holding>)
    requires pool > 0
  {
    Total(SettlementCredits(Wrap(total), pool, winners), Amount) == total
  }

  /** What a sole winner is paid decides. */
  lemma SoleWinnerIff(total: int, pool: int)
    requires pool > 0
    ensures var paid := Payout(pool, Distributable(Wrap(total)), pool);
      HandsOut(total, pool, [Holding(1, pool)]) <==> 0 <= total - paid <= MAX
  {
    hide Wrap, Distributable, Payout, SettlementCredits;
    var winners, d := [Holding(1, pool)], Distributable(Wrap(total));
    SettlementConservesIff(total, pool, winners);
    assert winners[..0] == [];
    assert Total(winners, Pays(d, pool)) == Payout(pool, d, pool);
  }

  /** A negative commission overpays a winning stake of one unit. */
  lemma NegativeCommission(total: int)
    requires MAX < total * 3 && total <= MAX && Commission(total) < 0
    ensures Payout(1, Distributable(Wrap(total)), 1) > total
  {
    WrapShrinks(total);
    WrapUnique(total * 3, total * 3 - TWO_TO_64);
    var c := Commission(total);
    WrapShrinks(total - c);
    WrapShrinks(1 * Distributable(total));
  }

  /** Otherwise a winning stake of two units is charged instead of paid. */
  lemma NegativePayout(total: int)
    requires MAX < total * 3 && total <= MAX && Commission(total) >= 0
    ensures total - Payout(2, Distributable(Wrap(total)), 2) > MAX
  {
    WrapShrinks(total);
    WrapUnique(total * 3, total * 3 - TWO_TO_64);
    var c := Commission(total);
    assert total * 3 - TWO_TO_64 > -100;
    WrapShrinks(total - c);
    var d := Distributable(total);
    assert d == total - c && 0x4000_0000_0000_0000 < d <= MAX;
    WrapUnique(2 * d, 2 * d - TWO_TO_64);
  }

  const NET_OF_MIN: int := -9_131_138_316_486_228_050

  lemma NetOfMin()
    ensures Distributable(MIN) == NET_OF_MIN && Payout(MAX, NET_OF_MIN, MAX) == 0
  {
    WrapUnique(MIN * 3, MIN);
    WrapUnique(MIN + 92_233_720_368_547_758, NET_OF_MIN);
    WrapUnique(MAX * NET_OF_MIN, -NET_OF_MIN);
  }

  /** A total beyond int64 cannot be handed out to the winner of a full pool. */
  lemma BeyondInt64(total: int)
    requires total > MAX
    ensures total - Payout(MAX, Distributable(Wrap(total)), MAX) > MAX
  {
    hide Wrap, Distributable;
    AtMostOne(Wrap(MAX * Distributable(Wrap(total))));
    if total == MAX + 1 {
      WrapUnique(total, MIN);
      NetOfMin();
    }
  }

  lemma AtMostOne(x: int64)
    ensures Quot(x, MAX) <= 1
  {
  }

  /** Every settlement of a total hands out exactly that total if and only if the
      total fits int64 when tripled. */
  lemma AlwaysHandsOutIff(total: int)
    requires total > 0
    ensures (forall pool, winners :: Makes(total, pool, winners) ==> HandsOut(total, pool, winners)) <==>
      total * 3 <= MAX
  {
    hide HandsOut, Total, Wrap, Distributable, Payout, Commission;
    if total * 3 <= MAX {
      WrapShrinks(total);
      forall pool, winners | Makes(total, pool, winners) ensures HandsOut(total, pool, winners) {
        SettlementConserves(total, pool, winners);
        HandsOutIs(total, pool, winners);
      }
    } else {
      var pool := if total > MAX then MAX else if Commission(total) < 0 then 1 else 2;
      OneWinner(pool);
      SoleWinnerIff(total, pool);
      if total > MAX {
        BeyondInt64(total);
      } else if Commission(total) < 0 {
        NegativeCommission(total);
      } else {
        NegativePayout(total);
      }
      assert Makes(total, pool, [Holding(1, pool)]) && !HandsOut(total, pool, [Holding(1, pool)]);
    }
  }

  lemma HandsOutIs(total: int, pool: int, winners: seq<Holding>)
    requires pool > 0 && Total(SettlementCredits(total, pool, winners), Amount) == total && Wrap(total) == total
    ensures HandsOut(total, pool, winners)
  {
  }

  // ------------------------------------------------------------------ order of rows

  /** Rows returned in another order pay everyone the same. */
  lemma {:induction false} SettlementOrderFree(balances: seq<int>, total: int, pool: int, ws: seq<Holding>,
      rows: seq<Holding>)
    requires pool > 0 && multiset(ws) == multiset(rows)
    ensures multiset(SettlementCredits(total, pool, ws)) == multiset(SettlementCredits(total, pool, rows))
    ensures Post(balances, SettlementCredits(total, pool, ws)) == Post(balances, SettlementCredits(total, pool, rows))
  {
    var d := Distributable(total);
    MapOrderFree(ws, rows, PayoutCredit(d, pool));
    TotalOrderFree(Payouts(ws, d, pool), Payouts(rows, d, pool), Amount);
    hide Payouts;
    PostOrderFree(balances, SettlementCredits(total, pool, ws), SettlementCredits(total, pool, rows));
  }

  // ------------------------------------------------------------- where it breaks

  /** Two seeds of 3,500,000,000: the sole winner is owed 6,790,000,000 and is
      paid 1,519,501,693 of it, the house keeping the rest. */
  lemma LargePoolUnderpays()
    ensures var d := Distributable(7_000_000_000);
      && d == Share(3_500_000_000, d, 3_500_000_000) == 6_790_000_000
      && Payout(3_500_000_000, d, 3_500_000_000) == 1_519_501_693
  {
    CommissionExact(7_000_000_000);
    WrapUnique(3_500_000_000 * 6_790_000_000, 3_500_000_000 * 6_790_000_000 - TWO_TO_64);
  }

  /** Above a third of the int64 range the commission turns negative and a small
      winning stake is paid more than the whole pool: money is created. */
  lemma HugePoolOverpays()
    ensures var total := 3_100_000_000_000_000_000;
      && Commission(total) < 0
      && Total(SettlementCredits(total, 1, [Holding(7, 1)]), Amount) > total
  {
    var total := 3_100_000_000_000_000_000;
    WrapUnique(total * 3, total * 3 - TWO_TO_64);
    var c := Commission(total);
    assert c == -91467440737095516;
    WrapShrinks(total - c);
    var d := Distributable(total);
    assert d == total - c;
    WrapShrinks(d);
    var ws := [Holding(7, 1)];
    var payouts := Payouts(ws, d, 1);
    assert payouts == [] + [Credit(7, d)];
    assert payouts[..0] == [];
    assert Total(payouts, Amount) == d;
    HouseGainIs(total, d);
    WrapShrinks(total);
    WrapUnique(total - d, c);
  }
}
