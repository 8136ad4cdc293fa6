# Verification of the betting and wallet engines

This project models two money engines and proves what they keep.

The **betting engine** (`bet-backend/service`) runs pari-mutuel markets whose
bets can be resold: a database of balances, markets, pools, bets and listings,
changed by ten transactions. It is modelled at three levels, each proved
against the one above:

- `Transactions.dfy` gives every transaction as a function from the committed
  database to the next one or to the error it rolls back with; `Invariants.dfy`,
  `Accounting.dfy` and `Runs.dfy` prove what single transactions and whole runs
  keep, on top of the settlement arithmetic in `Settlement.dfy`. Settlement reads
  its bets without ORDER BY: a run says in which order they came back, and
  `AnyOrder.dfy` proves what depends on it. `Rules.dfy` says of every request when it
  is refused, with which error, and which rows a success changes, and `Lifecycle.dfy`
  what follows for the life of a market.
- `BetBackend.dfy` is the service as a class changing its tables in place, with
  the source's loops and early exits.
- `Locking.dfy` takes the same transactions apart into statements with their
  row locks, under READ COMMITTED. `Isolation.dfy` shows that a program run alone
  does its transaction, `Guards.dfy` what is locked when a statement runs,
  `Serializability.dfy` that any interleaving is equivalent to a serial run in
  commit order, and `Deadlock.dfy` which programs cannot wait for each other in a
  circle. Which two can is the subject of `Pairs.dfy` (what two transactions can
  reach together), `Interlock.dfy` (what it means that they wait for each other) and
  `Crossing.dfy` (how far each gets alone, and the criterion).

The **wallet engine** (`wallet-backend`) credits on-chain deposits and pays out
withdrawals against that ledger, while every call it makes can fail before or
after taking effect. `Conversion.dfy` is its fixed-point arithmetic,
`Wallet.dfy` and `Poller.dfy` the effect of every call and of whole runs for
every pattern of failures, `WalletRules.dfy` what each call reports and leaves, case by
case, `WalletBackend.dfy` the service and poller as a class,
and `WalletRaces.dfy` and `WalletSteps.dfy` the same calls taken apart and
interleaved: provisioning and the faucet, scans and withdrawals.
`Joint.dfy` puts the two engines together: the wallet's ledger calls are
bet-backend's balance adjustments.

`Views.dfy` covers the two derived figures of the market pages
(`general-backend/handlers/viewbuild.go`) that must agree with the pools.
`Int64.dfy`, `Sums.dfy`, `Wrappers.dfy` and `Tables.dfy` hold what the others
share: Go's 64-bit arithmetic, sums over rows, and the tables.

## Reading the model

- A row's identifier is its position in its table. Users are numbered in the
  string order of their UUIDs, which makes the all-zero house account user 0 and
  keeps the order in which two users are locked.
- A value computed in Go goes through `Int64.Wrap`; a value computed by the
  database outside its column's range fails its statement, and with it the
  transaction.
- Schema constraints are part of the model: balances, totals and stakes, one
  pool per outcome, one active listing per bet, signatures, addresses, foreign
  keys.
- Everything outside the two databases is a parameter. A call's `Outcome` says
  whether it took effect and whether it said so; a chain call may fail although
  its transfer landed.

## Where the code keeps less than one would expect

Each of these is proved: by a concrete case, by the exact condition under which the
law does hold, or by both.

- The seed debit is an int64 product that can wrap, so a market can be seeded
  with money the house never paid (`OverflowingSeedMints`); creation conserves
  money exactly when the product fits (`CreateMarketSupplyIff`).
- Above a pool of 3,083,606,810 the payout product can wrap and short winners
  (`LargePoolUnderpays`); money is still conserved, the house keeping the rest,
  until the tripled pool wraps (`HugePoolOverpays`). The exact conditions are
  `PayoutExactIff` and `SettlementConservesIff` for one settlement,
  `ExactSharesIff` and `AlwaysHandsOutIff` for all settlements of a total.
- Above the same pool a stake can be worth more in pieces: cut into ten bets, one of
  3,500,000,000 is paid 6,790,000,000 and not 1,519,501,693 (`TenBetsPayMore`). Exact
  shares never gain by being cut (`SplitStake`); the code's payouts keep that law in
  every settlement of a total if and only if the total is at most that pool
  (`EveryCutIsFairIff`).
- Nor is what is left over then a matter of flooring: a valid market with two winning
  bets leaves 5,270,498,306 (`SplitRemainder`). It is always less than one unit per
  winning bet exactly up to that pool (`LeavesDustIff`, and `RemainderIsDustIff` over
  databases); for exact shares it always is (`DustBound`, `RemainderBelowWinnerCount`).
- The bets of a settlement are read without ORDER BY. The balances after it never
  depend on their order (`SettlementOrderFree`); whether it succeeds can, once an
  overflowed payout is negative (`RowOrderDecides`). `SettlementAnyOrderIff` says
  exactly when it succeeds in every order.
- The lock order in `listing_service.go` is said to prevent deadlocks with the
  functions of `market_service.go`. It does for all but the two that pay out,
  which credit users in the order their rows come back. `DeadlockIff` says exactly
  when two requests deadlock, whatever they are; `PurchaseAndRefundIff` and
  `TwoRefundsDeadlockIff` say it of a purchase and a refund and of two refunds in terms
  of who owns what. Reading the bets in the order of their owners would rule it out
  (`SortedRefund`, `SortedSettlement`, `NoDeadlock`).
- A comment in the poller says that a failed ingest stays re-scannable. It is
  re-scanned, but it can still be credited if and only if its row was never stored
  (`FailedIngestRetryIff`, with `FailedSwapIsLost` as an instance). No money is
  counted twice; the row awaits an operator.
- A withdrawal whose INSERT takes effect but reports an error is refunded although
  its row stays live (`StoredYetRefunded`); the exact condition under which ledger
  and rows stay together is `WithdrawKeepsGapIff`.
- The faucet is described as one grant per account. A transfer that lands but is
  reported as failed releases its claim, and the retry sends a second grant
  (`GrantCanLandTwice`). At most one grant is ever reported as sent
  (`OneGrantReported`), and `LandsAgainIff` says of every reachable state whether an
  account can be granted again.
- Round trips of whole reais through micro-USDC are lossless for a rate if and only
  if it is at most one million BRL per USD (`RoundTripIff`).
- A market's total pool is an int64 sum, so a market with bets beyond that range can
  look as if it had none (`HugePoolHidesBets`); `HasRealBetsIff` says exactly when.

## Model

| member | source | states |
|---|---|---|
| `Settlement.DustBound` | bet-backend/service/market_service.go:396-411 | exact arithmetic: when the winning stakes add up to the winning pool, flooring every exact share of any distributable amount leaves at least 0 and less than the number of winning bets |
| `Settlement.LeavesDustIff` | bet-backend/service/market_service.go:371-411 | the remainder the code computes in int64 is at least 0 and smaller than the number of winning bets in every settlement of a given total if and only if that total times its own 97% fits int64 |
| `Settlement.SplitStake` | bet-backend/service/market_service.go:396-399 | exact arithmetic: cutting one winning stake into k bets never raises its exact floored share and lowers it by at most k - 1 |
| `Settlement.EveryCutIsFairIff` | bet-backend/service/market_service.go:396-399 | the same holds of the int64 payouts, for every cut of every winning stake in every settlement of a given total, if and only if that total times its own 97% fits int64 |
| `Settlement.TenBetsPayMore` | bet-backend/service/market_service.go:396-399 | a concrete case where it fails: the sole winner of 3,500,000,000 is paid 1,519,501,693, the same stake cut into ten bets 6,790,000,000 |
| `Settlement.PayoutExactIff` | bet-backend/service/market_service.go:399 | the int64 payout equals floor(stake * distributable / pool) if and only if the product fits int64; when it does not, overflow only shrinks the payout |
| `Settlement.SafeSettlement` | bet-backend/service/market_service.go:371-418 | for a total pool up to 3,083,606,810 every payout is the exact floored share of 97% of it, for any number of bets, and the house gets the commission plus exactly what flooring left, which is fewer units than there are winning bets |
| `Settlement.ExactSharesIff` | bet-backend/service/market_service.go:371-399 | every settlement of a given total pays every winner the exact floored share if and only if that total times its own 97% fits int64 |
| `Settlement.AlwaysHandsOutIff` | bet-backend/service/market_service.go:371-418 | every settlement of a given total hands out exactly that total if and only if three times the total fits int64 |
| `Settlement.CommissionExact` | bet-backend/service/market_service.go:371-372 | commission and distributable pool are the exact ones, between 0 and the pool, whenever the tripled pool fits int64 |
| `Settlement.HouseGainIs` | bet-backend/service/market_service.go:409-411 | whatever overflowed in between, commission plus remainder is the pool minus the payouts reduced to 64 bits |
| `Settlement.SettlementConservesIff` | bet-backend/service/market_service.go:371-418 | all credits of a settlement, the house credit included, add up to the pool if and only if pool minus payouts lies in 0..2^63-1 |
| `Settlement.SettlementConserves` | bet-backend/service/market_service.go:371-418 | whenever the tripled pool fits int64 the credits add up to the pool exactly, even where single payouts overflow |
| `Settlement.LargePoolUnderpays` | bet-backend/service/market_service.go:396-399 | a concrete market above the safe pool whose sole winner is paid 1,519,501,693 of the 6,790,000,000 owed |
| `Settlement.HugePoolOverpays` | bet-backend/service/market_service.go:371-418 | a concrete pool above a third of the int64 range whose commission is negative and whose settlement creates money |
| `Rules.LockRefusals` | bet-backend/service/market_service.go:238-256 | a market is locked if and only if it is OPEN; every other status is refused as an invalid transition, a missing market as not found |
| `Rules.LockChanges` | bet-backend/service/market_service.go:262-269 | the market row changes to LOCKED, its active listings to withdrawn, and no other row, balance, pool or bet |
| `Rules.ResolveRefusals` | bet-backend/service/market_service.go:291-367 | a settlement happens on a LOCKED market only - OPEN is refused as not locked, RESOLVED and CANCELLED as such, whatever else is wrong - on one of its outcomes, with stakes on it, and unless some balance would leave its column |
| `Rules.ResolveChanges` | bet-backend/service/market_service.go:314-426 | the market row changes to RESOLVED with the outcome as winner, its active listings to withdrawn, and no pool, bet or other market |
| `Rules.SettlementPays` | bet-backend/service/market_service.go:370-418 | as long as the total stakes times their own 97% fit int64, each owner of winning bets is credited with stake times 97% of the total over the winning stakes, rounded down bet by bet, and the house with what is left of the total |
| `Rules.RefundRefusals` | bet-backend/service/market_service.go:455-471 | a refund happens on an OPEN or LOCKED market only; RESOLVED and CANCELLED are refused as such |
| `Rules.RefundFitsIff` | bet-backend/service/market_service.go:501-507 | in valid tables it then succeeds if and only if every owner's balance plus their stakes on the market fits int64 |
| `Rules.RefundChanges` | bet-backend/service/market_service.go:473-512 | the market row changes to CANCELLED, its active listings to withdrawn, and no pool, bet or other market |
| `Rules.PlaceBetRefusals` | bet-backend/service/market_service.go:131-199 | each refusal of a bet, in the order of the checks: stake, market, status, outcome, user, balance, pool range |
| `Rules.PlaceBetChanges` | bet-backend/service/market_service.go:189-210 | the stake moves from the bettor's balance to the outcome's pool and is recorded as theirs; nothing else changes |
| `Rules.CreateMarketRefusals` | bet-backend/service/market_service.go:32-97 | each refusal of a market: outcomes, seed, the house's balance against the int64 debit, repeated outcomes and ones of more than a hundred characters |
| `Rules.CreateMarketChanges` | bet-backend/service/market_service.go:54-105 | a new market is OPEN and undecided, with a pool and, given a seed, a bet of the house per outcome; the house alone pays |
| `Rules.AdjustRefusals` | bet-backend/service/market_service.go:628-647 | an adjustment succeeds if and only if the user exists and the exact new balance is in 0..2^63-1 |
| `Rules.AdjustChanges` | bet-backend/service/market_service.go:649-655 | it changes that balance by exactly the delta and nothing else |
| `Rules.ListBetRefusals` | bet-backend/service/listing_service.go:38-91 | each refusal of a listing, in the order of the checks: price, bet, market status, owner, house, already listed |
| `Rules.ListBetChanges` | bet-backend/service/listing_service.go:81-93 | one active listing of the bet, on its market, at that price, is added; nothing else changes |
| `Rules.CancelListingRefusals` | bet-backend/service/listing_service.go:117-138 | only its seller withdraws a listing, and only while it is active |
| `Rules.CancelListingChanges` | bet-backend/service/listing_service.go:140-144 | that listing's status changes and nothing else |
| `Rules.InvalidateRule` | bet-backend/service/listing_service.go:152-168 | a stale listing is withdrawn if still active and left alone otherwise |
| `Rules.BuyRefusals` | bet-backend/service/listing_service.go:175-268 | each refusal of a purchase in valid tables, the market's status before the listing's and the money last |
| `Rules.BuyChanges` | bet-backend/service/listing_service.go:269-281 | the price moves from buyer to seller, the bet to the buyer, the listing is sold to them; nothing else changes |
| `Lifecycle.MarketMovesIff` | bet-backend/service/market_service.go:238-512 | a market row changes if and only if a request for its next state commits: OPEN to LOCKED by LockMarket, LOCKED to RESOLVED with that winner by ResolveMarket, OPEN or LOCKED to CANCELLED by a refund |
| `Lifecycle.StatusIs` | bet-backend/service/market_service.go:244-269 | in any run from an OPEN market or from before its creation, its status says exactly which of these requests have committed |
| `Lifecycle.ResolvedWasLocked` | bet-backend/service/market_service.go:303-311 | a market that a run has RESOLVED was LOCKED until the committed ResolveMarket that resolved it on the winner it names, and was locked in that run unless it was so to begin with |
| `Lifecycle.ClosedForGood` | bet-backend/service/market_service.go:141-155 | once a market has left OPEN it never is again, no bet on it is placed, listed or sold, and its pools, its bets and their owners, and its listings stay exactly as they are |
| `Lifecycle.InterleavedStatusIs` | bet-backend/service/market_service.go:291-311 | the same correspondence between status and committed requests in every interleaving of the statements |
| `Invariants.CreateMarketKeepsValid` | bet-backend/service/market_service.go:32-109 | a created market keeps the whole invariant: one pool row per outcome equal to its stakes, seeds first, house balance not negative |
| `Invariants.PlaceBetKeepsValid` | bet-backend/service/market_service.go:130-214 | a placed bet keeps the whole invariant: the pool row still equals the stakes on it and no balance leaves its column |
| `Invariants.ResolveKeepsValid` | bet-backend/service/market_service.go:284-428 | a committed resolution keeps the whole invariant, with a winning outcome from the market's own list and a positive pool |
| `Invariants.RefundKeepsValid` | bet-backend/service/market_service.go:449-517 | a committed refund keeps the whole invariant |
| `Invariants.ListBetKeepsValid` | bet-backend/service/listing_service.go:38-97 | a new listing is the only active one of its bet, is sold by the bet's owner, and leaves every ownership chain unbroken |
| `Invariants.BuyKeepsValid` | bet-backend/service/listing_service.go:175-285 | a purchase extends its bet's ownership chain by the buyer and keeps the whole invariant |
| `Invariants.ApplyKeepsValid` | bet-backend/db/db.go:60-124 | every committed transaction of any kind keeps: balances within their column, pools equal to the stakes on them, winners only on resolved markets, listings matching their bets, unbroken ownership chains, seeds as the first bets |
| `Accounting.PoolsAddUp` | bet-backend/service/market_service.go:350-361 | the pool rows of a market add up to the stakes of its bets |
| `Accounting.RemainderBelowWinnerCount` | bet-backend/service/market_service.go:375-411 | in every valid state the winning stakes equal the divisor, so flooring the exact shares of any distributable amount leaves at least 0 and less than the number of winning bets |
| `AnyOrder.RemainderIsDustIff` | bet-backend/service/market_service.go:371-411 | the remainder the code credits the house with is at least 0 and below the number of winning bets in every valid state whose market has a given total if and only if that total times its own 97% fits int64 |
| `AnyOrder.SplitRemainder` | bet-backend/service/market_service.go:396-411 | a valid market with two winning bets whose remainder is 5,270,498,306 |
| `Accounting.CreateMarketSupplyIff` | bet-backend/service/market_service.go:63-105 | creating a market keeps all the money if and only if the int64 product of seed and number of outcomes is exact |
| `Accounting.OverflowingSeedMints` | bet-backend/service/market_service.go:63-79 | seeding four outcomes with 2^62 each debits nothing and puts 2^64 into escrow, from any valid state |
| `Accounting.ResolveSupplyIff` | bet-backend/service/market_service.go:370-428 | resolving, with the winning bets read in any order, keeps all the money if and only if the payouts leave the house an amount in 0..2^63-1 |
| `Accounting.ResolveSupply` | bet-backend/service/market_service.go:370-428 | and that holds for every market whose tripled total fits int64 |
| `Accounting.RefundSupply` | bet-backend/service/market_service.go:479-517 | a refund keeps all the money, whatever the stakes |
| `Accounting.ApplyConservesIff` | bet-backend/service/market_service.go:621-627 | a committed transaction changes the money in the system by exactly its adjustment delta - zero for all others - if and only if neither the seed product nor the settlement overflows |
| `Runs.RunKeepsValid` | bet-backend/db/db.go:60-124 | the invariant holds after any sequence of requests, each committing or rolling back, settlements reading their bets in any order |
| `Runs.RunConserves` | bet-backend/service/market_service.go:621-656 | over any run in which no committed step overflows int64 (the seed product of a creation, the payouts of a settlement), balances plus live stakes equal their initial sum plus the committed adjustments; and no balance is negative |
| `Runs.SmallRunsFit` | bet-backend/service/market_service.go:621-656 | no step of a run overflows when its seed products fit int64 and so does three times the initial money plus all deposits asked for |
| `Runs.SettledIsFinal` | bet-backend/service/market_service.go:303-311 | RESOLVED and CANCELLED are absorbing: no request changes such a market's row or pays it out again |
| `Runs.ReleasedAtMostOnce` | bet-backend/service/market_service.go:363-368 | in any run, other resolves and cancels between the roll-back and the fallback refund included, a market's stakes are released at most once, and exactly once if and only if the run settles it |
| `Runs.ReleaseIsWholePool` | bet-backend/service/market_service.go:409-428 | the one release takes exactly the market's pool out of escrow and, unless the settlement overflows, puts the same amount into balances |
| `Runs.ResolvedHasWinner` | bet-backend/service/market_service.go:326-336 | in any run, a RESOLVED market names one of its own outcomes, with a positive pool of stakes |
| `Runs.ClosedListingIsFinal` | bet-backend/db/db.go:103-107 | SOLD and CANCELLED listings never change again |
| `Runs.ActiveListings` | bet-backend/service/listing_service.go:66-93 | in every reachable state a bet has at most one LISTED listing, and a LISTED listing is on an OPEN market, its bet's, by a seller other than the house who owns the bet |
| `Runs.ListingAlwaysMatchesBet` | bet-backend/service/listing_service.go:233-243 | the branch reporting that a bet's owner does not match its seller is unreachable, as are a missing bet or market behind a listing |
| `Runs.FirstSellerPlacedBet` | bet-backend/db/db.go:95-100 | the first seller of a bet is whoever placed it |
| `Runs.NextSellerIsBuyer` | bet-backend/service/listing_service.go:276-281 | each later seller of a bet is the buyer of the sale before |
| `Runs.LastBuyerIsOwner` | bet-backend/service/listing_service.go:276-281 | the last buyer of a bet is its current owner |
| `Runs.SaleIsLatest` | bet-backend/service/listing_service.go:225-227 | only the latest listing of a bet is ever sold, so listing order is sale order |
| `Runs.ResolvePaysOwners` | bet-backend/service/market_service.go:374-418 | a resolution credits every user with exactly the payouts of the winning bets they own at that moment, and the house, besides, with the rest of the pool |
| `Runs.RefundPaysOwners` | bet-backend/service/market_service.go:479-507 | a refund credits every user with exactly the stakes they own on the market |
| `Runs.SaleAtAskedPrice` | bet-backend/service/listing_service.go:266-281 | however long after listing and whatever happened in between, a purchase moves exactly the price asked from the buyer to the seller who listed the bet, moves nobody else's balance and no pool, and hands over that bet |
| `Runs.MarketFlow` | bet-backend/service/market_service.go:374-418 | over any run, a market has cost each user exactly what they staked on it while it is live, what they staked minus what they held once it is cancelled, and what they staked minus the payouts of their winning bets (for the house, minus its share too) once it is resolved, the house's stakes counted without the seeds an overflowing product left unpaid |
| `Runs.CancelledMarketIsFree` | bet-backend/service/market_service.go:501-507 | created, bet on, perhaps locked, then cancelled without a resale: a user's net change from the market is zero if and only if they are not the house or the seed product fits int64 |
| `BetBackend.HasOutcome` | bet-backend/service/market_service.go:162-172 | the scan finds the outcome exactly when it is in the list |
| `BetBackend.SumPools` | bet-backend/service/market_service.go:349-361 | whatever the order of the pool rows, the loop yields their int64 sum and the winning outcome's own total |
| `BetBackend.PayWinners` | bet-backend/service/market_service.go:395-407 | the payout loop leaves the balances and the distributed sum the transaction function prescribes, or fails exactly when some update leaves the balance column |
| `BetBackend.Distribute` | bet-backend/service/market_service.go:370-418 | commission, payouts and the house's remainder, all or nothing |
| `BetBackend.PayRefunds` | bet-backend/service/market_service.go:501-507 | the refund loop credits every owner, or fails exactly when some balance would leave its column |
| `BetBackend.InsertPoolsAndSeeds` | bet-backend/service/market_service.go:81-105 | the insert loop stores one pool per outcome and one seed bet per outcome if there is a seed, or fails exactly on a repeated or overlong outcome |
| `Settlement.SettlementOrderFree` | bet-backend/service/market_service.go:375-418 | the balances after paying out do not depend on the order in which the winning bets came back |
| `AnyOrder.AnyOrderIff` | bet-backend/service/market_service.go:395-407 | every order of a set of balance updates succeeds if and only if each user's balance plus their negative updates alone is at least 0, and plus their positive ones alone fits int64 |
| `AnyOrder.SettlementAnyOrderIff` | bet-backend/service/market_service.go:375-418 | a settlement succeeds in every order of its winning bets if and only if that holds of the payouts and the house credit, applied last, fits as well |
| `AnyOrder.RowOrderDecides` | bet-backend/service/market_service.go:375-407 | a valid locked market of 7,000,000,000 whose settlement fails on a negative balance with its two winning bets read oldest first, and succeeds with them read the other way round |
| `AnyOrder.SafePoolNoneNegative` | bet-backend/service/market_service.go:371-411 | up to a pool of 3,083,606,810 no credit of a settlement is negative |
| `AnyOrder.RefundFacts` | bet-backend/service/market_service.go:480-507 | a refund credits the same and fails the same whatever the order of its bets |
| `BetBackend.BetBackend.GetMarketDetails` | bet-backend/service/market_service.go:528-567 | each outcome's reported pool is the sum of the stakes on it, every outcome is reported, and the reported total is their int64 sum |
| `BetBackend.BetBackend.CreateMarket` | bet-backend/service/market_service.go:32-109 | does what the transaction function says, error cases included, and keeps the invariant |
| `BetBackend.BetBackend.PlaceBet` | bet-backend/service/market_service.go:130-214 | likewise: every rejected bet leaves the tables untouched |
| `BetBackend.BetBackend.LockMarket` | bet-backend/service/market_service.go:238-273 | likewise: from OPEN only, to LOCKED, withdrawing the market's listings, with each other status refused |
| `BetBackend.BetBackend.ResolveMarket` | bet-backend/service/market_service.go:284-441 | settles a LOCKED market, refuses each other status as what it is, or with an empty winning pool refunds, as the transaction function says for the order in which the winning bets came back; the state a success reaches is the same for every order, and it succeeds whenever no order would fail |
| `BetBackend.BetBackend.RefundMarket` | bet-backend/service/market_service.go:444-517 | refunds every bet to its current owner, once, from OPEN or LOCKED |
| `BetBackend.BetBackend.AdjustBalance` | bet-backend/service/market_service.go:628-656 | adds the delta exactly when the user exists and the exact new balance is in 0..2^63-1, and otherwise changes nothing |
| `BetBackend.BetBackend.ListBetForSale` | bet-backend/service/listing_service.go:38-97 | lists a bet of its owner on an open market once, with every rejection in the source's order |
| `BetBackend.BetBackend.CancelListing` | bet-backend/service/listing_service.go:117-145 | withdraws an active listing of the caller's |
| `BetBackend.BetBackend.InvalidateStaleListing` | bet-backend/service/listing_service.go:152-169 | withdraws the listing if it is still active |
| `BetBackend.BetBackend.BuyListedBet` | bet-backend/service/listing_service.go:175-285 | transfers price and ownership together or not at all, and leaves the house's balance alone unless the house buys |
| `Isolation.ProgramIsTransaction` | bet-backend/service/market_service.go:130-214 | run with nobody else around, each function's statements commit exactly when its transaction function commits, with the same database, and roll back with the same error - a settlement for the order in which its unordered query returned the winning bets |
| `Isolation.PlaceBetFinishes` | bet-backend/service/market_service.go:141-214 | the same for PlaceBet alone |
| `Isolation.ResolveFinishes` | bet-backend/service/market_service.go:291-428 | the same for ResolveMarket, its winning bets read in any order and its credits one UPDATE each |
| `Isolation.RefundFinishes` | bet-backend/service/market_service.go:456-517 | the same for RefundMarketInternal, whatever order its bets are read in |
| `Isolation.BuyBetFinishes` | bet-backend/service/listing_service.go:182-285 | the same for BuyListedBet |
| `Guards.StatementGuarded` | bet-backend/service/listing_service.go:31-34 | by the time any statement runs, the rows that guard what it reads or writes are locked: settlement reads under the market's FOR UPDATE, pool and owner changes under its FOR SHARE, a listing insert under its bet's lock |
| `Locking.MarketLockModes` | bet-backend/service/listing_service.go:31-34 | bets, listings and purchases share their market row; locking, resolving and refunding it excludes everybody |
| `Serializability.MarketIdReplyStable` | bet-backend/service/listing_service.go:49-56 | the unlocked pre-read of market_id returns the same after any other commit |
| `Serializability.CommitPreservesMarket` | bet-backend/service/market_service.go:291-300 | while a market is locked FOR UPDATE no other commit changes what its plain reads of pools and bets return |
| `Serializability.CommitDisturbsNobody` | bet-backend/service/market_service.go:141-151 | a commit leaves every reply another transaction in flight has received valid |
| `Serializability.FinishConsistent` | bet-backend/service/market_service.go:212-214 | committing applies the whole request to the database as it is at that moment |
| `Serializability.Serializable` | bet-backend/service/market_service.go:141-214 | every interleaving of the statements of all ten programs, the queries of bets returning them in any order, ends in the state reached by running the committed requests one at a time, in commit order, each of them committing |
| `Serializability.AbortIsRollback` | bet-backend/service/market_service.go:141-214 | a program that gives up inside an interleaving returns the error its whole transaction returns on the database as it is at that moment |
| `Serializability.InterleavingsConserve` | bet-backend/service/market_service.go:621-627 | so in every interleaving no balance is negative and no market is paid out twice, and the money is conserved as long as no committed seed product or settlement overflows int64 |
| `Deadlock.ContestedIsLater` | bet-backend/service/listing_service.go:31-34 | a transaction other than a settlement, and a settlement that credits its users in ascending order, only ever waits for a row that comes after all those it holds: markets, listings, bets, users ascending, pools |
| `Deadlock.ReplacerIsDone` | bet-backend/db/db.go:120-124 | the one-active-listing index only makes a listing wait for a transaction that waits for nothing |
| `Deadlock.SortedRefund` | bet-backend/service/market_service.go:480-507 | a refund that reads its bets in the order of their owners credits in ascending order |
| `Deadlock.SortedSettlement` | bet-backend/service/market_service.go:375-418 | so does a settlement, if and only if the house credit, made last, is not due, or the house is among the winners or the only one paid |
| `Deadlock.NoDeadlock` | bet-backend/service/listing_service.go:31-34 | no cycle of waiting transactions consists of programs that are not settlements and settlements that credit in ascending order, whatever other settlements are in flight beside them |
| `Deadlock.NeverDeadlocked` | bet-backend/service/listing_service.go:245-258 | in any state any interleaving reaches |
| `Pairs.ReachesBoth` | bet-backend/service/listing_service.go:31-34 | any two points two programs could each reach alone, holding no conflicting locks there, are reached together in some interleaving |
| `Interlock.InterlockedCrosses` | bet-backend/service/listing_service.go:31-34 | two programs in flight that wait for each other are about different markets and each lock several users: each needs next one the other has locked, and they share none |
| `Crossing.DeadlockIff` | bet-backend/service/listing_service.go:31-34 | any two requests, their bets coming back in given orders, can reach a wait cycle together if and only if they are about different markets and each alone, whether it would commit or roll back, gets to a point where it needs a user the other has locked at such a point - points read off the database: purchases past their checks, settlements whose credits so far fit the balance column |
| `Crossing.CanDeadlockIff` | bet-backend/service/market_service.go:375-407 | the same with the order of the bets open |
| `Crossing.CyclesMeet` | bet-backend/service/listing_service.go:31-34 | in any wait cycle the two reach, neither has committed |
| `Crossing.PurchaseAndRefundIff` | bet-backend/service/listing_service.go:245-258 | a purchase and a refund, whatever would come of them, can deadlock if and only if the purchase gets to lock its users, the market to refund is another and not settled, the smaller of buyer and seller owns a bet on it, and the larger one whose stake still fits their balance |
| `Crossing.PurchaseAndRefundOrderIff` | bet-backend/service/market_service.go:501-507 | when both would commit alone and the refund reads its bets in a given order, if and only if the markets differ and the larger of buyer and seller is credited before the smaller |
| `Crossing.PurchaseAndRefundDeadlockIff` | bet-backend/service/listing_service.go:245-258 | when both would commit alone, in any order, if and only if the markets differ and buyer and seller both own bets on the refunded one |
| `Crossing.TwoRefundsDeadlockIff` | bet-backend/service/market_service.go:501-507 | two refunds can deadlock if and only if the markets differ, neither is settled, and two users own bets on both of them, the one with room for a stake of theirs on the first, the other on the second |
| `Crossing.ExampleDeadlocks` | bet-backend/service/market_service.go:501-507 | an ordinary valid database where a purchase and a refund do, the bets read oldest first |
| `Conversion.UnitLaw` | wallet-backend/service/service.go:22-35 | at r BRL per USD, n USDC are credited as n * r reais if and only if that fits int64 |
| `Conversion.UnitLawBack` | wallet-backend/service/service.go:37-39 | and n * r reais are paid out as n USDC if and only if their micro-USDC fit |
| `Conversion.CreditIsHalfUp` | wallet-backend/service/service.go:33-35 | a credit that fits is microUSDC * rate / 10^12 rounded half up |
| `Conversion.PayoutIsHalfUp` | wallet-backend/service/service.go:37-39 | a payout that fits is reais * 10^12 / rate rounded half up |
| `Conversion.RoundedIsHalfUp` | wallet-backend/service/service.go:43-48 | mulDivRound yields the one integer r with x/d - 1/2 < r <= x/d + 1/2, before the cut to 64 bits |
| `Conversion.RoundTrip` | wallet-backend/service/service.go:33-39 | reais survive the trip through micro-USDC for every rate up to 10^12 as long as the intermediate value fits int64 |
| `Conversion.RoundTripIff` | wallet-backend/service/service.go:33-39 | and for a given rate they all do if and only if it is at most 10^12 |
| `Conversion.PayoutErrorIff` | wallet-backend/service/service.go:37-48 | a payout is within half a unit of the exact conversion if and only if it fits int64 |
| `Conversion.CreditErrorIff` | wallet-backend/service/service.go:33-48 | a credit is within half a real of the exact conversion if and only if it fits int64 |
| `WalletRules.IngestNew` | wallet-backend/service/service.go:192-224 | a new transfer gets one row with its signature, account, asset and raw amount; it is credited exactly when its worth is known, the ledger reports the credit and the row takes it - with the raw amount for USDC, the swap output for SOL - and the ledger is asked once, for that worth in reais, for that account |
| `WalletRules.CreditedAmount` | wallet-backend/service/service.go:211-250 | so what is credited is the USDC received, or the USDC its SOL was swapped for, times the rate over 10^12, rounded half up |
| `WalletRules.IngestErrors` | wallet-backend/service/service.go:211-223 | which error is reported for which failure |
| `WalletRules.IngestOther` | wallet-backend/service/service.go:201-210 | a transfer that has a row, and one the schema refuses, changes nothing; an INSERT that takes effect behind an error leaves its row as detected |
| `WalletRules.WithdrawErrors` | wallet-backend/service/service.go:268-340 | which error a withdrawal reports for what: below or above the limits, insufficient balance, failed debit, row not stored, over the review threshold, chain, bookkeeping - and none exactly when all went well |
| `WalletRules.WithdrawLedger` | wallet-backend/service/service.go:279-347 | the account is debited once by the amount, and credited back once exactly when its row was not reported as stored or the chain gave up |
| `WalletRules.WithdrawRow` | wallet-backend/service/service.go:286-340 | the row stored is the request's, and its status and signature say how far the calls got |
| `WalletRules.ProvisionRule` | wallet-backend/service/service.go:110-143 | an account with an address gets that one and draws no index; another gets the next index, as a uint32, its derived address and its token account, stored if the columns are unique, and returned exactly when it is known to be |
| `WalletRules.FaucetErrors` | wallet-backend/service/service.go:157-179 | which error a faucet call reports for what, and the claim it leaves |
| `WalletRules.IngestFirstIs` | wallet-backend/poller/poller.go:78-85 | the transfers of a pass are ingested in order up to the first that reports an error |
| `WalletRules.CursorMovesIff` | wallet-backend/poller/poller.go:64-93 | the cursor of the address becomes the new one if and only if the old one was read, the scan returned, every transfer it returned was ingested without error, the new cursor is there and different, and its write took effect; otherwise no cursor changes |
| `Wallet.IngestGap` | wallet-backend/service/service.go:192-224 | for every pattern of failures, what an ingestion does to the difference between ledger and stored rows |
| `Wallet.IngestKeepsGapIff` | wallet-backend/service/service.go:201-223 | an ingestion keeps ledger and rows together if and only if a failed ledger call had no effect and a successful credit was recorded |
| `Wallet.PlaceGap` | wallet-backend/service/service.go:287-347 | for every pattern of failures, what recording, settling and refunding do to that difference |
| `Wallet.WithdrawKeepsGapIff` | wallet-backend/service/service.go:268-347 | a withdrawal keeps ledger and rows together if and only if it is of nothing, or its debit was not carried out behind an error and either the row stands live or the debit was handed back, one of the two - and the amount is not the one int64 cannot negate |
| `Wallet.StoredYetRefunded` | wallet-backend/service/service.go:286-305 | a withdrawal row stored although its INSERT reported an error stays live while the debit is handed back: the rows say the amount left, the ledger is unchanged |
| `Wallet.FaucetClaims` | wallet-backend/service/service.go:157-179 | a faucet call succeeds exactly when the account is provisioned, nobody had claimed, the claim is taken and the send succeeds; it leaves the claim it took unless the send failed and the release took effect, and never releases another's |
| `Wallet.CleanWithdrawBalances` | wallet-backend/service/service.go:311-347 | which holds whatever the chain does, when failed ledger calls and inserts have no effect and terminal writes and refunds succeed |
| `Poller.LedgerMatchesRows` | wallet-backend/service/service.go:192-347 | over any run with arbitrary chain, swapper and deposit failures - failed ledger calls and failed withdrawal INSERTs having no effect, terminal writes and refunds succeeding - the ledger change of any group of accounts is their credited deposits minus their withdrawals that did not fail |
| `Poller.AtMostOneCredit` | wallet-backend/store/store.go:175-196 | over any run of scans, replays, lost cursors and failures, each signature is credited at most once, and only with a stored row |
| `Poller.CursorBehindRows` | wallet-backend/poller/poller.go:78-92 | a cursor moves only when every transfer returned in that pass has a row |
| `Poller.CursorsBehindRows` | wallet-backend/poller/poller.go:51-62 | the same over a pass across all addresses |
| `Poller.FailedIngestRetryIff` | wallet-backend/poller/poller.go:79-84 | after an ingestion that reported an error, some later run credits the transfer if and only if its row was not stored |
| `Poller.CleanScanCredits` | wallet-backend/poller/poller.go:72-84 | a scan in which nothing fails credits a transfer of a provisioned account if and only if it has no row |
| `Poller.FailedIngestIsNotRetried` | wallet-backend/poller/poller.go:79-84 | once stored, behind an error or not, the row keeps the state the failure left it in, and scanning the transfer again changes nothing and reports no error |
| `Poller.FailedSwapIsLost` | wallet-backend/poller/poller.go:79-84 | a concrete transfer of lamports whose swap fails is parked and in no later run credited |
| `Poller.DriftBound` | wallet-backend/service/service.go:33-48 | over any run whose credited and paid amounts fit int64, (USDC in - USDC out) * rate differs from (reais credited - reais debited) * 10^12 by at most half of 10^12 per credited deposit and half of the rate per withdrawal that did not fail |
| `Poller.LowRateFits` | wallet-backend/service/service.go:33-39 | every credit fits for rates up to 10^12 |
| `Joint.SupplyFollowsLedger` | bet-backend/service/market_service.go:621-656 | over any run of both engines, the wallet's ledger calls answered by bet-backend's AdjustBalance and failing in any other way, the money in the betting system changes by exactly what the wallet's ledger records, as long as no seed product or settlement overflows |
| `Joint.SupplyFollowsRows` | wallet-backend/service/service.go:192-347 | and, the wallet's faults balancing as in LedgerMatchesRows, by the credited deposits minus the withdrawals that did not fail |
| `WalletBackend.WalletBackend.InsertDepositIfNew` | wallet-backend/store/store.go:179-196 | inserts exactly when the signature is new and the constraints hold, and says so |
| `WalletBackend.WalletBackend.ResolveCreditAmount` | wallet-backend/service/service.go:229-250 | the amount to credit: micro-USDC as is, for lamports what the swapper paid out, marking the row on the way |
| `WalletBackend.WalletBackend.IngestDeposit` | wallet-backend/service/service.go:192-224 | the ledger and rows it leaves and the error it reports, for every failure of every call |
| `WalletBackend.WalletBackend.SettleWithdrawal` | wallet-backend/service/service.go:313-340 | likewise: refunds on a chain error, not on a bookkeeping error after sending |
| `WalletBackend.WalletBackend.RequestWithdrawal` | wallet-backend/service/service.go:268-309 | likewise: debit first, park above the review threshold, refund what could not be recorded |
| `WalletBackend.WalletBackend.ProvisionAccount` | wallet-backend/service/service.go:110-143 | returns the stored address, or stores and returns a new one; an insert lost or unreported falls back to the stored row |
| `WalletBackend.WalletBackend.FaucetTestUSDC` | wallet-backend/service/service.go:157-179 | does what the faucet function says: it succeeds only with a previously absent claim, which it leaves, and otherwise either leaves the claims as they were or keeps the new one |
| `WalletBackend.WalletBackend.ScanAddressOnce` | wallet-backend/poller/poller.go:64-93 | ingests in order up to the first failure, and moves the cursor exactly when there was none, the new one is another and its write took effect |
| `WalletBackend.WalletBackend.ScanOnce` | wallet-backend/poller/poller.go:51-62 | walks all addresses whatever happens to one of them |
| `WalletRaces.ProvisionAlone` | wallet-backend/service/service.go:110-143 | a provisioning request with nobody else around, call by call, returns, stores and hands to its caller what the whole call does, for every pattern of failures |
| `WalletRaces.OneAddressForever` | wallet-backend/service/service.go:111-141 | however provisioning calls interleave and fail, an account has one stored address at most and every call that returns an address returns that one |
| `WalletRaces.IndicesAreDistinct` | wallet-backend/store/store.go:31-40 | while fewer than 2^32 indices have been drawn, no account gets the treasury's index 0 and no index is used or inserted twice |
| `WalletRaces.TreasuryIndexIff` | wallet-backend/store/store.go:34-40 | the first draw truncated to the treasury's index is the 2^32nd |
| `WalletRaces.ZeroWithinIff` | wallet-backend/store/store.go:31-40 | in every state any interleaving reaches before the sequence is at 2^32, some continuation with at most so many more draws stores an account with the treasury's index 0 if and only if those draws reach 2^32 and no stored address is the treasury's |
| `WalletRaces.OneGrantReported` | wallet-backend/store/store.go:149-173 | under any interleaving at most one faucet transfer per account returns success |
| `WalletRaces.FaucetAlone` | wallet-backend/service/service.go:157-179 | a faucet request with nobody else around, call by call, stores, claims, reports and lands what the whole call does, for every pattern of failures |
| `WalletRaces.LandsAgainIff` | wallet-backend/service/service.go:164-178 | in every state any interleaving reaches, an account already granted can be granted again in some continuation if and only if its claim is absent or some request of its is about to transfer or to release |
| `WalletRaces.OneGrantLands` | wallet-backend/service/service.go:164-178 | grants that landed are exactly those reported, one per account, in every run in which no transfer that landed is reported as failed |
| `WalletRaces.GrantCanLandTwice` | wallet-backend/service/service.go:172-177 | a concrete run in which two land: the claim of a grant that landed is released and granted again |
| `WalletSteps.IngestAlone` | wallet-backend/service/service.go:192-224 | an ingestion with nobody else around, call by call, leaves the tables and ledger the whole call leaves, for every pattern of failures, and its scan goes on exactly when that reports no error |
| `WalletSteps.WithdrawAlone` | wallet-backend/service/service.go:268-347 | likewise a withdrawal |
| `WalletSteps.ScanAlone` | wallet-backend/poller/poller.go:64-93 | likewise a whole scan, from reading the cursor to writing it |
| `WalletSteps.GapIs` | wallet-backend/service/service.go:192-347 | however scans and withdrawals interleave call by call and fail, the ledger of any group of accounts is ahead of their stored rows by exactly what is pending in the calls in flight plus what single failing calls put out of balance |
| `WalletSteps.HarmlessIff` | wallet-backend/service/service.go:201-347 | a call puts nothing out of balance if and only if: no credit, debit or withdrawal row takes effect behind an error, a credit made is entered in its row, a withdrawal to be paid back is marked failed and paid back, and no debit is of the one amount int64 cannot negate - amounts of zero aside |
| `WalletSteps.BooksBalanceIff` | wallet-backend/service/service.go:192-347 | once nothing is in flight, ledger and rows agree if and only if those cancel, and they do if there are none |
| `WalletSteps.OneCreditInterleaved` | wallet-backend/store/store.go:175-196 | under any interleaving of any number of scans each signature is credited at most once, and only with a stored row |
| `WalletSteps.CursorMovesBehindRows` | wallet-backend/poller/poller.go:78-92 | under any interleaving a cursor moves only when every transfer its scan was returned has a row |
| `Views.HasRealBetsIff` | general-backend/handlers/viewbuild.go:22-25 | the flag is raised if and only if the stakes beyond the seeds exceed 2^64 for each time int64 wraps between the seed total and the pool total; so it is never raised for a market whose only bets are seeds, and raised for every other - resold bets included - with no wrap between the two |
| `Views.HugePoolHidesBets` | general-backend/handlers/viewbuild.go:22-25 | a valid database with two bets of 2^62 whose market looks as if it had none |
| `Views.ReplaySparkline` | general-backend/handlers/viewbuild.go:65-83 | the replay's totals are the int64 sums on and off SIM, and each point holds the totals of the bets so far |
| `Views.SparklineEndsAtPools` | general-backend/handlers/viewbuild.go:65-83 | for any history, resales included, the replay ends at the SIM pool, zero if there is none, and at the total pool |
| `Views.PctExactIff` | general-backend/handlers/viewbuild.go:27-32 | the shown percentage is the floored one if and only if a hundred times the part fits int64 |
| `Views.OtherSideRoundsUp` | general-backend/handlers/viewbuild.go:47-53 | the other side, shown as what is missing to 100, is its own percentage rounded up |

## Left out

- The `SyncUser` and `Deposit` handlers, which set balances outright: the model
  starts with its users present.
- HTTP handlers, sessions, accounts, caching and publishing of odds, and the
  floating-point odds and plot coordinates themselves.
- Solana RPC, transaction signing, key derivation and swapping: a call into them is
  an outcome, and an address is an uninterpreted function of its index. The
  scanner is an arbitrary list of transfers and a cursor; it may return two
  transfers under one signature, of which only the first is credited.
- Timestamps, except as the order in which rows were inserted.
- JSON encoding of outcomes, and random UUIDs: identifiers are drawn by the model,
  so one that collides or does not parse is not modelled.
- The remaining read-only queries and view builders: they list rows and add no
  invariant.
- Serializability.Serializable: a bulk UPDATE takes its row locks in one step, and
  CreateMarket's inserts, which touch only rows nobody else can see yet, are one
  step.
- Deadlock.NoDeadlock: says nothing of a cycle through a settlement that credits its
  users out of order. For cycles of two `DeadlockIff` does, in both directions; cycles
  of three and more through such a settlement are not characterised. That PostgreSQL
  then aborts one of them is the `Rollback` event.
- Runs.RunConserves: assumes that no committed step overflows, which
  `ApplyConservesIff` shows to be necessary for each of them.
- Poller.LedgerMatchesRows: here wallet calls run one after another; `BooksBalanceIff`
  says the same of calls that interleave. Neither claims that a refunded withdrawal
  was not paid on chain, because the service refunds when a confirmation fails although
  the transfer may have landed. Its fault conditions are sufficient
  for a run and necessary for each call, as `IngestKeepsGapIff` and
  `WithdrawKeepsGapIff` show: over a run, two drifts may cancel out.
- Joint.SupplyFollowsLedger: the ledger calls of one wallet call reach bet-backend
  with nobody else's in between.
- Poller.DriftBound: for credits and withdrawals whose conversion fits int64, which
  `PayoutErrorIff` shows to be necessary for each withdrawal.
- WalletRaces.FaucetAlone: for sends that are reported as they went; one that lands
  although reported as failed leaves the same tables.
- WalletSteps.GapIs: provisioning is one step there, its own interleavings being those
  of `WalletRaces`; the faucet touches neither ledger nor deposits nor withdrawals.
