/** What each wallet call does, case by case: which error it reports for what went
    wrong, which row it leaves and in which state, and what it asks of the ledger. */
module WalletRules {
  import opened Int64
  import opened Sums
  import opened Wrappers
  import opened Conversion
  import opened Wallet
  import opened Poller

  /** A call took effect, whether or not it said so. */
  predicate TookEffect(o: Outcome) { o == Succeeded || o == Unconfirmed }

  // -------------------------------------------------------------------- ingestion

  /** The micro-USDC to credit are known: at once for USDC, through a swap for SOL. */
  predicate AmountKnown(d: Incoming, f: IngestFaults) {
    d.asset == "USDC" || (d.asset == "SOL" && f.swapping == Succeeded && f.lookup && f.swap.Some?)
  }

  /** USDC counts as it came in, SOL as what the swapper paid out for it. */
  function AmountOf(d: Incoming, f: IngestFaults): int64
    requires AmountKnown(d, f)
  {
    if d.asset == "USDC" then Wrap(d.rawAmount) else Wrap(f.swap.value)
  }

  predicate HasRow(w: Wallet, s: Signature) {
    exists i :: 0 <= i < |w.deposits| && w.deposits[i].signature == s
  }

  /** The schema takes a row for this transfer. */
  predicate RowFits(w: Wallet, account: AccountId, d: Incoming) {
    Wrap(d.rawAmount) > 0 && (d.asset == "USDC" || d.asset == "SOL") && account in w.addresses
  }

  /** A new transfer gets one row with its own data, credited with the amount it is worth
      - exactly when that is known, the ledger reports the credit and the row takes it -
      and the ledger is asked once, for that amount in reais. */
  lemma IngestNew(w: Wallet, rate: int64, account: AccountId, d: Incoming, f: IngestFaults)
    requires RowFits(w, account, d) && !HasRow(w, d.signature) && f.insert == Succeeded
    ensures var after, known := Ingest(w, rate, account, d, f).wallet, AmountKnown(d, f);
      var usdc := if known then AmountOf(d, f) else 0;
      var reais := ToReais(usdc, rate);
      && |after.deposits| == |w.deposits| + 1 && w.deposits <= after.deposits
      && var row := after.deposits[|w.deposits|];
      && row.signature == d.signature && row.account == account && row.asset == d.asset
      && row.rawAmount == Wrap(d.rawAmount)
      && (row.status == Credited <==>
            known && f.ledger == Succeeded && usdc >= 0 && reais >= 0 && TookEffect(f.credited))
      && (row.status == Parked <==> (!known || f.ledger != Succeeded) && TookEffect(f.failed))
      && (row.status == Swapping <==>
            row.status != Credited && row.status != Parked && d.asset == "SOL" && TookEffect(f.swapping))
      && row.creditedUsdc == (if row.status == Credited then usdc else 0)
      && row.creditedReais == (if row.status == Credited then reais else 0)
      && after.ledger ==
           w.ledger
           + (if known && TookEffect(f.ledger) then [Adjustment(account, reais, DepositOf(d.signature))] else [])
      && after == w.(deposits := after.deposits, ledger := after.ledger)
  {
    hide Wrap, ToReais;
  }

  /** So what is credited is the USDC received, or the USDC its SOL was swapped for,
      times the rate, rounded half up. */
  lemma CreditedAmount(w: Wallet, rate: int64, account: AccountId, d: Incoming, f: IngestFaults)
    requires RowFits(w, account, d) && !HasRow(w, d.signature) && f.insert == Succeeded && rate > 0
    requires d.asset == "SOL" ==> f.swap.Some? && f.swap.value <= MAX
    requires d.asset == "USDC" ==> d.rawAmount <= MAX
    ensures var row := Ingest(w, rate, account, d, f).wallet.deposits[|w.deposits|];
      var worth := if d.asset == "USDC" then d.rawAmount else f.swap.value;
      row.status == Credited && Rounded(worth, rate, 1_000_000_000_000) <= MAX ==>
        && row.creditedUsdc == worth
        && (2 * row.creditedReais - 1) * 1_000_000_000_000 <= 2 * (worth * rate)
        && 2 * (worth * rate) < (2 * row.creditedReais + 1) * 1_000_000_000_000
  {
    hide Wrap, ToReais, Rounded, Ingest;
    IngestNew(w, rate, account, d, f);
    var worth := if d.asset == "USDC" then d.rawAmount else f.swap.value;
    WrapShrinks(worth);
    if Rounded(worth, rate, 1_000_000_000_000) <= MAX {
      CreditIsHalfUp(worth, rate);
    }
  }

  lemma IngestErrors(w: Wallet, rate: int64, account: AccountId, d: Incoming, f: IngestFaults)
    requires RowFits(w, account, d) && !HasRow(w, d.signature) && f.insert == Succeeded
    ensures var error, known := Ingest(w, rate, account, d, f).error, AmountKnown(d, f);
      && (error == Some(SwapFailed) <==> !known)
      && (error == Some(LedgerFailed) <==> known && f.ledger != Succeeded)
      && (error == None <==>
            known && f.ledger == Succeeded && f.credited == Succeeded &&
            AmountOf(d, f) >= 0 && ToReais(AmountOf(d, f), rate) >= 0)
      && (error == None || error == Some(SwapFailed) || error == Some(LedgerFailed) || error == Some(StoreFailed))
  {
    hide Wrap, ToReais;
  }

  /** A transfer that has a row is left alone, one the schema refuses too; an INSERT that
      takes effect behind an error leaves its row as first detected. */
  lemma IngestOther(w: Wallet, rate: int64, account: AccountId, d: Incoming, f: IngestFaults)
    requires !RowFits(w, account, d) || HasRow(w, d.signature) || f.insert != Succeeded
    ensures var r := Ingest(w, rate, account, d, f);
      && r.wallet == (if RowFits(w, account, d) && !HasRow(w, d.signature) && f.insert == Unconfirmed then
                        w.(deposits := w.deposits +
                             [Deposit(d.signature, account, d.asset, Wrap(d.rawAmount), 0, 0, Detected)])
                      else w)
      && (r.error == None <==>
            HasRow(w, d.signature) && f.insert == Succeeded &&
            Wrap(d.rawAmount) > 0 && (d.asset == "USDC" || d.asset == "SOL"))
      && (r.error == None || r.error == Some(StoreFailed))
  {
    hide Wrap, ToReais;
  }

  // ------------------------------------------------------------------- withdrawals

  /** The schema takes the withdrawal's row. */
  predicate PayoutFits(w: Wallet, account: AccountId, reais: int64, usdc: int64) {
    usdc > 0 && reais >= 0 && account in w.addresses
  }

  /** What a withdrawal has come to when it is neither refused nor parked. */
  predicate ChainGaveUp(f: WithdrawFaults) {
    !f.ata || !f.transfer || (f.sent == Succeeded && !f.confirm)
  }

  /** Which error is reported for what: the limits first, then the debit, the row, the
      review threshold, the chain. */
  lemma WithdrawErrors(w: Wallet, rate: int64, limits: Limits, account: AccountId, dest: string, reais: int64,
      f: WithdrawFaults)
    requires rate > 0
    ensures var error, usdc := Withdraw(w, rate, limits, account, dest, reais, f).error, ToMicroUsdc(reais, rate);
      var debited := limits.min <= usdc <= limits.max && f.debit == Succeeded;
      var stored := PayoutFits(w, account, reais, usdc) && f.insert == Succeeded;
      var settles := debited && stored && usdc <= limits.manualReviewOver;
      && (error == Some(AmountBelowMin) <==> usdc < limits.min)
      && (error == Some(AmountAboveMax) <==> limits.min <= usdc && limits.max < usdc)
      && (error == Some(InsufficientBalance) <==> limits.min <= usdc <= limits.max && f.debit == Refused)
      && (error == Some(LedgerFailed) <==>
            limits.min <= usdc <= limits.max && (f.debit == Lost || f.debit == Unconfirmed))
      && (error == Some(ManualReview) <==> debited && stored && usdc > limits.manualReviewOver)
      && (error == Some(ChainFailed) <==> settles && ChainGaveUp(f))
      && (error == Some(StoreFailed) <==>
            (debited && !stored) || (settles && !ChainGaveUp(f) && !(f.sent == Succeeded && f.confirmed == Succeeded)))
      && (error == None <==> settles && !ChainGaveUp(f) && f.sent == Succeeded && f.confirmed == Succeeded)
  {
    hide Wrap, ToMicroUsdc;
  }

  /** The account is debited once - by the amount, but for the one that int64 cannot
      negate - and credited back once at most: when its row could not be stored as far as
      the service knows, or the chain gave up. */
  lemma WithdrawLedger(w: Wallet, rate: int64, limits: Limits, account: AccountId, dest: string, reais: int64,
      f: WithdrawFaults)
    requires rate > 0
    ensures var after, usdc := Withdraw(w, rate, limits, account, dest, reais, f).wallet, ToMicroUsdc(reais, rate);
      var allowed := limits.min <= usdc <= limits.max;
      var stored := PayoutFits(w, account, reais, usdc) && f.insert == Succeeded;
      var handsBack := allowed && f.debit == Succeeded &&
        (!stored || (usdc <= limits.manualReviewOver && ChainGaveUp(f)));
      var taken: int := if reais == -9_223_372_036_854_775_808 then reais else 0 - (reais as int);
      after.ledger ==
        w.ledger + (if allowed && TookEffect(f.debit) then [Adjustment(account, taken, Debit)] else [])
        + (if handsBack && TookEffect(f.refund) then [Adjustment(account, reais, Refund)] else [])
  {
    hide Wrap, ToMicroUsdc;
    NegatedIs(reais);
  }

  /** Its row, if it is stored, is the request's, in the state the calls have brought it
      to; nothing else in the tables changes. */
  lemma WithdrawRow(w: Wallet, rate: int64, limits: Limits, account: AccountId, dest: string, reais: int64,
      f: WithdrawFaults)
    requires rate > 0
    ensures var after, usdc := Withdraw(w, rate, limits, account, dest, reais, f).wallet, ToMicroUsdc(reais, rate);
      var debited := limits.min <= usdc <= limits.max && f.debit == Succeeded;
      var stored := debited && PayoutFits(w, account, reais, usdc) && TookEffect(f.insert);
      var settles := stored && f.insert == Succeeded && usdc <= limits.manualReviewOver;
      var sent := settles && f.ata && f.transfer;
      && after == w.(ledger := after.ledger, withdrawals := after.withdrawals)
      && |after.withdrawals| == |w.withdrawals| + (if stored then 1 else 0) && w.withdrawals <= after.withdrawals
      && (stored ==>
            var row := after.withdrawals[|w.withdrawals|];
            && row.account == account && row.dest == dest && row.reais == reais && row.usdc == usdc
            && (row.status == Failed <==> settles && ChainGaveUp(f) && TookEffect(f.failed))
            && (row.status == Confirmed <==>
                  sent && f.sent == Succeeded && f.confirm && TookEffect(f.confirmed))
            && (row.status == Sent <==>
                  sent && TookEffect(f.sent) && row.status != Failed && row.status != Confirmed)
            && (row.status == Signing <==>
                  settles && TookEffect(f.signing) && !(sent && TookEffect(f.sent)) &&
                  row.status != Failed && row.status != Confirmed)
            && row.signature == (if sent && TookEffect(f.sent) then Some(f.signature) else None))
  {
    hide Wrap, ToMicroUsdc, Negated;
  }

  // -------------------------------------------------------------------- addresses

  /** An account without an address gets the next index that is drawn, as a uint32. */
  function NewAddress(w: Wallet, derive: nat -> string, account: AccountId, ata: string): Address {
    var index := (w.sequence + 1) % 4_294_967_296;
    Address(account, index, derive(index), ata)
  }

  /** No other account has the row's index or address. */
  predicate IndexFree(w: Wallet, row: Address) {
    forall a :: a in w.addresses ==> w.addresses[a].index != row.index && w.addresses[a].address != row.address
  }

  lemma ProvisionRule(w: Wallet, derive: nat -> string, account: AccountId, f: ProvisionFaults)
    ensures var r := Provision(w, derive, account, f);
      var draws := f.lookup && account !in w.addresses && TookEffect(f.next);
      var row := NewAddress(w, derive, account, if f.ata.Some? then f.ata.value else "");
      var stores := draws && f.next == Succeeded && f.ata.Some? && IndexFree(w, row) && TookEffect(f.insert);
      && r.wallet == w.(sequence := if draws then w.sequence + 1 else w.sequence,
                        addresses := if stores then w.addresses[account := row] else w.addresses)
      && r.row == (if f.lookup && account in w.addresses then Some(w.addresses[account])
                   else if stores && (f.insert == Succeeded || f.relookup) then Some(row)
                   else None)
      && (r.error == None <==> r.row.Some?)
      && (r.error == Some(ChainFailed) <==> draws && f.next == Succeeded && f.ata.None?)
      && (r.error == None || r.error == Some(ChainFailed) || r.error == Some(StoreFailed))
  {
  }

  lemma FaucetErrors(w: Wallet, derive: nat -> string, account: AccountId, p: ProvisionFaults, f: FaucetFaults)
    ensures var r, provisioned := Faucet(w, derive, account, p, f), Provision(w, derive, account, p);
      var known := provisioned.row.Some?;
      && r.wallet == provisioned.wallet.(claims := r.wallet.claims)
      && (!known ==> r.error == provisioned.error)
      && (known ==>
            && (r.error == None <==> account !in w.claims && f.claim == Succeeded && f.transfer)
            && (r.error == Some(FaucetAlreadyClaimed) <==> account in w.claims && f.claim == Succeeded)
            && (r.error == Some(ChainFailed) <==> account !in w.claims && f.claim == Succeeded && !f.transfer)
            && (r.error == Some(StoreFailed) <==> f.claim != Succeeded))
      && r.wallet.claims ==
           (if known && account !in w.claims && TookEffect(f.claim) &&
               !(f.claim == Succeeded && !f.transfer && TookEffect(f.release))
            then w.claims + {account} else w.claims)
  {
    ProvisionKeepsClaims(w, derive, account, p);
    hide Provision;
  }

  // ------------------------------------------------------------------------ scans

  /** Each of the first `n` transfers, when its turn came, was ingested without error. */
  predicate AllIngested(w: Wallet, rate: int64, account: AccountId, found: seq<Found>, n: nat)
    requires n <= |found|
  {
    forall k :: 0 <= k < n ==>
      Ingest(IngestFirst(w, rate, account, found, k).wallet, rate, account, found[k].deposit, found[k].faults).error
        == None
  }

  /** The transfers are ingested one after another up to the first that fails. */
  lemma {:induction false} IngestFirstIs(w: Wallet, rate: int64, account: AccountId, found: seq<Found>, n: nat)
    requires n <= |found|
    ensures IngestFirst(w, rate, account, found, 0).wallet == w
    ensures IngestFirst(w, rate, account, found, n).error == None <==> AllIngested(w, rate, account, found, n)
    ensures n > 0 && AllIngested(w, rate, account, found, n - 1) ==>
      IngestFirst(w, rate, account, found, n) ==
        Ingest(IngestFirst(w, rate, account, found, n - 1).wallet, rate, account, found[n - 1].deposit,
               found[n - 1].faults)
    ensures n > 0 && !AllIngested(w, rate, account, found, n - 1) ==>
      IngestFirst(w, rate, account, found, n) == IngestFirst(w, rate, account, found, n - 1)
  {
    hide Ingest;
    if n > 0 {
      IngestFirstIs(w, rate, account, found, n - 1);
    }
  }

  /** The cursor of the address moves to the scanner's new one exactly when the old one
      was read, the scan returned, every transfer it returned was ingested without error,
      the new cursor is there and another, and its write took effect. Otherwise no cursor
      changes. */
  lemma CursorMovesIff(w: Wallet, rate: int64, address: Address, pass: Pass)
    ensures var r := ScanAddress(w, rate, address, pass);
      var before := if address.address in w.cursors then w.cursors[address.address] else "";
      var ingested := pass.cursor && pass.found.Some? &&
        AllIngested(w, rate, address.account, pass.found.value, |pass.found.value|);
      var due := ingested && pass.newCursor != "" && pass.newCursor != before;
      && r.wallet.cursors ==
           (if due && TookEffect(pass.advance) then w.cursors[address.address := pass.newCursor] else w.cursors)
      && (pass.cursor && pass.found.Some? ==>
            var scanned := IngestFirst(w, rate, address.account, pass.found.value, |pass.found.value|).wallet;
            r.wallet == scanned.(cursors := r.wallet.cursors))
      && (!(pass.cursor && pass.found.Some?) ==> r.wallet == w)
      && (r.error == Some(ChainFailed) <==> pass.cursor && pass.found.None?)
      && (r.error == Some(StoreFailed) <==> !pass.cursor || (due && pass.advance != Succeeded))
      && (r.error == None || r.error == Some(ChainFailed) || r.error == Some(StoreFailed))
  {
    hide Ingest, IngestFirst, AllIngested;
    if pass.found.Some? {
      IngestFirstIs(w, rate, address.account, pass.found.value, |pass.found.value|);
      IngestFirstKeepsTables(w, rate, address.account, pass.found.value, |pass.found.value|);
    }
  }

  /** Every address on the list is scanned in turn. */
  lemma ScanAllIs(w: Wallet, rate: int64, list: seq<Address>, passes: seq<Pass>, n: nat)
    requires n < |list| == |passes|
    ensures ScanAll(w, rate, list, passes, 0) == w
    ensures ScanAll(w, rate, list, passes, n + 1) ==
      ScanAddress(ScanAll(w, rate, list, passes, n), rate, list[n], passes[n]).wallet
  {
    hide ScanAddress;
  }
}
