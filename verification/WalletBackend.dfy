/** The wallet service as it runs: the store's statements one by one, the ledger
    and chain calls between them, and the code that reacts to each failing. Every
    call into the outside takes its outcome as a parameter. */
module WalletBackend {
  import opened Int64
  import opened Wrappers
  import opened Conversion
  import opened Wallet
  import opened Poller
  import opened WalletRules

  /** UPDATE deposits ... WHERE signature = s. */
  function Where(deposits: seq<Deposit>, s: Signature, change: Deposit -> Deposit): (r: seq<Deposit>)
    ensures |r| == |deposits|
    ensures forall i :: 0 <= i < |deposits| ==>
      r[i] == if deposits[i].signature == s then change(deposits[i]) else deposits[i]
  {
    seq(|deposits|, i requires 0 <= i < |deposits| =>
      if deposits[i].signature == s then change(deposits[i]) else deposits[i])
  }

  function ToStatus(status: DepositStatus): Deposit -> Deposit {
    (d: Deposit) => d.(status := status)
  }

  function ToCredited(usdc: int64, reais: int64): Deposit -> Deposit {
    (d: Deposit) => d.(status := Credited, creditedUsdc := usdc, creditedReais := reais)
  }

  /** Only the row just inserted has its signature. */
  lemma WhereLast(deposits: seq<Deposit>, row: Deposit, change: Deposit -> Deposit)
    requires !Seen(deposits, row.signature)
    ensures Where(deposits + [row], row.signature, change) == deposits + [change(row)]
  {
  }

  class WalletBackend {
    const config: Config
    var ledger: seq<Adjustment>
    var sequence: nat
    var addresses: map<AccountId, Address>
    var claims: set<AccountId>
    var cursors: map<string, Signature>
    var deposits: seq<Deposit>
    var withdrawals: seq<Withdrawal>

    ghost function State(): Wallet
      reads this
    {
      Wallet(ledger, sequence, addresses, claims, cursors, deposits, withdrawals)
    }

    constructor (config: Config)
      ensures this.config == config && State() == EMPTY
    {
      this.config := config;
      ledger, sequence, addresses, claims, cursors, deposits, withdrawals := [], 0, map[], {}, map[], [], [];
    }

    // ------------------------------------------------------------------- ledger

    /** bet-backend's AdjustBalance, over HTTP. */
    method Adjust(account: AccountId, delta: int, cause: Cause, o: Outcome) returns (ok: bool)
      modifies `ledger
      ensures ledger == old(ledger) + (if Applied(o) then [Adjustment(account, delta, cause)] else [])
      ensures ok <==> o == Succeeded
    {
      if Applied(o) {
        ledger := ledger + [Adjustment(account, delta, cause)];
      }
      ok := o == Succeeded;
    }

    // ---------------------------------------------------------------- deposit rows

    /** INSERT ... ON CONFLICT (signature) DO NOTHING. */
    method InsertDepositIfNew(row: Deposit, o: Outcome) returns (inserted: bool, ok: bool)
      modifies `deposits
      ensures var accepted := row.rawAmount > 0 && (row.asset == "USDC" || row.asset == "SOL") && TookEffect(o);
        && deposits == (if accepted && !Seen(old(deposits), row.signature) &&
            row.account in addresses then old(deposits) + [row] else old(deposits))
        && (ok <==> accepted && o == Succeeded && (Seen(old(deposits), row.signature) || row.account in addresses))
        && (ok ==> (inserted <==> !Seen(old(deposits), row.signature)))
    {
      inserted, ok := false, false;
      if !(row.rawAmount > 0 && (row.asset == USDC || row.asset == SOL)) || !Applied(o) {
        return;
      }
      if !Seen(deposits, row.signature) {
        if row.account !in addresses {
          return;
        }
        deposits := deposits + [row];
        inserted := true;
      }
      ok := o == Succeeded;
    }

    method SetDepositStatus(s: Signature, status: DepositStatus, o: Outcome) returns (ok: bool)
      modifies `deposits
      ensures deposits == if Applied(o) then Where(old(deposits), s, ToStatus(status)) else old(deposits)
      ensures ok <==> o == Succeeded
    {
      if Applied(o) {
        deposits := Where(deposits, s, ToStatus(status));
      }
      ok := o == Succeeded;
    }

    /** The columns' CHECK constraints can refuse the amounts. */
    method MarkDepositCredited(s: Signature, usdc: int64, reais: int64, o: Outcome) returns (ok: bool)
      modifies `deposits
      ensures deposits ==
        if Recordable(usdc, reais) && Applied(o) then Where(old(deposits), s, ToCredited(usdc, reais))
        else old(deposits)
      ensures ok <==> Recordable(usdc, reais) && o == Succeeded
    {
      ok := false;
      if Recordable(usdc, reais) && Applied(o) {
        deposits := Where(deposits, s, ToCredited(usdc, reais));
        ok := o == Succeeded;
      }
    }

    // ------------------------------------------------------------------- deposits

    /** Lamports become micro-USDC through the swapper; micro-USDC stay. */
    method ResolveCreditAmount(d: Incoming, f: IngestFaults) returns (usdc: Option<int64>)
      requires d.asset == "USDC" || d.asset == "SOL"
      modifies `deposits
      ensures usdc == CreditAmount(d, f)
      ensures usdc.Some? <==> AmountKnown(d, f)
      ensures usdc.Some? ==> usdc.value == if d.asset == "USDC" then Wrap(d.rawAmount) else Wrap(f.swap.value)
      ensures deposits ==
        if d.asset == "SOL" && TookEffect(f.swapping) then Where(old(deposits), d.signature, ToStatus(Swapping))
        else old(deposits)
    {
      if d.asset == USDC {
        return Some(Wrap(d.rawAmount));
      }
      var ok := SetDepositStatus(d.signature, Swapping, f.swapping);
      if !ok || !f.lookup || f.swap.None? {
        return None;
      }
      return Some(Wrap(f.swap.value));
    }

    method IngestDeposit(account: AccountId, d: Incoming, f: IngestFaults) returns (error: Option<WalletError>)
      modifies this
      ensures Result(State(), error) == Ingest(old(State()), config.rate, account, d, f)
    {
      hide Wrap, ToReais, Seen, Where;
      ghost var before := deposits;
      var row := NewDeposit(account, d);
      var inserted, ok := InsertDepositIfNew(row, f.insert);
      if !ok {
        return Some(StoreFailed);
      }
      if !inserted {
        return None;
      }
      WhereLast(before, row, ToStatus(Swapping));
      var usdc := ResolveCreditAmount(d, f);
      var swapped := row.(status := if d.asset == SOL && Applied(f.swapping) then Swapping else Detected);
      assert deposits == before + [swapped];
      WhereLast(before, swapped, ToStatus(Parked));
      if usdc.None? {
        var parked := SetDepositStatus(d.signature, Parked, f.failed);
        assert ledger + [] == ledger;
        return Some(SwapFailed);
      }
      var reais := ToReais(usdc.value, config.rate);
      WhereLast(before, swapped, ToCredited(usdc.value, reais));
      ok := Adjust(account, reais, DepositOf(d.signature), f.ledger);
      if !ok {
        var parked := SetDepositStatus(d.signature, Parked, f.failed);
        return Some(LedgerFailed);
      }
      ok := MarkDepositCredited(d.signature, usdc.value, reais, f.credited);
      return if ok then None else Some(StoreFailed);
    }

    // -------------------------------------------------------------- withdrawal rows

    method InsertWithdrawal(row: Withdrawal, o: Outcome) returns (id: nat, ok: bool)
      modifies `withdrawals
      ensures var accepted := Storable(State(), row.account, row.reais, row.usdc);
        && withdrawals == old(withdrawals) + (if accepted && Applied(o) then [row] else [])
        && (ok <==> accepted && o == Succeeded)
        && id == |old(withdrawals)|
    {
      id, ok := |withdrawals|, false;
      if row.usdc > 0 && row.reais >= 0 && row.account in addresses && Applied(o) {
        withdrawals := withdrawals + [row];
        ok := o == Succeeded;
      }
    }

    /** One UPDATE of a withdrawal's row. */
    method SetWithdrawal(id: nat, row: Withdrawal, o: Outcome) returns (ok: bool)
      requires id < |withdrawals|
      modifies `withdrawals
      ensures withdrawals == old(withdrawals)[id := if Applied(o) then row else old(withdrawals[id])]
      ensures ok <==> o == Succeeded
    {
      if Applied(o) {
        withdrawals := withdrawals[id := row];
      }
      ok := o == Succeeded;
    }

    // ---------------------------------------------------------------- withdrawals

    method FailAndRefundWithdrawal(id: nat, f: WithdrawFaults) returns (error: Option<WalletError>)
      requires id < |withdrawals|
      modifies `withdrawals, `ledger
      ensures withdrawals == old(withdrawals)[id := FailAndRefund(old(withdrawals[id]), f).row]
      ensures ledger == old(ledger) + Refunded(old(withdrawals[id]).account, old(withdrawals[id]).reais, f)
      ensures error == Some(ChainFailed)
    {
      var marked := SetWithdrawal(id, withdrawals[id].(status := Failed), f.failed);
      var refunded := Adjust(withdrawals[id].account, withdrawals[id].reais, Refund, f.refund);
      return Some(ChainFailed);
    }

    /** Signs, sends and confirms, refunding the debit if a chain call fails. */
    method SettleWithdrawal(id: nat, f: WithdrawFaults) returns (error: Option<WalletError>)
      requires id < |withdrawals|
      modifies `withdrawals, `ledger
      ensures var s := Settle(old(withdrawals[id]), f);
        && withdrawals == old(withdrawals)[id := s.row] && error == s.error
        && ledger == old(ledger) +
             (if s.refunded then Refunded(old(withdrawals[id]).account, old(withdrawals[id]).reais, f) else [])
    {
      var ok := SetWithdrawal(id, withdrawals[id].(status := Signing), f.signing);
      if !f.ata || !f.transfer {
        error := FailAndRefundWithdrawal(id, f);
        return;
      }
      ok := SetWithdrawal(id, withdrawals[id].(status := Sent, signature := Some(f.signature)), f.sent);
      if !ok {
        return Some(StoreFailed);
      }
      if !f.confirm {
        error := FailAndRefundWithdrawal(id, f);
        return;
      }
      ok := SetWithdrawal(id, withdrawals[id].(status := Confirmed), f.confirmed);
      return if ok then None else Some(StoreFailed);
    }

    /** Debit first, then record, then pay out. */
    method RequestWithdrawal(account: AccountId, dest: string, reais: int64,
        f: WithdrawFaults) returns (error: Option<WalletError>)
      requires config.rate > 0
      modifies this
      ensures Result(State(), error) == Withdraw(old(State()), config.rate, config.limits, account, dest, reais, f)
    {
      hide Wrap, ToMicroUsdc, Settle;
      var usdc := ToMicroUsdc(reais, config.rate);
      if usdc < config.limits.min {
        return Some(AmountBelowMin);
      }
      if usdc > config.limits.max {
        return Some(AmountAboveMax);
      }
      var ok := Adjust(account, Negated(reais), Debit, f.debit);
      assert State() == Debited(old(State()), account, reais, f);
      if !ok {
        return Some(if f.debit == Refused then InsufficientBalance else LedgerFailed);
      }
      var row := Withdrawal(account, dest, reais, usdc, Requested, None);
      ghost var debited := State();
      var id;
      id, ok := InsertWithdrawal(row, f.insert);
      if !ok {
        var refunded := Adjust(account, reais, Refund, f.refund);
        return Some(StoreFailed);
      }
      if usdc > config.limits.manualReviewOver {
        return Some(ManualReview);
      }
      error := SettleWithdrawal(id, f);
      assert withdrawals == debited.withdrawals + [Settle(row, f).row];
    }

    // ------------------------------------------------------- addresses and the faucet

    method ProvisionAccount(account: AccountId, f: ProvisionFaults) returns (row: Option<Address>,
        error: Option<WalletError>)
      modifies `sequence, `addresses
      ensures Provisioned(State(), row, error) == Provision(old(State()), config.derive, account, f)
    {
      if !f.lookup {
        return None, Some(StoreFailed);
      }
      if account in addresses {
        return Some(addresses[account]), None;
      }
      if !Applied(f.next) {
        return None, Some(StoreFailed);
      }
      sequence := sequence + 1;
      if f.next == Unconfirmed {
        return None, Some(StoreFailed);
      }
      var index := Truncated(sequence);
      if f.ata.None? {
        return None, Some(ChainFailed);
      }
      var created := Address(account, index, config.derive(index), f.ata.value);
      var inserted := Unused(addresses, created) && Applied(f.insert);
      if inserted {
        addresses := addresses[account := created];
      }
      if inserted && f.insert == Succeeded {
        return Some(created), None;
      }
      if f.relookup && account in addresses {
        return Some(addresses[account]), None;
      }
      return None, Some(StoreFailed);
    }

    method FaucetTestUSDC(account: AccountId, p: ProvisionFaults, f: FaucetFaults) returns (error: Option<WalletError>)
      modifies `sequence, `addresses, `claims
      ensures Result(State(), error) == Faucet(old(State()), config.derive, account, p, f)
      ensures error.None? ==> account !in old(claims) && claims == old(claims) + {account}
      ensures claims == old(claims) || (account !in old(claims) && claims == old(claims) + {account})
    {
      hide Provision;
      FaucetClaims(State(), config.derive, account, p, f);
      var row, failure := ProvisionAccount(account, p);
      if row.None? {
        return failure;
      }
      ghost var before := claims;
      if !Applied(f.claim) {
        return Some(StoreFailed);
      }
      if account in claims {
        return Some(if f.claim == Succeeded then FaucetAlreadyClaimed else StoreFailed);
      }
      claims := claims + {account};
      if f.claim == Unconfirmed {
        return Some(StoreFailed);
      }
      if !f.transfer {
        if Applied(f.release) {
          claims := claims - {account};
          assert claims == before;
        }
        return Some(ChainFailed);
      }
      return None;
    }

    // --------------------------------------------------------------------- poller

    /** Ingests what the scanner found, in order, and moves the cursor only if
        nothing failed. */
    method ScanAddressOnce(address: Address, pass: Pass) returns (error: Option<WalletError>)
      modifies this
      ensures Result(State(), error) == ScanAddress(old(State()), config.rate, address, pass)
      ensures
        var before := if address.address in old(cursors) then old(cursors)[address.address] else "";
        var moves := pass.cursor && pass.found.Some? && pass.newCursor != "" && pass.newCursor != before &&
          AllIngested(old(State()), config.rate, address.account, pass.found.value, |pass.found.value|) &&
          TookEffect(pass.advance);
        cursors == if moves then old(cursors)[address.address := pass.newCursor] else old(cursors)
    {
      hide Ingest, AllIngested;
      CursorMovesIff(State(), config.rate, address, pass);
      if !pass.cursor {
        return Some(StoreFailed);
      }
      var cursor := if address.address in cursors then cursors[address.address] else "";
      if pass.found.None? {
        return Some(ChainFailed);
      }
      var found := pass.found.value;
      for i := 0 to |found|
        invariant Result(State(), None) == IngestFirst(old(State()), config.rate, address.account, found, i)
      {
        var failure := IngestDeposit(address.account, found[i].deposit, found[i].faults);
        if failure.Some? {
          FirstFailure(old(State()), config.rate, address.account, found, i + 1);
          return None;
        }
      }
      IngestFirstKeepsTables(old(State()), config.rate, address.account, found, |found|);
      if pass.newCursor != "" && pass.newCursor != cursor {
        if Applied(pass.advance) {
          cursors := cursors[address.address := pass.newCursor];
        }
        if pass.advance != Succeeded {
          return Some(StoreFailed);
        }
      }
      return None;
    }

    /** Walks the listed addresses; one that fails is skipped. */
    method ScanOnce(list: seq<Address>, passes: seq<Pass>)
      requires |list| == |passes|
      modifies this
      ensures State() == ScanAll(old(State()), config.rate, list, passes, |list|)
    {
      hide ScanAddress;
      for i := 0 to |list|
        invariant State() == ScanAll(old(State()), config.rate, list, passes, i)
      {
        var skipped := ScanAddressOnce(list[i], passes[i]);
      }
    }

    /** Nothing is ingested after the first failure. */
    lemma {:induction false} FirstFailure(w: Wallet, rate: int64, account: AccountId, found: seq<Found>, n: nat)
      requires n <= |found| && IngestFirst(w, rate, account, found, n).error.Some?
      ensures IngestFirst(w, rate, account, found, |found|) == IngestFirst(w, rate, account, found, n)
      decreases |found| - n
    {
      hide Ingest;
      if n < |found| {
        FirstFailure(w, rate, account, found, n + 1);
      }
    }
  }
}
