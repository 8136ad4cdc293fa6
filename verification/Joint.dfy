/** The two engines together: the wallet's ledger calls are bet-backend's balance
    adjustments, so what the wallet has taken in and paid out is what has entered
    and left the betting system. */
module Joint {
  import opened Int64
  import opened Sums
  import opened Wrappers
  import Tables
  import Transactions
  import Invariants
  import Accounting
  import Runs
  import Conversion
  import opened Wallet
  import opened Poller

  datatype Books = Books(db: Tables.Db, wallet: Wallet)

  /** A call to bet-backend by anyone else, or one to the wallet. */
  datatype Action = Bet(call: Transactions.Call) | Service(op: Op)

  /** `user` is the balance row of an account; both are known by the same UUID. */
  datatype Setup = Setup(config: Config, user: AccountId -> Tables.UserId)

  // ------------------------------------------------------------------ ledger calls

  /** One AdjustBalance the wallet asks for, and what comes of it. */
  datatype Attempt = Attempt(account: AccountId, delta: int64, outcome: Outcome)

  function IngestAttempts(w: Wallet, rate: int64, account: AccountId, d: Incoming, f: IngestFaults): seq<Attempt> {
    if Ingests(w, account, d, f) && CreditAmount(d, f).Some? then
      [Attempt(account, Conversion.ToReais(CreditAmount(d, f).value, rate), f.ledger)]
    else []
  }

  function FirstAttempts(w: Wallet, rate: int64, account: AccountId, found: seq<Found>, n: nat): seq<Attempt>
    requires n <= |found|
  {
    if n == 0 then []
    else
      var r := IngestFirst(w, rate, account, found, n - 1);
      FirstAttempts(w, rate, account, found, n - 1) +
      (if r.error.Some? then []
       else IngestAttempts(r.wallet, rate, account, found[n - 1].deposit, found[n - 1].faults))
  }

  function WithdrawAttempts(w: Wallet, config: Config, account: AccountId, dest: string, reais: int64,
      f: WithdrawFaults): seq<Attempt>
    requires config.rate > 0
  {
    var usdc := Conversion.ToMicroUsdc(reais, config.rate);
    if usdc < config.limits.min || usdc > config.limits.max then []
    else
      var row := Withdrawal(account, dest, reais, usdc, Requested, None);
      [Attempt(account, Negated(reais), f.debit)] +
      (if f.debit == Succeeded && HandsBack(w, config.limits.manualReviewOver, row, f) then
         [Attempt(account, reais, f.refund)]
       else [])
  }

  /** The ledger calls of one wallet call, in order. */
  function Attempts(w: Wallet, config: Config, op: Op): seq<Attempt>
    requires config.rate > 0
  {
    match op
    case WithdrawOp(account, dest, reais, f) => WithdrawAttempts(w, config, account, dest, reais, f)
    case ScanOp(address, pass) =>
      if pass.cursor && pass.found.Some? then
        FirstAttempts(w, config.rate, address.account, pass.found.value, |pass.found.value|)
      else []
    case _ => []
  }

  function Moved(a: Attempt): int { if Applied(a.outcome) then a.delta else 0 }

  lemma IngestMoves(w: Wallet, rate: int64, account: AccountId, d: Incoming, f: IngestFaults)
    ensures Net(Ingest(w, rate, account, d, f).wallet, Everyone()) ==
      Net(w, Everyone()) + Total(IngestAttempts(w, rate, account, d, f), Moved)
  {
    hide Wrap, Conversion.ToReais, Total, Insertable, Seen;
    TotalOne([], IngestAttempts(w, rate, account, d, f), Moved);
    assert [] + IngestAttempts(w, rate, account, d, f) == IngestAttempts(w, rate, account, d, f);
    NoTotal(Moved);
    TotalOne(w.ledger, IngestAdjustments(rate, account, d, f), Of(Everyone()));
  }

  lemma NoTotal<T>(f: T -> int)
    ensures Total([], f) == 0
  {
  }

  lemma {:induction false} FirstMoves(w: Wallet, rate: int64, account: AccountId, found: seq<Found>, n: nat)
    requires n <= |found|
    ensures Net(IngestFirst(w, rate, account, found, n).wallet, Everyone()) ==
      Net(w, Everyone()) + Total(FirstAttempts(w, rate, account, found, n), Moved)
  {
    hide Ingest, IngestAttempts, Net, Total;
    if n == 0 {
      NoTotal(Moved);
    } else {
      FirstMoves(w, rate, account, found, n - 1);
      var r, before := IngestFirst(w, rate, account, found, n - 1), FirstAttempts(w, rate, account, found, n - 1);
      if r.error.Some? {
        assert before + [] == before;
      } else {
        IngestMoves(r.wallet, rate, account, found[n - 1].deposit, found[n - 1].faults);
        TotalConcat(before, IngestAttempts(r.wallet, rate, account, found[n - 1].deposit, found[n - 1].faults), Moved);
      }
    }
  }

  lemma PlaceMoves(w: Wallet, over: int64, row: Withdrawal, f: WithdrawFaults)
    ensures Net(Place(w, over, row, f).wallet, Everyone()) ==
      Net(w, Everyone()) + (if HandsBack(w, over, row, f) && Applied(f.refund) then row.reais else 0)
  {
    hide Total, Settle, Storable;
    var refund := if HandsBack(w, over, row, f) then Refunded(row.account, row.reais, f) else [];
    assert w.ledger + [] == w.ledger;
    assert Place(w, over, row, f).wallet.ledger == w.ledger + refund;
    TotalOne(w.ledger, refund, Of(Everyone()));
  }

  lemma DebitMoves(w: Wallet, account: AccountId, reais: int64, f: WithdrawFaults)
    ensures Net(Debited(w, account, reais, f), Everyone()) ==
      Net(w, Everyone()) + (if Applied(f.debit) then Negated(reais) else 0)
  {
    hide Total, Wrap;
    if Applied(f.debit) {
      TotalOne(w.ledger, [Adjustment(account, Negated(reais), Debit)], Of(Everyone()));
    }
  }

  lemma WithdrawMoves(w: Wallet, config: Config, account: AccountId, dest: string, reais: int64,
      f: WithdrawFaults)
    requires config.rate > 0
    ensures Net(Withdraw(w, config.rate, config.limits, account, dest, reais, f).wallet, Everyone()) ==
      Net(w, Everyone()) + Total(WithdrawAttempts(w, config, account, dest, reais, f), Moved)
  {
    hide Wrap, Conversion.ToMicroUsdc, Net, Total, Place, HandsBack;
    var row := Withdrawal(account, dest, reais, Conversion.ToMicroUsdc(reais, config.rate), Requested, None);
    var over, debit, refund := config.limits.manualReviewOver, Attempt(account, Negated(reais), f.debit),
      Attempt(account, reais, f.refund);
    NoTotal(Moved);
    TotalAppend([], debit, Moved);
    TotalAppend([] + [debit], refund, Moved);
    assert [] + [debit] == [debit] && [debit] + [] == [debit];
    DebitMoves(w, account, reais, f);
    PlaceMoves(Debited(w, account, reais, f), over, row, f);
    SamePlacement(w, Debited(w, account, reais, f), over, row, f);
  }

  lemma SameLedger(w: Wallet, after: Wallet)
    requires after.ledger == w.ledger
    ensures Net(after, Everyone()) == Net(w, Everyone())
  {
  }

  /** What a wallet call records in its ledger is what its ledger calls moved. */
  lemma OpMoves(w: Wallet, config: Config, op: Op)
    requires config.rate > 0
    ensures Net(Do(w, config, op), Everyone()) == Net(w, Everyone()) + Total(Attempts(w, config, op), Moved)
  {
    hide Net, Total, Provision, Faucet, Withdraw, IngestFirst, FirstAttempts, WithdrawAttempts;
    NoTotal(Moved);
    match op
    case ProvisionOp(account, f) =>
      ProvisionWrites(w, config.derive, account, f, FaucetFaults(Succeeded, true, Succeeded));
      SameLedger(w, Do(w, config, op));
    case FaucetOp(account, q, f) =>
      ProvisionWrites(w, config.derive, account, q, f);
      SameLedger(w, Do(w, config, op));
    case WithdrawOp(account, dest, reais, f) => WithdrawMoves(w, config, account, dest, reais, f);
    case ScanOp(address, pass) =>
      if pass.cursor && pass.found.Some? {
        FirstMoves(w, config.rate, address.account, pass.found.value, |pass.found.value|);
        SameLedger(IngestFirst(w, config.rate, address.account, pass.found.value, |pass.found.value|).wallet,
            Do(w, config, op));
      } else {
        SameLedger(w, Do(w, config, op));
      }
    case LoseCursor(_) => SameLedger(w, Do(w, config, op));
  }

  // ------------------------------------------------------- carried out by bet-backend

  /** A call that bet-backend carried out is one it commits, one that it refused is
      one it rolls back, and one that was lost could be either. */
  predicate Answers(tx: Transactions.TxResult, o: Outcome) {
    match o
    case Succeeded => tx.Committed?
    case Unconfirmed => tx.Committed?
    case Refused => tx.RolledBack?
    case Lost => true
  }

  function AdjustmentTx(db: Tables.Db, user: AccountId -> Tables.UserId, a: Attempt): Transactions.TxResult {
    Transactions.AdjustBalanceTx(db, user(a.account), a.delta)
  }

  /** The database after these calls, one after another. */
  function Carried(db: Tables.Db, user: AccountId -> Tables.UserId, attempts: seq<Attempt>): Tables.Db {
    if |attempts| == 0 then db
    else
      var n := |attempts| - 1;
      var before := Carried(db, user, attempts[..n]);
      var tx := AdjustmentTx(before, user, attempts[n]);
      if Applied(attempts[n].outcome) && tx.Committed? then tx.db else before
  }

  /** Each call's outcome is one that bet-backend gives. */
  predicate AllAnswered(db: Tables.Db, user: AccountId -> Tables.UserId, attempts: seq<Attempt>) {
    forall i :: 0 <= i < |attempts| ==>
      Answers(AdjustmentTx(Carried(db, user, attempts[..i]), user, attempts[i]), attempts[i].outcome)
  }

  lemma {:induction false} CarriedMoves(db: Tables.Db, user: AccountId -> Tables.UserId, attempts: seq<Attempt>)
    requires Invariants.Valid(db) && AllAnswered(db, user, attempts)
    ensures Invariants.Valid(Carried(db, user, attempts))
    ensures Tables.Supply(Carried(db, user, attempts)) == Tables.Supply(db) + Total(attempts, Moved)
  {
    hide Invariants.Valid, Tables.Supply, Transactions.AdjustBalanceTx;
    if |attempts| > 0 {
      var n := |attempts| - 1;
      forall i | 0 <= i < n
        ensures Answers(AdjustmentTx(Carried(db, user, attempts[..n][..i]), user, attempts[..n][i]),
            attempts[..n][i].outcome)
      {
        assert attempts[..n][..i] == attempts[..i];
      }
      CarriedMoves(db, user, attempts[..n]);
      var before, a := Carried(db, user, attempts[..n]), attempts[n];
      assert Answers(AdjustmentTx(before, user, a), a.outcome);
      if Applied(a.outcome) {
        AdjustmentMoves(before, user(a.account), a.delta);
      }
    }
  }

  lemma AdjustmentMoves(db: Tables.Db, u: Tables.UserId, delta: int64)
    requires Invariants.Valid(db) && Transactions.AdjustBalanceTx(db, u, delta).Committed?
    ensures Invariants.Valid(Transactions.AdjustBalanceTx(db, u, delta).db)
    ensures Tables.Supply(Transactions.AdjustBalanceTx(db, u, delta).db) == Tables.Supply(db) + delta
  {
    Invariants.AdjustKeepsValid(db, u, delta);
    Accounting.AdjustSupply(db, u, delta);
  }

  // ------------------------------------------------------------------------- runs

  function After(b: Books, setup: Setup, a: Action): Books
    requires setup.config.rate > 0
  {
    match a
    case Bet(call) => b.(db := Runs.Next(b.db, call))
    case Service(op) =>
      Books(Carried(b.db, setup.user, Attempts(b.wallet, setup.config, op)), Do(b.wallet, setup.config, op))
  }

  function RunBoth(b: Books, setup: Setup, actions: seq<Action>): Books
    requires setup.config.rate > 0
  {
    if |actions| == 0 then b
    else After(RunBoth(b, setup, actions[..|actions| - 1]), setup, actions[|actions| - 1])
  }

  /** Only the wallet adjusts balances, and bet-backend answers it truthfully; no
      settlement or seed overflows. */
  predicate Sound(b: Books, setup: Setup, a: Action)
    requires setup.config.rate > 0
  {
    match a
    case Bet(call) =>
      !call.request.AdjustBalance? && (Runs.Commits(b.db, call) ==> Accounting.NoOverflow(b.db, call.request))
    case Service(op) => AllAnswered(b.db, setup.user, Attempts(b.wallet, setup.config, op))
  }

  predicate AllSound(b: Books, setup: Setup, actions: seq<Action>)
    requires setup.config.rate > 0
  {
    forall i :: 0 <= i < |actions| ==> Sound(RunBoth(b, setup, actions[..i]), setup, actions[i])
  }

  lemma BetKeepsBoth(db: Tables.Db, call: Transactions.Call)
    requires Invariants.Valid(db) && !call.request.AdjustBalance?
    requires Runs.Commits(db, call) ==> Accounting.NoOverflow(db, call.request)
    ensures Invariants.Valid(Runs.Next(db, call)) && Tables.Supply(Runs.Next(db, call)) == Tables.Supply(db)
  {
    hide Invariants.Valid, Tables.Supply, Accounting.NoOverflow, Transactions.Apply, Transactions.Possible;
    if Runs.Commits(db, call) {
      Invariants.ApplyKeepsValid(db, call);
      Accounting.ApplyConservesIff(db, call);
    }
  }

  lemma {:induction false} SoundBefore(b: Books, setup: Setup, actions: seq<Action>)
    requires setup.config.rate > 0 && |actions| > 0 && AllSound(b, setup, actions)
    ensures var n := |actions| - 1;
      AllSound(b, setup, actions[..n]) && Sound(RunBoth(b, setup, actions[..n]), setup, actions[n])
  {
    hide RunBoth, Sound;
    var n := |actions| - 1;
    assert forall i :: 0 <= i <= n ==> actions[..n][..i] == actions[..i];
  }

  /** Over any run of both, however the wallet's calls fail: the money in the betting
      system has changed by exactly what the wallet's ledger records. */
  lemma {:induction false} SupplyFollowsLedger(db: Tables.Db, setup: Setup, actions: seq<Action>)
    requires setup.config.rate > 0 && Invariants.Valid(db) && AllSound(Books(db, EMPTY), setup, actions)
    ensures var end := RunBoth(Books(db, EMPTY), setup, actions);
      Invariants.Valid(end.db) && Tables.Supply(end.db) == Tables.Supply(db) + Net(end.wallet, Everyone())
  {
    hide Invariants.Valid, Tables.Supply, Sound, AllSound, Net, Attempts, Do, Carried, Runs.Next;
    if |actions| == 0 {
      EmptyLedger();
    } else {
      var n := |actions| - 1;
      var b := RunBoth(Books(db, EMPTY), setup, actions[..n]);
      SoundBefore(Books(db, EMPTY), setup, actions);
      SupplyFollowsLedger(db, setup, actions[..n]);
      StepFollows(b, setup, actions[n]);
    }
  }

  lemma EmptyLedger()
    ensures Net(EMPTY, Everyone()) == 0
  {
  }

  lemma StepFollows(b: Books, setup: Setup, a: Action)
    requires setup.config.rate > 0 && Invariants.Valid(b.db) && Sound(b, setup, a)
    ensures var after := After(b, setup, a);
      && Invariants.Valid(after.db)
      && Tables.Supply(after.db) - Net(after.wallet, Everyone()) == Tables.Supply(b.db) - Net(b.wallet, Everyone())
  {
    hide Invariants.Valid, Tables.Supply, Net, Attempts, Do, Carried, AllAnswered, Runs.Commits, Runs.Next,
      Accounting.NoOverflow, Total;
    match a
    case Bet(call) => BetKeepsBoth(b.db, call);
    case Service(op) =>
      CarriedMoves(b.db, setup.user, Attempts(b.wallet, setup.config, op));
      OpMoves(b.wallet, setup.config, op);
  }

  /** The wallet's calls of a run. */
  function OpsOf(actions: seq<Action>): seq<Op> {
    if |actions| == 0 then []
    else
      var n := |actions| - 1;
      OpsOf(actions[..n]) + (if actions[n].Service? then [actions[n].op] else [])
  }

  lemma {:induction false} WalletRuns(b: Books, setup: Setup, actions: seq<Action>)
    requires setup.config.rate > 0
    ensures RunBoth(b, setup, actions).wallet == Run(b.wallet, setup.config, OpsOf(actions))
  {
    hide Do, Carried, Attempts, Runs.Next;
    if |actions| > 0 {
      var n := |actions| - 1;
      var ops := OpsOf(actions[..n]);
      WalletRuns(b, setup, actions[..n]);
      if actions[n].Service? {
        assert (ops + [actions[n].op])[..|ops|] == ops;
      } else {
        assert ops + [] == ops;
      }
    }
  }

  lemma {:induction false} OpsAreService(actions: seq<Action>, config: Config)
    requires config.rate > 0
    requires forall i :: 0 <= i < |actions| && actions[i].Service? ==> Benign(actions[i].op, config)
    ensures forall i :: 0 <= i < |OpsOf(actions)| ==> Benign(OpsOf(actions)[i], config)
  {
    hide Benign;
    if |actions| > 0 {
      OpsAreService(actions[..|actions| - 1], config);
    }
  }

  /** So when the wallet's faults balance, the money in the betting system has changed
      by the deposits credited minus the withdrawals that did not fail. */
  lemma {:induction false} SupplyFollowsRows(db: Tables.Db, setup: Setup, actions: seq<Action>)
    requires setup.config.rate > 0 && Invariants.Valid(db) && AllSound(Books(db, EMPTY), setup, actions)
    requires forall i :: 0 <= i < |actions| && actions[i].Service? ==> Benign(actions[i].op, setup.config)
    ensures var end := RunBoth(Books(db, EMPTY), setup, actions);
      Tables.Supply(end.db) - Tables.Supply(db) ==
        Total(end.wallet.deposits, CreditedTo(Everyone())) - Total(end.wallet.withdrawals, WithdrawnBy(Everyone()))
  {
    hide Tables.Supply, AllSound, Invariants.Valid, Benign, Run, RunBoth, Net, Total;
    SupplyFollowsLedger(db, setup, actions);
    WalletRuns(Books(db, EMPTY), setup, actions);
    OpsAreService(actions, setup.config);
    LedgerMatchesRows(setup.config, OpsOf(actions), Everyone());
  }
}
