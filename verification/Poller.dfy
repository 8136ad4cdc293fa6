/** The deposit poller's cursor protocol, and whole runs of the wallet. */
module Poller {
  import opened Int64
  import opened Sums
  import opened Wrappers
  import opened Conversion
  import opened Wallet

  // ------------------------------------------------------------------ scan passes

  /** A transfer the scanner returned, and what will fail while it is ingested. */
  datatype Found = Found(deposit: Incoming, faults: IngestFaults)

  /** One pass over one address: whether its cursor could be read, what the
      scanner returned, and what came of writing the new cursor. */
  datatype Pass = Pass(cursor: bool, found: Option<seq<Found>>, newCursor: Signature, advance: Outcome)

  function CursorOf(w: Wallet, address: string): Signature {
    if address in w.cursors then w.cursors[address] else ""
  }

  /** The first `n` transfers, up to the first that fails. */
  function IngestFirst(w: Wallet, rate: int64, account: AccountId, found: seq<Found>, n: nat): Result
    requires n <= |found|
  {
    if n == 0 then Result(w, None)
    else
      var r := IngestFirst(w, rate, account, found, n - 1);
      if r.error.Some? then r else Ingest(r.wallet, rate, account, found[n - 1].deposit, found[n - 1].faults)
  }

  function ScanAddress(w: Wallet, rate: int64, address: Address, pass: Pass): Result {
    if !pass.cursor then Result(w, Some(StoreFailed))
    else if pass.found.None? then Result(w, Some(ChainFailed))
    else
      var r := IngestFirst(w, rate, address.account, pass.found.value, |pass.found.value|);
      if r.error.Some? || pass.newCursor == "" || pass.newCursor == CursorOf(w, address.address) then
        Result(r.wallet, None)
      else
        var moved := r.wallet.(cursors := r.wallet.cursors[address.address := pass.newCursor]);
        Result(if Applied(pass.advance) then moved else r.wallet,
               if pass.advance == Succeeded then None else Some(StoreFailed))
  }

  lemma IngestKeepsSeen(w: Wallet, rate: int64, account: AccountId, d: Incoming,
      f: IngestFaults, s: Signature)
    requires Seen(w.deposits, s)
    ensures Seen(Ingest(w, rate, account, d, f).wallet.deposits, s)
  {
    hide Wrap, ToReais;
    var i :| 0 <= i < |w.deposits| && w.deposits[i].signature == s;
    assert Ingest(w, rate, account, d, f).wallet.deposits[i].signature == s;
  }

  /** An ingestion that reports no error leaves a row for its signature. */
  lemma IngestedIsSeen(w: Wallet, rate: int64, account: AccountId, d: Incoming, f: IngestFaults)
    requires Ingest(w, rate, account, d, f).error.None?
    ensures Seen(Ingest(w, rate, account, d, f).wallet.deposits, d.signature)
  {
    hide Wrap, ToReais;
    if !Seen(w.deposits, d.signature) {
      var after := Ingest(w, rate, account, d, f).wallet.deposits;
      assert after[|w.deposits|].signature == d.signature;
    }
  }

  lemma {:induction false} AllSeen(w: Wallet, rate: int64, account: AccountId, found: seq<Found>, n: nat)
    requires n <= |found| && IngestFirst(w, rate, account, found, n).error.None?
    ensures forall k :: 0 <= k < n ==>
      Seen(IngestFirst(w, rate, account, found, n).wallet.deposits, found[k].deposit.signature)
  {
    hide Seen, Ingest;
    if n > 0 {
      AllSeen(w, rate, account, found, n - 1);
      var before := IngestFirst(w, rate, account, found, n - 1).wallet;
      IngestedIsSeen(before, rate, account, found[n - 1].deposit, found[n - 1].faults);
      forall k | 0 <= k < n
        ensures Seen(IngestFirst(w, rate, account, found, n).wallet.deposits, found[k].deposit.signature)
      {
        if k < n - 1 {
          IngestKeepsSeen(before, rate, account, found[n - 1].deposit, found[n - 1].faults, found[k].deposit.signature);
        }
      }
    }
  }

  lemma {:induction false} IngestFirstKeepsTables(w: Wallet, rate: int64, account: AccountId, found: seq<Found>, n: nat)
    requires n <= |found|
    ensures var after := IngestFirst(w, rate, account, found, n).wallet;
      after == w.(deposits := after.deposits, ledger := after.ledger)
  {
    hide Wrap, ToReais;
    if n > 0 {
      IngestFirstKeepsTables(w, rate, account, found, n - 1);
    }
  }

  /** Every one of these transfers has a row. */
  predicate AllStored(deposits: seq<Deposit>, found: seq<Found>) {
    forall k :: 0 <= k < |found| ==> Seen(deposits, found[k].deposit.signature)
  }

  /** A cursor only moves when every transfer the scanner returned in that pass
      has a row. */
  lemma CursorBehindRows(w: Wallet, rate: int64, address: Address, pass: Pass)
    requires ScanAddress(w, rate, address, pass).wallet.cursors != w.cursors
    ensures var after := ScanAddress(w, rate, address, pass).wallet;
      pass.found.Some? && after.cursors == w.cursors[address.address := pass.newCursor] &&
          AllStored(after.deposits, pass.found.value)
  {
    hide Seen, Ingest, IngestFirst;
    if pass.cursor && pass.found.Some? {
      IngestFirstKeepsTables(w, rate, address.account, pass.found.value, |pass.found.value|);
      if IngestFirst(w, rate, address.account, pass.found.value, |pass.found.value|).error.None? {
        AllSeen(w, rate, address.account, pass.found.value, |pass.found.value|);
      }
    }
  }

  /** scanOnce: each address in turn, whatever came of the ones before. */
  function ScanAll(w: Wallet, rate: int64, list: seq<Address>, passes: seq<Pass>, n: nat): Wallet
    requires n <= |list| && |list| == |passes|
  {
    if n == 0 then w else ScanAddress(ScanAll(w, rate, list, passes, n - 1), rate, list[n - 1], passes[n - 1]).wallet
  }

  lemma ScanKeepsSeen(w: Wallet, rate: int64, address: Address, pass: Pass, s: Signature)
    requires Seen(w.deposits, s)
    ensures Seen(ScanAddress(w, rate, address, pass).wallet.deposits, s)
  {
    hide Seen, IngestFirst;
    if pass.cursor && pass.found.Some? {
      FirstKeepsSeen(w, rate, address.account, pass.found.value, |pass.found.value|, s);
    }
  }

  lemma {:induction false} FirstKeepsSeen(w: Wallet, rate: int64, account: AccountId, found: seq<Found>, n: nat,
      s: Signature)
    requires n <= |found| && Seen(w.deposits, s)
    ensures Seen(IngestFirst(w, rate, account, found, n).wallet.deposits, s)
  {
    hide Seen, Ingest;
    if n > 0 {
      FirstKeepsSeen(w, rate, account, found, n - 1, s);
      IngestKeepsSeen(IngestFirst(w, rate, account, found, n - 1).wallet, rate, account, found[n - 1].deposit,
          found[n - 1].faults, s);
    }
  }

  /** A pass over all addresses moves a cursor only where some address with that
      key had every transfer found for it stored. */
  lemma {:induction false} CursorsBehindRows(w: Wallet, rate: int64, list: seq<Address>, passes: seq<Pass>, n: nat,
      key: string)
    requires n <= |list| && |list| == |passes|
    requires CursorOf(ScanAll(w, rate, list, passes, n), key) != CursorOf(w, key)
    ensures exists i ::
      && 0 <= i < n && list[i].address == key && passes[i].found.Some?
      && AllStored(ScanAll(w, rate, list, passes, n).deposits, passes[i].found.value)
  {
    hide Seen, ScanAddress;
    var before, after := ScanAll(w, rate, list, passes, n - 1), ScanAll(w, rate, list, passes, n);
    if CursorOf(after, key) != CursorOf(before, key) {
      CursorBehindRows(before, rate, list[n - 1], passes[n - 1]);
    } else {
      CursorsBehindRows(w, rate, list, passes, n - 1, key);
      var i :| 0 <= i < n - 1 && list[i].address == key && passes[i].found.Some? &&
        AllStored(before.deposits, passes[i].found.value);
      forall k | 0 <= k < |passes[i].found.value|
        ensures Seen(after.deposits, passes[i].found.value[k].deposit.signature)
      {
        ScanKeepsSeen(before, rate, list[n - 1], passes[n - 1], passes[i].found.value[k].deposit.signature);
      }
    }
  }

  // ---------------------------------------------------------------- invariant

  datatype Config = Config(rate: int64, limits: Limits, derive: nat -> string)

  function Credits(s: Signature): Adjustment -> int {
    (x: Adjustment) => if x.cause == DepositOf(s) then 1 else 0
  }

  /** How often the ledger was credited for this signature. */
  function CreditCount(ledger: seq<Adjustment>, s: Signature): int { Total(ledger, Credits(s)) }

  predicate DepositOk(d: Deposit, rate: int64) {
    if d.status == Credited then
      d.creditedUsdc >= 0 && d.creditedReais >= 0 && d.creditedReais == ToReais(d.creditedUsdc, rate)
    else d.creditedUsdc == 0 && d.creditedReais == 0
  }

  predicate WithdrawalOk(x: Withdrawal, config: Config)
    requires config.rate > 0
  {
    && x.reais >= 0 && x.usdc > 0 && x.usdc == ToMicroUsdc(x.reais, config.rate)
    && config.limits.min <= x.usdc <= config.limits.max
  }

  predicate Unique(deposits: seq<Deposit>) {
    forall i, j :: 0 <= i < j < |deposits| ==> deposits[i].signature != deposits[j].signature
  }

  ghost predicate WalletOk(w: Wallet, config: Config)
    requires config.rate > 0
  {
    && (forall i :: 0 <= i < |w.deposits| ==> DepositOk(w.deposits[i], config.rate))
    && (forall i :: 0 <= i < |w.withdrawals| ==> WithdrawalOk(w.withdrawals[i], config))
    && Unique(w.deposits)
    && (forall s :: 0 <= CreditCount(w.ledger, s) <= (if Seen(w.deposits, s) then 1 else 0))
  }

  lemma SeenAppend(deposits: seq<Deposit>, d: Deposit, s: Signature)
    ensures Seen(deposits + [d], s) <==> Seen(deposits, s) || d.signature == s
  {
    var after := deposits + [d];
    if Seen(deposits, s) {
      var i :| 0 <= i < |deposits| && deposits[i].signature == s;
      assert after[i].signature == s;
    }
    assert after[|deposits|] == d;
  }

  lemma IngestKeepsOk(w: Wallet, config: Config, account: AccountId, d: Incoming, f: IngestFaults)
    requires config.rate > 0 && WalletOk(w, config)
    ensures WalletOk(Ingest(w, config.rate, account, d, f).wallet, config)
  {
    hide Wrap, ToReais, ToMicroUsdc, Total, Seen, WithdrawalOk;
    var r := Ingest(w, config.rate, account, d, f);
    if r.wallet != w {
      var row := r.wallet.deposits[|w.deposits|];
      assert r.wallet.deposits == w.deposits + [row] && row.signature == d.signature;
      NewRowIsOk(config.rate, account, d, f);
      NotSeenIsNew(w.deposits, row);
      forall s ensures 0 <= CreditCount(r.wallet.ledger, s) <= (if Seen(r.wallet.deposits, s) then 1 else 0) {
        SeenAppend(w.deposits, row, s);
        assert w.ledger + [] == w.ledger;
        TotalOne(w.ledger, IngestAdjustments(config.rate, account, d, f), Credits(s));
      }
    }
  }

  lemma NewRowIsOk(rate: int64, account: AccountId, d: Incoming, f: IngestFaults)
    ensures DepositOk(IngestedRow(rate, account, d, f), rate) && DepositOk(NewDeposit(account, d), rate)
    ensures IngestedRow(rate, account, d, f).signature == NewDeposit(account, d).signature == d.signature
  {
    hide Wrap, ToReais;
  }

  lemma NotSeenIsNew(deposits: seq<Deposit>, row: Deposit)
    requires Unique(deposits) && !Seen(deposits, row.signature)
    ensures Unique(deposits + [row])
  {
  }

  lemma WithdrawWrites(w: Wallet, config: Config, account: AccountId, dest: string,
      reais: int64, f: WithdrawFaults)
    requires config.rate > 0
    ensures var after := Withdraw(w, config.rate, config.limits, account, dest, reais, f).wallet;
      && after == w.(ledger := after.ledger, withdrawals := after.withdrawals)
      && w.withdrawals <= after.withdrawals
      && (forall i :: |w.withdrawals| <= i < |after.withdrawals| ==> WithdrawalOk(after.withdrawals[i], config))
      && w.ledger <= after.ledger
      && (forall i :: |w.ledger| <= i < |after.ledger| ==> !after.ledger[i].cause.DepositOf?)
  {
    hide Wrap, ToMicroUsdc;
  }

  lemma {:induction false} NoCredits(ledger: seq<Adjustment>, after: seq<Adjustment>, s: Signature)
    requires ledger <= after && forall i :: |ledger| <= i < |after| ==> !after[i].cause.DepositOf?
    ensures CreditCount(after, s) == CreditCount(ledger, s)
    decreases |after|
  {
    if ledger != after {
      NoCredits(ledger, after[..|after| - 1], s);
    }
  }

  lemma WithdrawKeepsOk(w: Wallet, config: Config, account: AccountId, dest: string,
      reais: int64, f: WithdrawFaults)
    requires config.rate > 0 && WalletOk(w, config)
    ensures WalletOk(Withdraw(w, config.rate, config.limits, account, dest, reais, f).wallet, config)
  {
    hide Withdraw, CreditCount, Seen, DepositOk, WithdrawalOk;
    var after := Withdraw(w, config.rate, config.limits, account, dest, reais, f).wallet;
    WithdrawWrites(w, config, account, dest, reais, f);
    forall s ensures CreditCount(after.ledger, s) == CreditCount(w.ledger, s) {
      NoCredits(w.ledger, after.ledger, s);
    }
  }

  lemma {:induction false} IngestFirstKeepsOk(w: Wallet, config: Config, account: AccountId, found: seq<Found>, n: nat)
    requires config.rate > 0 && WalletOk(w, config) && n <= |found|
    ensures WalletOk(IngestFirst(w, config.rate, account, found, n).wallet, config)
  {
    hide WalletOk, Ingest;
    if n > 0 {
      IngestFirstKeepsOk(w, config, account, found, n - 1);
      IngestKeepsOk(IngestFirst(w, config.rate, account, found, n - 1).wallet, config, account,
          found[n - 1].deposit, found[n - 1].faults);
    }
  }

  // ---------------------------------------------------------------------- runs

  datatype Op =
    | ProvisionOp(account: AccountId, provision: ProvisionFaults)
    | FaucetOp(account: AccountId, provision: ProvisionFaults, faucet: FaucetFaults)
    | WithdrawOp(account: AccountId, dest: string, reais: int64, withdraw: WithdrawFaults)
    | ScanOp(address: Address, pass: Pass)
    | LoseCursor(address: Address)

  function Do(w: Wallet, config: Config, op: Op): Wallet
    requires config.rate > 0
  {
    match op
    case ProvisionOp(account, f) => Provision(w, config.derive, account, f).wallet
    case FaucetOp(account, p, f) => Faucet(w, config.derive, account, p, f).wallet
    case WithdrawOp(account, dest, reais, f) => Withdraw(w, config.rate, config.limits, account, dest, reais, f).wallet
    case ScanOp(address, pass) => ScanAddress(w, config.rate, address, pass).wallet
    case LoseCursor(address) => w.(cursors := w.cursors - {address.address})
  }

  function Run(w: Wallet, config: Config, ops: seq<Op>): Wallet
    requires config.rate > 0
  {
    if |ops| == 0 then w else Do(Run(w, config, ops[..|ops| - 1]), config, ops[|ops| - 1])
  }

  const EMPTY := Wallet([], 0, map[], {}, map[], [], [])

  lemma ProvisionWrites(w: Wallet, derive: nat -> string, account: AccountId,
      p: ProvisionFaults, f: FaucetFaults)
    ensures var after := Provision(w, derive, account, p).wallet;
      after == w.(sequence := after.sequence, addresses := after.addresses)
    ensures var after := Faucet(w, derive, account, p, f).wallet;
      after == w.(sequence := after.sequence, addresses := after.addresses, claims := after.claims)
  {
  }

  lemma SameTablesOk(w: Wallet, after: Wallet, config: Config)
    requires config.rate > 0 && WalletOk(w, config)
    requires after.ledger == w.ledger && after.deposits == w.deposits && after.withdrawals == w.withdrawals
    ensures WalletOk(after, config)
  {
    hide CreditCount, Seen, DepositOk, WithdrawalOk;
  }

  lemma DoKeepsOk(w: Wallet, config: Config, op: Op)
    requires config.rate > 0 && WalletOk(w, config)
    ensures WalletOk(Do(w, config, op), config)
  {
    hide WalletOk, Provision, Faucet, Withdraw, IngestFirst;
    var noFaults := FaucetFaults(Succeeded, true, Succeeded);
    match op
    case ProvisionOp(account, f) =>
      ProvisionWrites(w, config.derive, account, f, noFaults);
      SameTablesOk(w, Do(w, config, op), config);
    case FaucetOp(account, p, f) =>
      ProvisionWrites(w, config.derive, account, p, f);
      SameTablesOk(w, Do(w, config, op), config);
    case WithdrawOp(account, dest, reais, f) => WithdrawKeepsOk(w, config, account, dest, reais, f);
    case ScanOp(address, pass) =>
      if pass.cursor && pass.found.Some? {
        var ingested := IngestFirst(w, config.rate, address.account, pass.found.value, |pass.found.value|).wallet;
        IngestFirstKeepsOk(w, config, address.account, pass.found.value, |pass.found.value|);
        SameTablesOk(ingested, Do(w, config, op), config);
      }
    case LoseCursor(address) => SameTablesOk(w, Do(w, config, op), config);
  }

  lemma {:induction false} RunKeepsOk(w: Wallet, config: Config, ops: seq<Op>)
    requires config.rate > 0 && WalletOk(w, config)
    ensures WalletOk(Run(w, config, ops), config)
  {
    hide WalletOk, Do;
    if |ops| > 0 {
      RunKeepsOk(w, config, ops[..|ops| - 1]);
      DoKeepsOk(Run(w, config, ops[..|ops| - 1]), config, ops[|ops| - 1]);
    }
  }

  /** Over any run of scan passes - with replays, lost cursors, failed ingestions
      and every other call in between - the ledger is credited at most once for
      each signature, and never for one without a row. */
  lemma {:induction false} AtMostOneCredit(config: Config, ops: seq<Op>, s: Signature)
    requires config.rate > 0
    ensures var end := Run(EMPTY, config, ops);
      CreditCount(end.ledger, s) <= (if Seen(end.deposits, s) then 1 else 0)
  {
    RunKeepsOk(EMPTY, config, ops);
  }

  lemma DoKeepsSeen(w: Wallet, config: Config, op: Op, s: Signature)
    requires config.rate > 0 && Seen(w.deposits, s)
    ensures Seen(Do(w, config, op).deposits, s)
  {
    hide Provision, Faucet, Withdraw, IngestFirst, Seen;
    match op
    case ProvisionOp(account, f) => ProvisionWrites(w, config.derive, account, f, FaucetFaults(Succeeded, true,
        Succeeded));
    case FaucetOp(account, p, f) => ProvisionWrites(w, config.derive, account, p, f);
    case WithdrawOp(account, dest, reais, f) => WithdrawWrites(w, config, account, dest, reais, f);
    case ScanOp(address, pass) =>
      ScanKeepsSeen(w, config.rate, address, pass, s);
    case LoseCursor(_) =>
  }

  lemma {:induction false} RunKeepsSeen(w: Wallet, config: Config, ops: seq<Op>, s: Signature)
    requires config.rate > 0 && Seen(w.deposits, s)
    ensures Seen(Run(w, config, ops).deposits, s)
  {
    hide Seen, Do;
    if |ops| > 0 {
      RunKeepsSeen(w, config, ops[..|ops| - 1], s);
      DoKeepsSeen(Run(w, config, ops[..|ops| - 1]), config, ops[|ops| - 1], s);
    }
  }

  // ------------------------------------------------------- what a failed ingest leaves

  /** Rows are only appended: none a call has left is changed by a later one. */
  lemma DoAppends(w: Wallet, config: Config, op: Op)
    requires config.rate > 0
    ensures w.deposits <= Do(w, config, op).deposits && w.addresses.Keys <= Do(w, config, op).addresses.Keys
  {
    hide Withdraw, IngestFirst, Seen, Truncated, Unused;
    match op
    case ProvisionOp(account, f) =>
      ProvisionWrites(w, config.derive, account, f, FaucetFaults(Succeeded, true, Succeeded));
    case FaucetOp(account, p, f) => ProvisionWrites(w, config.derive, account, p, f);
    case WithdrawOp(account, dest, reais, f) => WithdrawWrites(w, config, account, dest, reais, f);
    case ScanOp(address, pass) =>
      if pass.cursor && pass.found.Some? {
        FirstAppends(w, config.rate, address.account, pass.found.value, |pass.found.value|);
        IngestFirstKeepsTables(w, config.rate, address.account, pass.found.value, |pass.found.value|);
      }
    case LoseCursor(_) =>
  }

  lemma {:induction false} FirstAppends(w: Wallet, rate: int64, account: AccountId, found: seq<Found>, n: nat)
    requires n <= |found|
    ensures w.deposits <= IngestFirst(w, rate, account, found, n).wallet.deposits
  {
    hide IngestedRow, IngestAdjustments, IngestError, Seen, Insertable;
    if n > 0 {
      FirstAppends(w, rate, account, found, n - 1);
    }
  }

  lemma {:induction false} RunAppends(w: Wallet, config: Config, ops: seq<Op>)
    requires config.rate > 0
    ensures w.deposits <= Run(w, config, ops).deposits && w.addresses.Keys <= Run(w, config, ops).addresses.Keys
  {
    hide Do;
    if |ops| > 0 {
      RunAppends(w, config, ops[..|ops| - 1]);
      DoAppends(Run(w, config, ops[..|ops| - 1]), config, ops[|ops| - 1]);
    }
  }

  /** A signature with a row is never credited again. */
  lemma IngestCreditsUnseen(w: Wallet, rate: int64, account: AccountId, d: Incoming, f: IngestFaults,
      s: Signature)
    ensures Seen(w.deposits, s) ==>
      CreditCount(Ingest(w, rate, account, d, f).wallet.ledger, s) == CreditCount(w.ledger, s)
  {
    hide Wrap, ToReais, IngestedRow, IngestError, Seen, Insertable, Total;
    assert w.ledger + [] == w.ledger;
    TotalOne(w.ledger, IngestAdjustments(rate, account, d, f), Credits(s));
  }

  lemma {:induction false} FirstCreditsUnseen(w: Wallet, rate: int64, account: AccountId, found: seq<Found>, n: nat,
      s: Signature)
    requires n <= |found| && Seen(w.deposits, s)
    ensures CreditCount(IngestFirst(w, rate, account, found, n).wallet.ledger, s) == CreditCount(w.ledger, s)
  {
    hide Ingest, Seen, CreditCount;
    if n > 0 {
      FirstCreditsUnseen(w, rate, account, found, n - 1, s);
      FirstKeepsSeen(w, rate, account, found, n - 1, s);
      IngestCreditsUnseen(IngestFirst(w, rate, account, found, n - 1).wallet, rate, account, found[n - 1].deposit,
          found[n - 1].faults, s);
    }
  }

  lemma DoCreditsUnseen(w: Wallet, config: Config, op: Op, s: Signature)
    requires config.rate > 0 && Seen(w.deposits, s)
    ensures CreditCount(Do(w, config, op).ledger, s) == CreditCount(w.ledger, s)
  {
    hide Provision, Faucet, Withdraw, IngestFirst, Seen, CreditCount;
    match op
    case ProvisionOp(account, f) =>
      ProvisionWrites(w, config.derive, account, f, FaucetFaults(Succeeded, true, Succeeded));
    case FaucetOp(account, p, f) => ProvisionWrites(w, config.derive, account, p, f);
    case WithdrawOp(account, dest, reais, f) =>
      WithdrawWrites(w, config, account, dest, reais, f);
      NoCredits(w.ledger, Do(w, config, op).ledger, s);
    case ScanOp(address, pass) =>
      if pass.cursor && pass.found.Some? {
        FirstCreditsUnseen(w, config.rate, address.account, pass.found.value, |pass.found.value|, s);
      }
    case LoseCursor(_) =>
  }

  lemma {:induction false} RunCreditsUnseen(w: Wallet, config: Config, ops: seq<Op>, s: Signature)
    requires config.rate > 0 && Seen(w.deposits, s)
    ensures CreditCount(Run(w, config, ops).ledger, s) == CreditCount(w.ledger, s)
  {
    hide Seen, Do, CreditCount;
    if |ops| > 0 {
      RunCreditsUnseen(w, config, ops[..|ops| - 1], s);
      RunKeepsSeen(w, config, ops[..|ops| - 1], s);
      DoCreditsUnseen(Run(w, config, ops[..|ops| - 1]), config, ops[|ops| - 1], s);
    }
  }

  const NO_FAULTS := IngestFaults(Succeeded, Succeeded, true, Some(1), Succeeded, Succeeded, Succeeded)

  /** A pass in which nothing fails and the scanner returns this one transfer. */
  function CleanPass(d: Incoming): Pass { Pass(true, Some([Found(d, NO_FAULTS)]), d.signature, Succeeded) }

  /** Scanning a transfer once more, with nothing failing, credits it if and only if
      it has no row yet. */
  lemma CleanScanCredits(w: Wallet, config: Config, address: Address, d: Incoming)
    requires config.rate > 0 && Insertable(d) && address.account in w.addresses
    ensures CreditCount(Do(w, config, ScanOp(address, CleanPass(d))).ledger, d.signature) ==
      CreditCount(w.ledger, d.signature) + (if Seen(w.deposits, d.signature) then 0 else 1)
  {
    hide Wrap, ToReais, IngestedRow, IngestError, Seen, Insertable, CreditCount;
    var found := [Found(d, NO_FAULTS)];
    assert IngestFirst(w, config.rate, address.account, found, 0) == Result(w, None);
    assert IngestFirst(w, config.rate, address.account, found, 1) ==
      Ingest(w, config.rate, address.account, d, NO_FAULTS);
    CleanIngestCredits(w, config.rate, address.account, d);
  }

  lemma CleanIngestCredits(w: Wallet, rate: int64, account: AccountId, d: Incoming)
    requires Insertable(d) && account in w.addresses
    ensures CreditCount(Ingest(w, rate, account, d, NO_FAULTS).wallet.ledger, d.signature) ==
      CreditCount(w.ledger, d.signature) + (if Seen(w.deposits, d.signature) then 0 else 1)
  {
    hide Wrap, ToReais, IngestedRow, IngestError, Seen, Total;
    TotalOne(w.ledger, IngestAdjustments(rate, account, d, NO_FAULTS), Credits(d.signature));
  }

  /** Some later run credits the signature. */
  ghost predicate CreditedLater(w: Wallet, config: Config, s: Signature)
    requires config.rate > 0
  {
    exists ops: seq<Op> :: CreditCount(Run(w, config, ops).ledger, s) > CreditCount(w.ledger, s)
  }

  /** After an ingestion that reported an error, a later one can still credit the
      transfer if and only if its row was not stored. */
  lemma FailedIngestRetryIff(w: Wallet, config: Config, address: Address, d: Incoming,
      f: IngestFaults)
    requires config.rate > 0 && Insertable(d) && !Seen(w.deposits, d.signature) && address.account in w.addresses
    requires Ingest(w, config.rate, address.account, d, f).error.Some?
    ensures CreditedLater(Ingest(w, config.rate, address.account, d, f).wallet, config, d.signature) <==>
      !Applied(f.insert)
  {
    hide Wrap, ToReais, IngestAdjustments, IngestError, IngestedRow, Run, Seen, Insertable, CreditCount;
    var after := Ingest(w, config.rate, address.account, d, f).wallet;
    if Applied(f.insert) {
      NewRowIsOk(config.rate, address.account, d, f);
      StoredIsSeen(w, config.rate, address.account, d, f);
      forall ops: seq<Op>
        ensures CreditCount(Run(after, config, ops).ledger, d.signature) == CreditCount(after.ledger, d.signature)
      {
        RunCreditsUnseen(after, config, ops, d.signature);
      }
    } else {
      assert after == w;
      CleanScanCredits(w, config, address, d);
      RunOne(w, config, ScanOp(address, CleanPass(d)));
    }
  }

  lemma {:induction false} RunOne(w: Wallet, config: Config, op: Op)
    requires config.rate > 0
    ensures Run(w, config, [op]) == Do(w, config, op)
  {
    hide Do;
    assert [op][..0] == [];
  }

  lemma StoredIsSeen(w: Wallet, rate: int64, account: AccountId, d: Incoming, f: IngestFaults)
    requires Insertable(d) && !Seen(w.deposits, d.signature) && account in w.addresses && Applied(f.insert)
    ensures var after := Ingest(w, rate, account, d, f).wallet;
      |after.deposits| == |w.deposits| + 1 && Seen(after.deposits, d.signature)
  {
    hide Wrap, ToReais, IngestAdjustments, IngestError, IngestedRow, Seen, Insertable;
    NewRowIsOk(rate, account, d, f);
    SeenAppend(w.deposits, IngestedRow(rate, account, d, f), d.signature);
    SeenAppend(w.deposits, NewDeposit(account, d), d.signature);
  }

  /** A stored row keeps whatever status the failure left it in: whatever happens in
      between, scanning it again changes nothing and reports no error, so the cursor
      moves past it. */
  lemma {:induction false} FailedIngestIsNotRetried(w: Wallet, config: Config, account: AccountId, d: Incoming,
      f: IngestFaults, ops: seq<Op>, again: IngestFaults)
    requires config.rate > 0 && Insertable(d) && !Seen(w.deposits, d.signature) && account in w.addresses
    requires Applied(f.insert) && again.insert == Succeeded
    ensures var after := Ingest(w, config.rate, account, d, f).wallet;
      var later, n := Run(after, config, ops), |w.deposits|;
      && Ingest(later, config.rate, account, d, again) == Result(later, None)
      && n < |after.deposits| && n < |later.deposits| && later.deposits[n] == after.deposits[n]
  {
    hide Wrap, ToReais, IngestedRow, IngestAdjustments, IngestError, Run, Seen;
    var after := Ingest(w, config.rate, account, d, f).wallet;
    StoredIsSeen(w, config.rate, account, d, f);
    RunKeepsSeen(after, config, ops, d.signature);
    RunAppends(after, config, ops);
  }

  /** For instance: lamports arrive at a provisioned account and their swap fails. */
  const PROVISIONED := EMPTY.(addresses := map["a" := Address("a", 1, "address", "ata")])

  const SWAP_FAILS := NO_FAULTS.(swap := None)

  lemma {:induction false} FailedSwapIsLost(config: Config, ops: seq<Op>)
    requires config.rate > 0
    ensures var first := Ingest(PROVISIONED, config.rate, "a", Incoming("sig", SOL, 1_000_000_000), SWAP_FAILS);
      var end := Run(first.wallet, config, ops);
      && first.error == Some(SwapFailed)
      && |end.deposits| > 0 && end.deposits[0] == Deposit("sig", "a", SOL, 1_000_000_000, 0, 0, Parked)
      && CreditCount(end.ledger, "sig") == 0
  {
    hide Run, Seen, CreditCount;
    var d := Incoming("sig", SOL, 1_000_000_000);
    WrapUnique(1_000_000_000, 1_000_000_000);
    NothingSeen("sig");
    var first := Ingest(PROVISIONED, config.rate, "a", d, SWAP_FAILS);
    assert first == Result(PROVISIONED.(
        deposits := [Deposit("sig", "a", SOL, 1_000_000_000, 0, 0, Parked)]), Some(SwapFailed)) by {
      assert SOL[0] != USDC[0];
      assert [] + [IngestedRow(config.rate, "a", d, SWAP_FAILS)] == [IngestedRow(config.rate, "a", d, SWAP_FAILS)];
    }
    StoredIsSeen(PROVISIONED, config.rate, "a", d, SWAP_FAILS);
    RunAppends(first.wallet, config, ops);
    RunCreditsUnseen(first.wallet, config, ops, "sig");
  }

  lemma NothingSeen(s: Signature)
    ensures !Seen([], s) && CreditCount([], s) == 0
  {
  }

  // --------------------------------------------------------------- reconciliation

  /** A failed ledger call and a failed INSERT of a withdrawal have no effect,
      terminal statuses are written and refunds succeed; the chain, the swapper and
      everything else may fail in any way. */
  predicate Benign(op: Op, config: Config) {
    match op
    case WithdrawOp(_, _, reais, f) => CleanWithdraw(f) && (reais == MIN ==> !Applied(f.debit))
    case ScanOp(_, pass) =>
      pass.found.Some? ==>
        forall k :: 0 <= k < |pass.found.value| ==>
          IngestBalances(config.rate, pass.found.value[k].deposit, pass.found.value[k].faults)
    case _ => true
  }

  lemma WithdrawKeepsGap(w: Wallet, config: Config, account: AccountId, dest: string,
      reais: int64, f: WithdrawFaults, p: Selection)
    requires config.rate > 0 && CleanWithdraw(f) && (reais == MIN ==> !Applied(f.debit))
    ensures Gap(Withdraw(w, config.rate, config.limits, account, dest, reais, f).wallet, p) == Gap(w, p)
  {
    hide Wrap, ToMicroUsdc, Gap, Place, PlacedRows, HandsBack;
    var row := Withdrawal(account, dest, reais, ToMicroUsdc(reais, config.rate), Requested, None);
    var debited := Debited(w, account, reais, f);
    var over := config.limits.manualReviewOver;
    DebitGap(w, account, reais, f, p);
    NegatedIs(reais);
    PlaceGap(debited, over, row, f, p);
    PlacedRow(debited, over, row, f);
    CleanWithdrawBalances(debited, config.limits, row, f);
    BalancesIs(debited, config.limits, row, f);
  }

  lemma IngestKeepsGap(w: Wallet, rate: int64, account: AccountId, d: Incoming, f: IngestFaults,
      p: Selection)
    requires IngestBalances(rate, d, f)
    ensures Gap(Ingest(w, rate, account, d, f).wallet, p) == Gap(w, p)
  {
    hide Ingest, Gap, IngestBalances, Ingests;
    if p(account) {
      IngestKeepsGapIff(w, rate, account, d, f, p);
    } else {
      IngestKeepsOthers(w, rate, account, d, f, p);
    }
  }

  lemma {:induction false} FirstKeepsGap(w: Wallet, rate: int64, account: AccountId, found: seq<Found>, n: nat,
      p: Selection)
    requires n <= |found|
    requires forall k :: 0 <= k < |found| ==> IngestBalances(rate, found[k].deposit, found[k].faults)
    ensures Gap(IngestFirst(w, rate, account, found, n).wallet, p) == Gap(w, p)
  {
    hide Gap, Ingest, IngestBalances;
    if n > 0 {
      FirstKeepsGap(w, rate, account, found, n - 1, p);
      IngestKeepsGap(IngestFirst(w, rate, account, found, n - 1).wallet, rate, account, found[n - 1].deposit,
          found[n - 1].faults, p);
    }
  }

  lemma SameTablesGap(w: Wallet, after: Wallet, p: Selection)
    requires after.ledger == w.ledger && after.deposits == w.deposits && after.withdrawals == w.withdrawals
    ensures Gap(after, p) == Gap(w, p)
  {
  }

  lemma DoKeepsGap(w: Wallet, config: Config, op: Op, p: Selection)
    requires config.rate > 0 && Benign(op, config)
    ensures Gap(Do(w, config, op), p) == Gap(w, p)
  {
    hide Gap, Provision, Faucet, Withdraw, IngestFirst, CleanWithdraw, IngestBalances;
    match op
    case ProvisionOp(account, f) =>
      ProvisionWrites(w, config.derive, account, f, FaucetFaults(Succeeded, true, Succeeded));
      SameTablesGap(w, Do(w, config, op), p);
    case FaucetOp(account, q, f) =>
      ProvisionWrites(w, config.derive, account, q, f);
      SameTablesGap(w, Do(w, config, op), p);
    case WithdrawOp(account, dest, reais, f) => WithdrawKeepsGap(w, config, account, dest, reais, f, p);
    case ScanOp(address, pass) =>
      if pass.cursor && pass.found.Some? {
        FirstKeepsGap(w, config.rate, address.account, pass.found.value, |pass.found.value|, p);
        SameTablesGap(IngestFirst(w, config.rate, address.account, pass.found.value, |pass.found.value|).wallet,
            Do(w, config, op), p);
      }
    case LoseCursor(_) => SameTablesGap(w, Do(w, config, op), p);
  }

  lemma {:induction false} RunKeepsGap(w: Wallet, config: Config, ops: seq<Op>, p: Selection)
    requires config.rate > 0 && forall i :: 0 <= i < |ops| ==> Benign(ops[i], config)
    ensures Gap(Run(w, config, ops), p) == Gap(w, p)
  {
    hide Gap, Do, Benign;
    if |ops| > 0 {
      RunKeepsGap(w, config, ops[..|ops| - 1], p);
      DoKeepsGap(Run(w, config, ops[..|ops| - 1]), config, ops[|ops| - 1], p);
    }
  }

  /** Over any such run, whatever the chain and the swapper do, the ledger change of
      any group of accounts is the sum of their credited deposits minus the sum of
      their withdrawals that did not fail. */
  lemma {:induction false} LedgerMatchesRows(config: Config, ops: seq<Op>, p: Selection)
    requires config.rate > 0 && forall i :: 0 <= i < |ops| ==> Benign(ops[i], config)
    ensures var end := Run(EMPTY, config, ops);
      Net(end, p) == Total(end.deposits, CreditedTo(p)) - Total(end.withdrawals, WithdrawnBy(p))
  {
    hide Run, Benign;
    RunKeepsGap(EMPTY, config, ops, p);
  }

  // --------------------------------------------------------------- treasury drift

  function IsCredited(d: Deposit): int { if d.status == Credited then 1 else 0 }

  function UsdcIn(d: Deposit): int { if d.status == Credited then d.creditedUsdc else 0 }

  function ReaisIn(d: Deposit): int { if d.status == Credited then d.creditedReais else 0 }

  function IsPaid(x: Withdrawal): int { if x.status != Failed then 1 else 0 }

  function UsdcOut(x: Withdrawal): int { if x.status != Failed then x.usdc else 0 }

  function ReaisOut(x: Withdrawal): int { if x.status != Failed then x.reais else 0 }

  /** What was credited is within int64 before it is rounded. */
  predicate CreditFits(d: Deposit, rate: int64)
    requires rate > 0
  {
    d.status == Credited ==> d.creditedUsdc >= 0 && Rounded(d.creditedUsdc, rate, 1_000_000_000_000) <= MAX
  }

  lemma {:induction false} DepositDrift(deposits: seq<Deposit>, rate: int64)
    requires rate > 0
    requires forall i :: 0 <= i < |deposits| ==> DepositOk(deposits[i], rate) && CreditFits(deposits[i], rate)
    ensures var drift := Total(deposits, UsdcIn) * rate - Total(deposits, ReaisIn) * 1_000_000_000_000;
      -Total(deposits, IsCredited) * 1_000_000_000_000 <= 2 * drift <= Total(deposits, IsCredited) * 1_000_000_000_000
  {
    hide ToReais;
    if |deposits| > 0 {
      var n := |deposits| - 1;
      DepositDrift(deposits[..n], rate);
      var d := deposits[n];
      if d.status == Credited {
        CreditErrorIff(d.creditedUsdc, rate);
        DriftStep(Total(deposits[..n], UsdcIn), Total(deposits[..n], ReaisIn), Total(deposits[..n], IsCredited), SCALE,
                  d.creditedUsdc, d.creditedReais, rate);
      }
    }
  }

  /** For rates up to 10^12, every credit fits. */
  lemma LowRateFits(d: Deposit, rate: int64)
    requires 0 < rate <= 1_000_000_000_000 && DepositOk(d, rate)
    ensures CreditFits(d, rate)
  {
    hide ToReais, Rounded;
    if d.status == Credited {
      NoLargerAtLowRate(d.creditedUsdc, rate);
    }
  }

  lemma NoLargerAtLowRate(usdc: nat, rate: int)
    requires 0 < rate <= SCALE
    ensures Rounded(usdc, rate, SCALE) <= usdc
  {
    var x := usdc * rate + SCALE / 2;
    Scales(usdc, rate);
    assert x < usdc * SCALE + SCALE;
    QuotientAtMost(x, usdc);
  }

  lemma Scales(a: nat, rate: int)
    requires 0 < rate <= SCALE
    ensures 0 <= a * rate <= a * SCALE
  {
  }

  lemma QuotientAtMost(x: int, q: int)
    requires 0 <= x < q * SCALE + SCALE
    ensures x / SCALE <= q
  {
  }

  /** One more conversion, each within half of `unit`. */
  lemma DriftStep(usdc: int, reais: int, n: int, unit: int, moreUsdc: int, moreReais: int, rate: int)
    requires -n * unit <= 2 * (usdc * rate - reais * SCALE) <= n * unit
    requires -unit <= 2 * (moreUsdc * rate - moreReais * SCALE) <= unit
    ensures -(n + 1) * unit <= 2 * ((usdc + moreUsdc) * rate - (reais + moreReais) * SCALE) <= (n + 1) * unit
  {
    assert (usdc + moreUsdc) * rate == usdc * rate + moreUsdc * rate;
    assert (n + 1) * unit == n * unit + unit && -(n + 1) * unit == -n * unit - unit;
  }

  lemma {:induction false} WithdrawalDrift(withdrawals: seq<Withdrawal>, config: Config)
    requires config.rate > 0
    requires forall i :: 0 <= i < |withdrawals| ==>
      WithdrawalOk(withdrawals[i], config) && Fits(withdrawals[i].reais, config.rate)
    ensures var drift := Total(withdrawals, UsdcOut) * config.rate - Total(withdrawals, ReaisOut) * 1_000_000_000_000;
      -Total(withdrawals, IsPaid) * config.rate <= 2 * drift <= Total(withdrawals, IsPaid) * config.rate
  {
    hide ToMicroUsdc;
    if |withdrawals| > 0 {
      var n := |withdrawals| - 1;
      WithdrawalDrift(withdrawals[..n], config);
      var x := withdrawals[n];
      if x.status != Failed {
        PayoutErrorIff(x.reais, config.rate);
        DriftStep(Total(withdrawals[..n], UsdcOut), Total(withdrawals[..n], ReaisOut), Total(withdrawals[..n], IsPaid),
                  config.rate, x.usdc, x.reais, config.rate);
      }
    }
  }

  /** Treasury drift over any run: the USDC taken in minus the USDC owed, at the
      rate, stays within half a unit per conversion of the reais credited minus
      the reais debited - as long as each amount credited or withdrawn fits int64. */
  lemma {:induction false} DriftBound(config: Config, ops: seq<Op>)
    requires config.rate > 0
    requires var end := Run(EMPTY, config, ops);
      && (forall i :: 0 <= i < |end.deposits| ==> CreditFits(end.deposits[i], config.rate))
      && (forall i :: 0 <= i < |end.withdrawals| ==> Fits(end.withdrawals[i].reais, config.rate))
    ensures var end := Run(EMPTY, config, ops);
      var usdc := Total(end.deposits, UsdcIn) - Total(end.withdrawals, UsdcOut);
      var reais := Total(end.deposits, ReaisIn) - Total(end.withdrawals, ReaisOut);
      var bound := Total(end.deposits, IsCredited) * 1_000_000_000_000 + Total(end.withdrawals, IsPaid) * config.rate;
      -bound <= 2 * (usdc * config.rate - reais * 1_000_000_000_000) <= bound
  {
    hide Run, Fits, Total, CreditFits, Rounded;
    EmptyOk(config);
    RunKeepsOk(EMPTY, config, ops);
    var end := Run(EMPTY, config, ops);
    DepositDrift(end.deposits, config.rate);
    WithdrawalDrift(end.withdrawals, config);
    Distribute(Total(end.deposits, UsdcIn), Total(end.withdrawals, UsdcOut), config.rate);
  }

  lemma Distribute(a: int, b: int, c: int)
    ensures (a - b) * c == a * c - b * c
  {
  }

  lemma EmptyOk(config: Config)
    requires config.rate > 0
    ensures WalletOk(EMPTY, config)
  {
  }
}
