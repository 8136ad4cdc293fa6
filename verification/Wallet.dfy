/** The custodial wallet's three tables and what each call does to them and to
    the ledger, for every combination of calls that fail on the way. */
module Wallet {
  import opened Int64
  import opened Sums
  import opened Wrappers
  import opened Conversion

  type AccountId = string
  type Signature = string

  const USDC := "USDC"
  const SOL := "SOL"

  /** What came of a call into a store or the ledger: done and reported; rejected
      by the callee; not done and reported as an error; or done, although an
      error was reported. */
  datatype Outcome = Succeeded | Refused | Lost | Unconfirmed

  predicate Applied(o: Outcome) { o == Succeeded || o == Unconfirmed }

  datatype WalletError =
    | StoreFailed
    | SwapFailed
    | LedgerFailed
    | ChainFailed
    | AmountBelowMin
    | AmountAboveMax
    | InsufficientBalance
    | ManualReview
    | FaucetAlreadyClaimed

  // -------------------------------------------------------------------- tables

  datatype DepositStatus = Detected | Swapping | Credited | Parked

  datatype Deposit = Deposit(
    signature: Signature,
    account: AccountId,
    asset: string,
    rawAmount: int64,
    creditedUsdc: int64,
    creditedReais: int64,
    status: DepositStatus)

  datatype WithdrawalStatus = Requested | Signing | Sent | Confirmed | Failed

  datatype Withdrawal = Withdrawal(
    account: AccountId,
    dest: string,
    reais: int64,
    usdc: int64,
    status: WithdrawalStatus,
    signature: Option<Signature>)

  datatype Address = Address(account: AccountId, index: nat, address: string, ata: string)

  /** Why a balance was adjusted. */
  datatype Cause = DepositOf(signature: Signature) | Debit | Refund

  /** One `AdjustBalance` that bet-backend carried out for this service. */
  datatype Adjustment = Adjustment(account: AccountId, delta: int, cause: Cause)

  datatype Wallet = Wallet(
    ledger: seq<Adjustment>,
    sequence: nat,
    addresses: map<AccountId, Address>,
    claims: set<AccountId>,
    cursors: map<string, Signature>,
    deposits: seq<Deposit>,
    withdrawals: seq<Withdrawal>)

  datatype Limits = Limits(min: int64, max: int64, manualReviewOver: int64)

  /** The call's effect and what it reported. */
  datatype Result = Result(wallet: Wallet, error: Option<WalletError>)

  predicate Seen(deposits: seq<Deposit>, s: Signature) {
    exists i :: 0 <= i < |deposits| && deposits[i].signature == s
  }

  // ------------------------------------------------------------------- deposits

  /** An incoming transfer, its amount a `uint64`. */
  datatype Incoming = Incoming(signature: Signature, asset: string, rawAmount: nat)

  datatype IngestFaults = IngestFaults(
    insert: Outcome,
    swapping: Outcome,
    lookup: bool,
    swap: Option<nat>,
    ledger: Outcome,
    credited: Outcome,
    failed: Outcome)

  /** The CHECK constraints on a new deposit row. */
  predicate Insertable(d: Incoming) {
    Wrap(d.rawAmount) > 0 && (d.asset == USDC || d.asset == SOL)
  }

  /** resolveCreditAmount: micro-USDC as is, lamports through the swapper. */
  function CreditAmount(d: Incoming, f: IngestFaults): Option<int64> {
    if d.asset == USDC then Some(Wrap(d.rawAmount))
    else if f.swapping == Succeeded && f.lookup && f.swap.Some? then Some(Wrap(f.swap.value))
    else None
  }

  /** The columns' CHECK constraints accept these credited amounts. */
  predicate Recordable(usdc: int64, reais: int64) { usdc >= 0 && reais >= 0 }

  function NewDeposit(account: AccountId, d: Incoming): Deposit {
    Deposit(d.signature, account, d.asset, Wrap(d.rawAmount), 0, 0, Detected)
  }

  /** The deposit's row once the call is over. */
  function IngestedRow(rate: int64, account: AccountId, d: Incoming, f: IngestFaults): Deposit {
    var row := NewDeposit(account, d).(status := if d.asset == SOL && Applied(f.swapping) then Swapping else Detected);
    var usdc := CreditAmount(d, f);
    if usdc.None? || f.ledger != Succeeded then
      if Applied(f.failed) then row.(status := Parked) else row
    else
      var reais := ToReais(usdc.value, rate);
      if Recordable(usdc.value, reais) && Applied(f.credited) then
        row.(status := Credited, creditedUsdc := usdc.value, creditedReais := reais)
      else row
  }

  /** What the call added to the ledger. */
  function IngestAdjustments(rate: int64, account: AccountId, d: Incoming, f: IngestFaults): seq<Adjustment> {
    var usdc := CreditAmount(d, f);
    if usdc.Some? && Applied(f.ledger) then [Adjustment(account, ToReais(usdc.value, rate), DepositOf(d.signature))]
    else []
  }

  function IngestError(rate: int64, d: Incoming, f: IngestFaults): Option<WalletError> {
    var usdc := CreditAmount(d, f);
    if usdc.None? then Some(SwapFailed)
    else if f.ledger != Succeeded then Some(LedgerFailed)
    else if Recordable(usdc.value, ToReais(usdc.value, rate)) && f.credited == Succeeded then None
    else Some(StoreFailed)
  }

  /** The signature's row is inserted by this call, which then goes on. */
  predicate Ingests(w: Wallet, account: AccountId, d: Incoming, f: IngestFaults) {
    Insertable(d) && !Seen(w.deposits, d.signature) && account in w.addresses && f.insert == Succeeded
  }

  function Ingest(w: Wallet, rate: int64, account: AccountId, d: Incoming, f: IngestFaults): Result {
    if !Insertable(d) || !Applied(f.insert) then Result(w, Some(StoreFailed))
    else if Seen(w.deposits, d.signature) then Result(w, if f.insert == Succeeded then None else Some(StoreFailed))
    else if account !in w.addresses then Result(w, Some(StoreFailed))
    else if f.insert == Unconfirmed then
      Result(w.(deposits := w.deposits + [NewDeposit(account, d)]), Some(StoreFailed))
    else
      Result(w.(deposits := w.deposits + [IngestedRow(rate, account, d, f)],
                ledger := w.ledger + IngestAdjustments(rate, account, d, f)),
             IngestError(rate, d, f))
  }

  // ---------------------------------------------------------------- withdrawals

  datatype WithdrawFaults = WithdrawFaults(
    debit: Outcome,
    insert: Outcome,
    signing: Outcome,
    ata: bool,
    transfer: bool,
    signature: Signature,
    sent: Outcome,
    confirm: bool,
    confirmed: Outcome,
    failed: Outcome,
    refund: Outcome)

  /** The CHECK constraints and foreign key on a new withdrawal row. */
  predicate Storable(w: Wallet, account: AccountId, reais: int64, usdc: int64) {
    usdc > 0 && reais >= 0 && account in w.addresses
  }

  /** A settlement attempt: the row's last state, whether the debit was handed
      back to `refund`, and what was reported. */
  datatype Settlement = Settlement(row: Withdrawal, refunded: bool, error: Option<WalletError>)

  function FailAndRefund(row: Withdrawal, f: WithdrawFaults): Settlement {
    Settlement(if Applied(f.failed) then row.(status := Failed) else row, true, Some(ChainFailed))
  }

  function Settle(row: Withdrawal, f: WithdrawFaults): Settlement {
    var signing := if Applied(f.signing) then row.(status := Signing) else row;
    if !f.ata || !f.transfer then FailAndRefund(signing, f)
    else
      var sent := if Applied(f.sent) then signing.(status := Sent, signature := Some(f.signature)) else signing;
      if f.sent != Succeeded then Settlement(sent, false, Some(StoreFailed))
      else if !f.confirm then FailAndRefund(sent, f)
      else
        Settlement(if Applied(f.confirmed) then sent.(status := Confirmed) else sent, false,
                   if f.confirmed == Succeeded then None else Some(StoreFailed))
  }

  function Refunded(account: AccountId, reais: int64, f: WithdrawFaults): seq<Adjustment> {
    if Applied(f.refund) then [Adjustment(account, reais, Refund)] else []
  }

  /** After the debit: record, then park or settle. */
  function Place(w: Wallet, manualReviewOver: int64, row: Withdrawal, f: WithdrawFaults): Result {
    var stored := Storable(w, row.account, row.reais, row.usdc);
    if !stored || f.insert != Succeeded then
      Result(w.(ledger := w.ledger + Refunded(row.account, row.reais, f),
                withdrawals := w.withdrawals + (if stored && f.insert == Unconfirmed then [row] else [])),
             Some(StoreFailed))
    else if row.usdc > manualReviewOver then
      Result(w.(withdrawals := w.withdrawals + [row]), Some(ManualReview))
    else
      var s := Settle(row, f);
      Result(w.(ledger := w.ledger + (if s.refunded then Refunded(row.account, row.reais, f) else []),
                withdrawals := w.withdrawals + [s.row]),
             s.error)
  }

  /** Go's unary minus. */
  function Negated(x: int): int64 { Wrap(-x) }

  function Debited(w: Wallet, account: AccountId, reais: int64, f: WithdrawFaults): Wallet {
    if Applied(f.debit) then w.(ledger := w.ledger + [Adjustment(account, Negated(reais), Debit)]) else w
  }

  function Withdraw(w: Wallet, rate: int64, limits: Limits, account: AccountId, dest: string, reais: int64,
      f: WithdrawFaults): Result
    requires rate > 0
  {
    var usdc := ToMicroUsdc(reais, rate);
    if usdc < limits.min then Result(w, Some(AmountBelowMin))
    else if usdc > limits.max then Result(w, Some(AmountAboveMax))
    else if f.debit != Succeeded then
      Result(Debited(w, account, reais, f), Some(if f.debit == Refused then InsufficientBalance else LedgerFailed))
    else
      var row := Withdrawal(account, dest, reais, usdc, Requested, None);
      Place(Debited(w, account, reais, f), limits.manualReviewOver, row, f)
  }

  // ------------------------------------------------------- addresses and the faucet

  const TWO_TO_32 := 0x1_0000_0000

  /** `uint32(idx)` of a value drawn from the sequence. */
  function Truncated(drawn: nat): (index: nat)
    ensures index < TWO_TO_32
  {
    drawn % TWO_TO_32
  }

  datatype ProvisionFaults = ProvisionFaults(lookup: bool, next: Outcome, ata: Option<string>, insert: Outcome,
      relookup: bool)

  datatype Provisioned = Provisioned(wallet: Wallet, row: Option<Address>, error: Option<WalletError>)

  /** The UNIQUE columns accept this row. */
  predicate Unused(addresses: map<AccountId, Address>, row: Address) {
    && row.account !in addresses
    && forall a :: a in addresses ==> addresses[a].index != row.index && addresses[a].address != row.address
  }

  /** ProvisionAccount; `derive` is the key derivation, index to address. */
  function Provision(w: Wallet, derive: nat -> string, account: AccountId, f: ProvisionFaults): Provisioned {
    if !f.lookup then Provisioned(w, None, Some(StoreFailed))
    else if account in w.addresses then Provisioned(w, Some(w.addresses[account]), None)
    else if !Applied(f.next) then Provisioned(w, None, Some(StoreFailed))
    else
      var drawn := w.(sequence := w.sequence + 1);
      if f.next == Unconfirmed then Provisioned(drawn, None, Some(StoreFailed))
      else if f.ata.None? then Provisioned(drawn, None, Some(ChainFailed))
      else
        var index := Truncated(drawn.sequence);
        var row := Address(account, index, derive(index), f.ata.value);
        if !Unused(w.addresses, row) || !Applied(f.insert) then Provisioned(drawn, None, Some(StoreFailed))
        else
          var stored := drawn.(addresses := w.addresses[account := row]);
          if f.insert == Succeeded || f.relookup then Provisioned(stored, Some(row), None)
          else Provisioned(stored, None, Some(StoreFailed))
  }

  datatype FaucetFaults = FaucetFaults(claim: Outcome, transfer: bool, release: Outcome)

  function Faucet(w: Wallet, derive: nat -> string, account: AccountId, p: ProvisionFaults, f: FaucetFaults): Result {
    var provisioned := Provision(w, derive, account, p);
    var v := provisioned.wallet;
    if provisioned.row.None? then Result(v, provisioned.error)
    else if !Applied(f.claim) then Result(v, Some(StoreFailed))
    else if account in v.claims then Result(v, Some(if f.claim == Succeeded then FaucetAlreadyClaimed else StoreFailed))
    else if f.claim == Unconfirmed then Result(v.(claims := v.claims + {account}), Some(StoreFailed))
    else if f.transfer then Result(v.(claims := v.claims + {account}), None)
    else Result(if Applied(f.release) then v else v.(claims := v.claims + {account}), Some(ChainFailed))
  }

  // ---------------------------------------------------- the ledger and the tables

  /** Accounts are selected by a predicate: one of them, all of them, any group. */
  type Selection = AccountId -> bool

  function Everyone(): Selection { (b: AccountId) => true }

  function Of(p: Selection): Adjustment -> int {
    (x: Adjustment) => if p(x.account) then x.delta else 0
  }

  /** Net change of the selected accounts' balances by this service. */
  function Net(w: Wallet, p: Selection): int { Total(w.ledger, Of(p)) }

  function CreditedTo(p: Selection): Deposit -> int {
    (d: Deposit) => if p(d.account) && d.status == Credited then d.creditedReais else 0
  }

  function WithdrawnBy(p: Selection): Withdrawal -> int {
    (x: Withdrawal) => if p(x.account) && x.status != Failed then x.reais else 0
  }

  /** What the stored rows say the ledger should have moved. */
  function Booked(w: Wallet, p: Selection): int {
    Total(w.deposits, CreditedTo(p)) - Total(w.withdrawals, WithdrawnBy(p))
  }

  /** How far the ledger has drifted from the stored rows. */
  function Gap(w: Wallet, p: Selection): int { Net(w, p) - Booked(w, p) }

  lemma {:induction false} TotalOne<T>(s: seq<T>, more: seq<T>, f: T -> int)
    requires |more| <= 1
    ensures Total(s + more, f) == Total(s, f) + (if |more| == 1 then f(more[0]) else 0)
  {
    if |more| == 1 {
      assert more == [more[0]];
      TotalAppend(s, more[0], f);
    } else {
      assert s + more == s;
    }
  }

  /** What an ingestion does to the gap: the ledger's share minus the row's. */
  lemma IngestGap(w: Wallet, rate: int64, account: AccountId, d: Incoming, f: IngestFaults,
      p: Selection)
    ensures Gap(Ingest(w, rate, account, d, f).wallet, p) ==
      Gap(w, p) +
      (if p(account) && Ingests(w, account, d, f) && CreditAmount(d, f).Some? then
         (if Applied(f.ledger) then ToReais(CreditAmount(d, f).value, rate) else 0)
         - (if IngestedRow(rate, account, d, f).status == Credited then ToReais(CreditAmount(d, f).value, rate) else 0)
       else 0)
  {
    hide Wrap, ToReais, Total, Insertable;
    TotalOne(w.deposits, [IngestedRow(rate, account, d, f)], CreditedTo(p));
    TotalOne(w.deposits, [NewDeposit(account, d)], CreditedTo(p));
    TotalOne(w.ledger, IngestAdjustments(rate, account, d, f), Of(p));
  }

  /** The withdrawal's row, if one is stored, and whether the debit was refunded. */
  function PlacedRows(w: Wallet, manualReviewOver: int64, row: Withdrawal, f: WithdrawFaults): seq<Withdrawal> {
    if !Storable(w, row.account, row.reais, row.usdc) || !Applied(f.insert) then []
    else if f.insert == Unconfirmed || row.usdc > manualReviewOver then [row]
    else [Settle(row, f).row]
  }

  predicate HandsBack(w: Wallet, manualReviewOver: int64, row: Withdrawal, f: WithdrawFaults) {
    if !Storable(w, row.account, row.reais, row.usdc) || f.insert != Succeeded then true
    else row.usdc <= manualReviewOver && Settle(row, f).refunded
  }

  lemma PlaceGap(w: Wallet, over: int64, row: Withdrawal, f: WithdrawFaults, p: Selection)
    ensures Gap(Place(w, over, row, f).wallet, p) ==
      Gap(w, p)
      + (if p(row.account) && HandsBack(w, over, row, f) && Applied(f.refund) then row.reais else 0)
      + (if |PlacedRows(w, over, row, f)| == 1 then WithdrawnBy(p)(PlacedRows(w, over, row, f)[0]) else 0)
  {
    hide Total, Settle, Storable;
    var after := Place(w, over, row, f).wallet;
    var refund := if HandsBack(w, over, row, f) then Refunded(row.account, row.reais, f) else [];
    assert w.ledger + [] == w.ledger && w.withdrawals + [] == w.withdrawals;
    assert after.ledger == w.ledger + refund;
    assert after.withdrawals == w.withdrawals + PlacedRows(w, over, row, f);
    TotalOne(w.ledger, refund, Of(p));
    TotalOne(w.withdrawals, PlacedRows(w, over, row, f), WithdrawnBy(p));
  }

  // ------------------------------------------------------- when the books balance

  /** A failed ledger call had no effect, and a successful credit reached the row. */
  predicate IngestBalances(rate: int64, d: Incoming, f: IngestFaults) {
    CreditAmount(d, f).Some? && ToReais(CreditAmount(d, f).value, rate) != 0 ==>
      && f.ledger != Unconfirmed
      && (f.ledger == Succeeded ==>
            Recordable(CreditAmount(d, f).value, ToReais(CreditAmount(d, f).value, rate)) && Applied(f.credited))
  }

  /** An ingestion keeps ledger and rows together if and only if those two hold. */
  lemma IngestKeepsGapIff(w: Wallet, rate: int64, account: AccountId, d: Incoming, f: IngestFaults,
      p: Selection)
    requires p(account)
    ensures Gap(Ingest(w, rate, account, d, f).wallet, p) == Gap(w, p) <==>
      (Ingests(w, account, d, f) ==> IngestBalances(rate, d, f))
  {
    hide Wrap, ToReais, Gap, Ingests, Ingest;
    IngestGap(w, rate, account, d, f, p);
  }

  lemma IngestKeepsOthers(w: Wallet, rate: int64, account: AccountId, d: Incoming,
      f: IngestFaults, p: Selection)
    requires !p(account)
    ensures Gap(Ingest(w, rate, account, d, f).wallet, p) == Gap(w, p)
  {
    hide *;
    IngestGap(w, rate, account, d, f, p);
  }

  /** A chain call before or after the send made the service give up. */
  predicate GivesUp(f: WithdrawFaults) {
    !f.ata || !f.transfer || (f.sent == Succeeded && !f.confirm)
  }

  /** The debit was carried out exactly when it was reported. After that, with no row
      stored it is handed back; with a row stored behind an error it is not; and
      where the service gives up, it is handed back if and only if the row is marked
      as failed. */
  predicate WithdrawBalances(w: Wallet, limits: Limits, row: Withdrawal, f: WithdrawFaults) {
    && f.debit != Unconfirmed
    && (f.debit == Succeeded ==>
          if !Storable(w, row.account, row.reais, row.usdc) || !Applied(f.insert) then Applied(f.refund)
          else if f.insert == Unconfirmed then !Applied(f.refund)
          else row.usdc <= limits.manualReviewOver && GivesUp(f) ==> (Applied(f.refund) <==> Applied(f.failed)))
  }

  /** That is: what was debited either stands in a live row or was handed back. */
  lemma BalancesIs(w: Wallet, limits: Limits, row: Withdrawal, f: WithdrawFaults)
    requires row.status == Requested
    ensures var rows := PlacedRows(w, limits.manualReviewOver, row, f);
      WithdrawBalances(w, limits, row, f) <==>
        && f.debit != Unconfirmed
        && (f.debit == Succeeded ==>
              (HandsBack(w, limits.manualReviewOver, row, f) && Applied(f.refund) <==>
                 |rows| == 0 || rows[0].status == Failed))
  {
  }

  lemma DebitGap(w: Wallet, account: AccountId, reais: int64, f: WithdrawFaults, p: Selection)
    ensures Gap(Debited(w, account, reais, f), p) ==
      Gap(w, p) + (if p(account) && Applied(f.debit) then Negated(reais) else 0)
  {
    hide Wrap, Total;
    TotalOne(w.ledger, if Applied(f.debit) then [Adjustment(account, Negated(reais), Debit)] else [], Of(p));
    assert w.ledger + [] == w.ledger;
  }

  lemma PlacedRow(w: Wallet, over: int64, row: Withdrawal, f: WithdrawFaults)
    ensures |PlacedRows(w, over, row, f)| <= 1
    ensures |PlacedRows(w, over, row, f)| == 1 ==>
      PlacedRows(w, over, row, f)[0].account == row.account && PlacedRows(w, over, row, f)[0].reais == row.reais
      && PlacedRows(w, over, row, f)[0].usdc == row.usdc && PlacedRows(w, over, row, f)[0].dest == row.dest
  {
  }

  /** A withdrawal past the limits keeps ledger and rows together if and only if
      its faults balance - and it is not of the one amount that int64 cannot negate. */
  lemma WithdrawKeepsGapIff(w: Wallet, rate: int64, limits: Limits, account: AccountId,
      dest: string, reais: int64, f: WithdrawFaults, p: Selection)
    requires p(account) && rate > 0 && limits.min <= ToMicroUsdc(reais, rate) <= limits.max
    ensures var row := Withdrawal(account, dest, reais, ToMicroUsdc(reais, rate), Requested, None);
      Gap(Withdraw(w, rate, limits, account, dest, reais, f).wallet, p) == Gap(w, p) <==>
        reais == 0 || (WithdrawBalances(w, limits, row, f) && (reais == MIN ==> !Applied(f.debit)))
  {
    hide Wrap, ToMicroUsdc, Gap, Place, PlacedRows, HandsBack;
    var row := Withdrawal(account, dest, reais, ToMicroUsdc(reais, rate), Requested, None);
    var debited := Debited(w, account, reais, f);
    DebitGap(w, account, reais, f, p);
    NegatedIs(reais);
    PlaceGap(debited, limits.manualReviewOver, row, f, p);
    PlacedRow(w, limits.manualReviewOver, row, f);
    SamePlacement(w, debited, limits.manualReviewOver, row, f);
    BalancesIs(w, limits, row, f);
  }

  lemma NegatedIs(x: int)
    requires MIN <= x <= MAX
    ensures Negated(x) == if x == MIN then MIN else -x
  {
    WrapUnique(-x, if x == MIN then MIN else -x);
  }

  /** Placement reads the addresses only. */
  lemma SamePlacement(w: Wallet, v: Wallet, over: int64, row: Withdrawal, f: WithdrawFaults)
    requires v.addresses == w.addresses
    ensures PlacedRows(v, over, row, f) == PlacedRows(w, over, row, f)
    ensures HandsBack(v, over, row, f) == HandsBack(w, over, row, f)
  {
    hide Settle;
  }

  /** The case that breaks it most easily: the row is stored although its INSERT
      reports an error, so the debit is handed back while the row stays live. */
  lemma StoredYetRefunded(w: Wallet, rate: int64, limits: Limits, account: AccountId, dest: string,
      reais: int64, f: WithdrawFaults, p: Selection)
    requires p(account) && rate > 0 && reais >= 0 && account in w.addresses
    requires 0 < ToMicroUsdc(reais, rate) && limits.min <= ToMicroUsdc(reais, rate) <= limits.max
    requires f.debit == Succeeded && f.insert == Unconfirmed && Applied(f.refund)
    ensures var after, row := Withdraw(w, rate, limits, account, dest, reais, f).wallet,
        Withdrawal(account, dest, reais, ToMicroUsdc(reais, rate), Requested, None);
      && after.withdrawals == w.withdrawals + [row]
      && Net(after, p) == Net(w, p) && Gap(after, p) == Gap(w, p) + reais
  {
    hide Wrap, ToMicroUsdc, Gap, Net;
    var row := Withdrawal(account, dest, reais, ToMicroUsdc(reais, rate), Requested, None);
    var debited := Debited(w, account, reais, f);
    DebitGap(w, account, reais, f, p);
    NegatedIs(reais);
    PlaceGap(debited, limits.manualReviewOver, row, f, p);
    DebitAndRefund(w.ledger, account, reais, p);
    assert debited.ledger == w.ledger + [Adjustment(account, Negated(reais), Debit)];
    assert Withdraw(w, rate, limits, account, dest, reais, f).wallet.ledger ==
      debited.ledger + [Adjustment(account, reais, Refund)];
    NetIs(w, p);
    NetIs(Withdraw(w, rate, limits, account, dest, reais, f).wallet, p);
  }

  lemma NetIs(w: Wallet, p: Selection)
    ensures Net(w, p) == Total(w.ledger, Of(p))
  {
  }

  lemma {:induction false} DebitAndRefund(ledger: seq<Adjustment>, account: AccountId, reais: int64, p: Selection)
    requires reais >= 0
    ensures var debit, refund := Adjustment(account, Negated(reais), Debit), Adjustment(account, reais, Refund);
      Total(ledger + [debit] + [refund], Of(p)) == Total(ledger, Of(p))
  {
    hide Wrap, Total;
    NegatedIs(reais);
    TotalAppend(ledger, Adjustment(account, Negated(reais), Debit), Of(p));
    TotalAppend(ledger + [Adjustment(account, Negated(reais), Debit)], Adjustment(account, reais, Refund), Of(p));
  }

  /** Failed ledger calls without effect, a failed INSERT without effect, terminal
      writes and the refund carried out: then any withdrawal balances, whatever the
      chain does. */
  predicate CleanWithdraw(f: WithdrawFaults) {
    f.debit != Unconfirmed && f.insert != Unconfirmed && Applied(f.failed) && Applied(f.refund)
  }

  lemma CleanWithdrawBalances(w: Wallet, limits: Limits, row: Withdrawal, f: WithdrawFaults)
    requires CleanWithdraw(f) && row.status == Requested
    ensures WithdrawBalances(w, limits, row, f)
  {
  }

  // ------------------------------------------------------------- the faucet's claims

  /** The claim just taken is released, its send having failed. */
  predicate GivesBack(f: FaucetFaults) { f.claim == Succeeded && !f.transfer && Applied(f.release) }

  /** A grant needs a claim nobody had; a call releases only the claim it took
      itself, and only after its send failed. */
  lemma FaucetClaims(w: Wallet, derive: nat -> string, account: AccountId, p: ProvisionFaults,
      f: FaucetFaults)
    ensures var r := Faucet(w, derive, account, p, f);
      var known := Provision(w, derive, account, p).row.Some?;
      var claimed := known && account !in w.claims && Applied(f.claim);
      && (r.error.None? <==> claimed && f.claim == Succeeded && f.transfer)
      && (r.error == Some(FaucetAlreadyClaimed) <==> known && account in w.claims && f.claim == Succeeded)
      && r.wallet.claims ==
           (if claimed && !GivesBack(f) then w.claims + {account} else w.claims)
  {
    ProvisionKeepsClaims(w, derive, account, p);
    hide Provision;
  }

  lemma ProvisionKeepsClaims(w: Wallet, derive: nat -> string, account: AccountId, p: ProvisionFaults)
    ensures var r := Provision(w, derive, account, p);
      r.wallet.claims == w.claims && (r.row.Some? <==> r.error.None?) && r.error != Some(FaucetAlreadyClaimed)
  {
  }
}
