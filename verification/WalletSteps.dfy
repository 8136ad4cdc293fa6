/** Scans and withdrawals interleaved call by call: each statement, ledger call or
    chain call of each of them is one step, and any of them can fail. */
module WalletSteps {
  import opened Int64
  import opened Sums
  import opened Wrappers
  import opened Conversion
  import opened Wallet
  import opened Poller
  import opened WalletBackend

  /** A scan of one address: the cursor it read, the transfers the scanner returned,
      and how many of them have been ingested. */
  datatype Scan = Scan(address: Address, cursor: Signature, found: seq<Incoming>, newCursor: Signature, n: nat)

  /** The call a scan makes next. */
  datatype ScanStage =
    | ReadCursor
    | Fetch
    | Record
    | MarkSwapping
    | ReadAddress
    | Swap
    | Credit(usdc: int64)
    | MarkCredited(usdc: int64, reais: int64)
    | Park
    | Advance
    | ScanOver

  datatype Payout = Payout(account: AccountId, dest: string, reais: int64)

  /** The call a withdrawal makes next; `id` is its row. */
  datatype PayStage =
    | TakeDebit
    | StoreRow
    | MarkSigning(id: nat)
    | EnsureAta(id: nat)
    | Send(id: nat)
    | MarkSent(id: nat)
    | Confirm(id: nat)
    | MarkConfirmed(id: nat)
    | MarkFailed(id: nat)
    | GiveBack
    | PayOver

  datatype Task = Scanning(scan: Scan, stage: ScanStage) | Paying(pay: Payout, step: PayStage)

  datatype Sys = Sys(wallet: Wallet, tasks: seq<Task>)

  const INITIAL := Sys(EMPTY, [])

  /** What came of a call, and what it returned when it succeeded. */
  datatype Answer = Answer(outcome: Outcome, found: seq<Incoming>, newCursor: Signature, swapped: nat,
      signature: Signature)

  datatype Move = Move(wallet: Wallet, task: Task)

  /** To the next transfer, or past the last one to the cursor. */
  function Onward(scan: Scan): Task {
    if scan.n < |scan.found| then Scanning(scan, Record)
    else if scan.newCursor != "" && scan.newCursor != scan.cursor then Scanning(scan, Advance)
    else Scanning(scan, ScanOver)
  }

  function Update(w: Wallet, s: Signature, change: Deposit -> Deposit, o: Outcome): Wallet {
    if Applied(o) then w.(deposits := Where(w.deposits, s, change)) else w
  }

  function Ledgered(w: Wallet, account: AccountId, delta: int, cause: Cause, o: Outcome): Wallet {
    if Applied(o) then w.(ledger := w.ledger + [Adjustment(account, delta, cause)]) else w
  }

  /** InsertDepositIfNew of the transfer at hand. */
  function RecordNext(w: Wallet, scan: Scan, o: Outcome): Move
    requires scan.n < |scan.found|
  {
    var d, over := scan.found[scan.n], Scanning(scan, ScanOver);
    if !Insertable(d) || !Applied(o) then Move(w, over)
    else if Seen(w.deposits, d.signature) then Move(w, if o == Succeeded then Onward(scan.(n := scan.n + 1)) else over)
    else if scan.address.account !in w.addresses then Move(w, over)
    else
      Move(w.(deposits := w.deposits + [NewDeposit(scan.address.account, d)]),
           if o != Succeeded then over
           else Scanning(scan, if d.asset == USDC then Credit(Wrap(d.rawAmount)) else MarkSwapping))
  }

  /** The calls that follow it when the transfer was new. */
  function IngestNext(w: Wallet, rate: int64, scan: Scan, stage: ScanStage, a: Answer): Move
    requires scan.n < |scan.found|
  {
    var s, o, account := scan.found[scan.n].signature, a.outcome, scan.address.account;
    match stage
    case MarkSwapping =>
      Move(Update(w, s, ToStatus(Swapping), o), Scanning(scan, if o == Succeeded then ReadAddress else Park))
    case ReadAddress => Move(w, Scanning(scan, if o == Succeeded then Swap else Park))
    case Swap => Move(w, Scanning(scan, if o == Succeeded then Credit(Wrap(a.swapped)) else Park))
    case Credit(usdc) =>
      var reais := ToReais(usdc, rate);
      Move(Ledgered(w, account, reais, DepositOf(s), o),
           Scanning(scan, if o == Succeeded then MarkCredited(usdc, reais) else Park))
    case MarkCredited(usdc, reais) =>
      if !Recordable(usdc, reais) then Move(w, Scanning(scan, ScanOver))
      else
        Move(Update(w, s, ToCredited(usdc, reais), o),
             if o == Succeeded then Onward(scan.(n := scan.n + 1)) else Scanning(scan, ScanOver))
    case Park => Move(Update(w, s, ToStatus(Parked), o), Scanning(scan, ScanOver))
    case _ => Move(w, Scanning(scan, stage))
  }

  function ScanNext(w: Wallet, rate: int64, scan: Scan, stage: ScanStage, a: Answer): (move: Move)
    ensures move.task.Scanning?
  {
    match stage
    case ReadCursor =>
      if a.outcome == Succeeded then Move(w, Scanning(scan.(cursor := CursorOf(w, scan.address.address)), Fetch))
      else Move(w, Scanning(scan, ScanOver))
    case Fetch =>
      if a.outcome == Succeeded then Move(w, Onward(scan.(found := a.found, newCursor := a.newCursor, n := 0)))
      else Move(w, Scanning(scan, ScanOver))
    case Advance =>
      Move(if Applied(a.outcome) then w.(cursors := w.cursors[scan.address.address := scan.newCursor]) else w,
           Scanning(scan, ScanOver))
    case ScanOver => Move(w, Scanning(scan, stage))
    case _ =>
      if scan.n >= |scan.found| then Move(w, Scanning(scan, ScanOver))
      else if stage.Record? then RecordNext(w, scan, a.outcome)
      else IngestNext(w, rate, scan, stage, a)
  }

  /** One UPDATE of a withdrawal's row. */
  function SetRow(w: Wallet, id: nat, change: Withdrawal -> Withdrawal, o: Outcome): Wallet {
    if id < |w.withdrawals| && Applied(o) then w.(withdrawals := w.withdrawals[id := change(w.withdrawals[id])]) else w
  }

  function PayStatus(status: WithdrawalStatus): Withdrawal -> Withdrawal {
    (x: Withdrawal) => x.(status := status)
  }

  function PaySent(signature: Signature): Withdrawal -> Withdrawal {
    (x: Withdrawal) => x.(status := Sent, signature := Some(signature))
  }

  function RowFor(pay: Payout, rate: int64): Withdrawal
    requires rate > 0
  {
    Withdrawal(pay.account, pay.dest, pay.reais, ToMicroUsdc(pay.reais, rate), Requested, None)
  }

  /** Debit, then record. */
  function RequestNext(w: Wallet, config: Config, pay: Payout, step: PayStage, o: Outcome): Move
    requires config.rate > 0
  {
    var row := RowFor(pay, config.rate);
    if step.TakeDebit? then
      if row.usdc < config.limits.min || row.usdc > config.limits.max then Move(w, Paying(pay, PayOver))
      else
        Move(Ledgered(w, pay.account, Negated(pay.reais), Debit, o),
             Paying(pay, if o == Succeeded then StoreRow else PayOver))
    else if !Storable(w, row.account, row.reais, row.usdc) || !Applied(o) then Move(w, Paying(pay, GiveBack))
    else
      Move(w.(withdrawals := w.withdrawals + [row]),
           Paying(pay, if o != Succeeded then GiveBack
                       else if row.usdc > config.limits.manualReviewOver then PayOver
                       else MarkSigning(|w.withdrawals|)))
  }

  /** Sign, send, confirm; or mark as failed and hand the debit back. */
  function SettleNext(w: Wallet, pay: Payout, step: PayStage, a: Answer): Move {
    var o := a.outcome;
    match step
    case MarkSigning(id) => Move(SetRow(w, id, PayStatus(Signing), o), Paying(pay, EnsureAta(id)))
    case EnsureAta(id) => Move(w, Paying(pay, if o == Succeeded then Send(id) else MarkFailed(id)))
    case Send(id) => Move(w, Paying(pay, if o == Succeeded then MarkSent(id) else MarkFailed(id)))
    case MarkSent(id) =>
      Move(SetRow(w, id, PaySent(a.signature), o), Paying(pay, if o == Succeeded then Confirm(id) else PayOver))
    case Confirm(id) => Move(w, Paying(pay, if o == Succeeded then MarkConfirmed(id) else MarkFailed(id)))
    case MarkConfirmed(id) => Move(SetRow(w, id, PayStatus(Confirmed), o), Paying(pay, PayOver))
    case MarkFailed(id) => Move(SetRow(w, id, PayStatus(Failed), o), Paying(pay, GiveBack))
    case GiveBack => Move(Ledgered(w, pay.account, pay.reais, Refund, o), Paying(pay, PayOver))
    case _ => Move(w, Paying(pay, step))
  }

  /** The next call of a scan or a withdrawal. */
  function Next(w: Wallet, config: Config, t: Task, a: Answer): Move
    requires config.rate > 0
  {
    match t
    case Scanning(scan, stage) => ScanNext(w, config.rate, scan, stage, a)
    case Paying(pay, step) =>
      if step.TakeDebit? || step.StoreRow? then RequestNext(w, config, pay, step, a.outcome)
      else SettleNext(w, pay, step, a)
  }

  /** A poller starts scanning an address, a user asks for a withdrawal, an account is
      provisioned, or some task makes its next call. */
  datatype Event =
    | BeginScan(address: Address)
    | BeginPay(pay: Payout)
    | Provide(row: Address)
    | Call(i: nat, answer: Answer)

  function Step(s: Sys, config: Config, e: Event): Sys
    requires config.rate > 0
  {
    match e
    case BeginScan(address) => s.(tasks := s.tasks + [Scanning(Scan(address, "", [], "", 0), ReadCursor)])
    case BeginPay(pay) => s.(tasks := s.tasks + [Paying(pay, TakeDebit)])
    case Provide(row) =>
      if row.account in s.wallet.addresses then s
      else s.(wallet := s.wallet.(addresses := s.wallet.addresses[row.account := row]))
    case Call(i, a) =>
      if i >= |s.tasks| then s
      else
        var move := Next(s.wallet, config, s.tasks[i], a);
        Sys(move.wallet, s.tasks[i := move.task])
  }

  function Execute(config: Config, es: seq<Event>): Sys
    requires config.rate > 0
  {
    if |es| == 0 then INITIAL else Step(Execute(config, es[..|es| - 1]), config, es[|es| - 1])
  }

  // ----------------------------------------------------------- who works on which row

  /** The transfer whose row a scan has inserted and not yet finished with. */
  function Held(t: Task): Option<Incoming> {
    if t.Scanning? && t.scan.n < |t.scan.found| &&
       (t.stage.MarkSwapping? || t.stage.ReadAddress? || t.stage.Swap? || t.stage.Credit? || t.stage.MarkCredited? ||
        t.stage.Park?)
    then Some(t.scan.found[t.scan.n])
    else None
  }

  /** The row that a withdrawal has stored and not yet finished with. */
  function HeldId(t: Task): Option<nat> {
    match t
    case Scanning(_, _) => None
    case Paying(_, MarkSigning(id)) => Some(id)
    case Paying(_, EnsureAta(id)) => Some(id)
    case Paying(_, Send(id)) => Some(id)
    case Paying(_, MarkSent(id)) => Some(id)
    case Paying(_, Confirm(id)) => Some(id)
    case Paying(_, MarkConfirmed(id)) => Some(id)
    case Paying(_, MarkFailed(id)) => Some(id)
    case _ => None
  }

  predicate Distinct(deposits: seq<Deposit>) {
    forall i, j :: 0 <= i < j < |deposits| ==> deposits[i].signature != deposits[j].signature
  }

  predicate Uncredited(deposits: seq<Deposit>, s: Signature, account: AccountId) {
    exists k :: 0 <= k < |deposits| && deposits[k].signature == s && deposits[k].account == account &&
      deposits[k].status != Credited
  }

  /** The row it holds is there, its own, and not in its last state. */
  predicate HoldsRow(w: Wallet, t: Task) {
    && (Held(t).Some? ==> Uncredited(w.deposits, Held(t).value.signature, t.scan.address.account))
    && (HeldId(t).Some? ==>
          && HeldId(t).value < |w.withdrawals|
          && var row := w.withdrawals[HeldId(t).value];
            row.account == t.pay.account && row.reais == t.pay.reais && row.status != Failed)
  }

  predicate Apart(t: Task, other: Task) {
    && (Held(t).Some? && Held(other).Some? ==> Held(t).value.signature != Held(other).value.signature)
    && (HeldId(t).Some? ==> HeldId(t) != HeldId(other))
  }

  /** No two deposits have the same signature, and no two tasks work on one row. */
  predicate RowsOk(s: Sys) {
    && Distinct(s.wallet.deposits)
    && (forall i :: 0 <= i < |s.tasks| ==> HoldsRow(s.wallet, s.tasks[i]))
    && (forall i, j :: 0 <= i < |s.tasks| && 0 <= j < |s.tasks| && i != j ==> Apart(s.tasks[i], s.tasks[j]))
  }

  /** UPDATE ... WHERE signature = s changes the one row that has it. */
  lemma WhereIs(deposits: seq<Deposit>, k: nat, change: Deposit -> Deposit)
    requires Distinct(deposits) && k < |deposits|
    ensures Where(deposits, deposits[k].signature, change) == deposits[k := change(deposits[k])]
  {
  }

  lemma HeldRow(w: Wallet, t: Task) returns (k: nat)
    requires HoldsRow(w, t) && Held(t).Some?
    ensures k < |w.deposits| && w.deposits[k].signature == Held(t).value.signature
    ensures w.deposits[k].account == t.scan.address.account && w.deposits[k].status != Credited
  {
    k :| 0 <= k < |w.deposits| && w.deposits[k].signature == Held(t).value.signature &&
      w.deposits[k].account == t.scan.address.account && w.deposits[k].status != Credited;
  }

  lemma UncreditedIsSeen(deposits: seq<Deposit>, s: Signature, account: AccountId)
    requires Uncredited(deposits, s, account)
    ensures Seen(deposits, s)
  {
  }

  /** A row is untouched while others are appended or changed. */
  lemma StaysUncredited(deposits: seq<Deposit>, after: seq<Deposit>, s: Signature, account: AccountId)
    requires Uncredited(deposits, s, account) && |deposits| <= |after|
    requires forall k :: 0 <= k < |deposits| && deposits[k].signature == s ==> after[k] == deposits[k]
    ensures Uncredited(after, s, account)
  {
    var k :| 0 <= k < |deposits| && deposits[k].signature == s && deposits[k].account == account &&
      deposits[k].status != Credited;
    assert after[k] == deposits[k];
  }

  /** The row just inserted is the scan's own. */
  lemma RecordKeepsRows(w: Wallet, scan: Scan, o: Outcome, other: Task)
    requires scan.n < |scan.found| && Distinct(w.deposits) && HoldsRow(w, other)
    ensures var move := RecordNext(w, scan, o);
      && Distinct(move.wallet.deposits) && HoldsRow(move.wallet, move.task)
      && HoldsRow(move.wallet, other) && Apart(move.task, other) && Apart(other, move.task)
  {
    hide Wrap, Seen, Uncredited;
    var d, account := scan.found[scan.n], scan.address.account;
    if Insertable(d) && Applied(o) && !Seen(w.deposits, d.signature) && account in w.addresses {
      var row := NewDeposit(account, d);
      NewIsUncredited(w.deposits, row);
      if Held(other).Some? {
        UncreditedIsSeen(w.deposits, Held(other).value.signature, other.scan.address.account);
        StaysUncredited(w.deposits, w.deposits + [row], Held(other).value.signature, other.scan.address.account);
      }
    }
  }

  lemma NewIsUncredited(deposits: seq<Deposit>, row: Deposit)
    requires Distinct(deposits) && !Seen(deposits, row.signature) && row.status != Credited
    ensures Distinct(deposits + [row]) && Uncredited(deposits + [row], row.signature, row.account)
  {
    assert (deposits + [row])[|deposits|] == row;
  }

  /** The calls after it change no row but that one, and its credit ends the scan's
      work on it. */
  lemma IngestChanges(w: Wallet, rate: int64, scan: Scan, stage: ScanStage, a: Answer) returns (k: nat, row: Deposit)
    requires scan.n < |scan.found| && Distinct(w.deposits)
    requires HoldsRow(w, Scanning(scan, stage)) && Held(Scanning(scan, stage)).Some?
    ensures var move, s := IngestNext(w, rate, scan, stage, a), scan.found[scan.n].signature;
      && k < |w.deposits| && w.deposits[k].signature == s && move.wallet.deposits == w.deposits[k := row]
      && move.wallet.withdrawals == w.withdrawals && row.signature == s
      && HeldId(move.task).None?
      && (Held(move.task).Some? ==>
            && Held(move.task).value.signature == s && move.task.scan.address == scan.address
            && row.account == scan.address.account && row.status != Credited)
  {
    hide Wrap, ToReais, Where, HoldsRow, Distinct, Onward;
    k := HeldRow(w, Scanning(scan, stage));
    row := w.deposits[k];
    OnwardHoldsNothing(scan.(n := scan.n + 1));
    if stage.MarkSwapping? && Applied(a.outcome) {
      row := row.(status := Swapping);
      WhereIs(w.deposits, k, ToStatus(Swapping));
    } else if stage.Park? && Applied(a.outcome) {
      row := row.(status := Parked);
      WhereIs(w.deposits, k, ToStatus(Parked));
    } else if stage.MarkCredited? && Recordable(stage.usdc, stage.reais) && Applied(a.outcome) {
      row := ToCredited(stage.usdc, stage.reais)(row);
      WhereIs(w.deposits, k, ToCredited(stage.usdc, stage.reais));
    }
  }

  lemma OnwardHoldsNothing(scan: Scan)
    ensures Held(Onward(scan)).None? && HeldId(Onward(scan)).None?
  {
  }

  lemma IngestKeepsRows(w: Wallet, rate: int64, scan: Scan, stage: ScanStage, a: Answer, other: Task)
    requires scan.n < |scan.found| && Distinct(w.deposits)
    requires HoldsRow(w, Scanning(scan, stage)) && HoldsRow(w, other) && Apart(Scanning(scan, stage), other)
    ensures var move := IngestNext(w, rate, scan, stage, a);
      && Distinct(move.wallet.deposits) && HoldsRow(move.wallet, move.task)
      && HoldsRow(move.wallet, other) && Apart(move.task, other) && Apart(other, move.task)
  {
    hide Uncredited, IngestNext;
    if Held(Scanning(scan, stage)).Some? {
      var k, row := IngestChanges(w, rate, scan, stage, a);
      var after := w.deposits[k := row];
      if Held(IngestNext(w, rate, scan, stage, a).task).Some? {
        UncreditedAt(after, k, row.signature, scan.address.account);
      }
      if Held(other).Some? {
        StaysUncredited(w.deposits, after, Held(other).value.signature, other.scan.address.account);
      }
    } else {
      IngestIdles(w, rate, scan, stage, a);
    }
  }

  lemma IngestIdles(w: Wallet, rate: int64, scan: Scan, stage: ScanStage, a: Answer)
    requires scan.n < |scan.found| && Held(Scanning(scan, stage)).None?
    ensures IngestNext(w, rate, scan, stage, a) == Move(w, Scanning(scan, stage))
  {
    hide ToReais;
  }

  lemma UncreditedAt(deposits: seq<Deposit>, k: nat, s: Signature, account: AccountId)
    requires k < |deposits| && deposits[k].signature == s && deposits[k].account == account
    requires deposits[k].status != Credited
    ensures Uncredited(deposits, s, account)
  {
  }

  /** A withdrawal touches its own row and no deposit. */
  lemma RequestKeepsRows(w: Wallet, config: Config, pay: Payout, step: PayStage, o: Outcome, other: Task)
    requires config.rate > 0 && (step.TakeDebit? || step.StoreRow?) && HoldsRow(w, other)
    ensures var move := RequestNext(w, config, pay, step, o);
      && move.wallet.deposits == w.deposits && HoldsRow(move.wallet, move.task)
      && HoldsRow(move.wallet, other) && Apart(move.task, other) && Apart(other, move.task)
  {
    hide Wrap, ToMicroUsdc, Uncredited, Negated;
  }

  lemma SettleKeepsRows(w: Wallet, pay: Payout, step: PayStage, a: Answer, other: Task)
    requires HoldsRow(w, Paying(pay, step)) && HoldsRow(w, other) && Apart(Paying(pay, step), other)
    ensures var move := SettleNext(w, pay, step, a);
      && move.wallet.deposits == w.deposits && HoldsRow(move.wallet, move.task)
      && HoldsRow(move.wallet, other) && Apart(move.task, other) && Apart(other, move.task)
  {
    hide Uncredited;
  }

  lemma NextKeepsRows(w: Wallet, config: Config, t: Task, a: Answer, other: Task)
    requires config.rate > 0 && Distinct(w.deposits) && HoldsRow(w, t) && HoldsRow(w, other) && Apart(t, other)
    ensures var move := Next(w, config, t, a);
      && Distinct(move.wallet.deposits) && HoldsRow(move.wallet, move.task)
      && HoldsRow(move.wallet, other) && Apart(move.task, other) && Apart(other, move.task)
  {
    hide Distinct, Uncredited, RecordNext, IngestNext, RequestNext, SettleNext;
    match t
    case Paying(pay, step) =>
      if step.TakeDebit? || step.StoreRow? {
        RequestKeepsRows(w, config, pay, step, a.outcome, other);
      } else {
        SettleKeepsRows(w, pay, step, a, other);
      }
    case Scanning(scan, stage) =>
      if scan.n < |scan.found| {
        if stage.Record? {
          RecordKeepsRows(w, scan, a.outcome, other);
        } else {
          IngestKeepsRows(w, config.rate, scan, stage, a, other);
        }
      }
  }

  lemma StepKeepsRows(s: Sys, config: Config, e: Event)
    requires config.rate > 0 && RowsOk(s)
    ensures RowsOk(Step(s, config, e))
  {
    hide Distinct, Uncredited, Next;
    if e.Call? && e.i < |s.tasks| {
      var t := s.tasks[e.i];
      forall j | 0 <= j < |s.tasks| && j != e.i
        ensures var move := Next(s.wallet, config, t, e.answer);
          && HoldsRow(move.wallet, s.tasks[j]) && Apart(move.task, s.tasks[j]) && Apart(s.tasks[j], move.task)
      {
        NextKeepsRows(s.wallet, config, t, e.answer, s.tasks[j]);
      }
      NextKeepsRows(s.wallet, config, t, e.answer, Paying(Payout("", "", 0), PayOver));
    }
  }

  lemma {:induction false} ExecuteKeepsRows(config: Config, es: seq<Event>)
    requires config.rate > 0
    ensures RowsOk(Execute(config, es))
  {
    hide Step, RowsOk;
    if |es| > 0 {
      ExecuteKeepsRows(config, es[..|es| - 1]);
      StepKeepsRows(Execute(config, es[..|es| - 1]), config, es[|es| - 1]);
    } else {
      InitialRows();
    }
  }

  lemma InitialRows()
    ensures RowsOk(INITIAL)
  {
  }

  // ------------------------------------------------------------- ledger and tables

  /** What has been moved in the ledger and is still to be entered in a row, or has been
      entered and is still to move. */
  function PendingOf(p: Selection): Task -> int {
    (t: Task) =>
      if t.Scanning? then
        if t.stage.MarkCredited? && Held(t).Some? && p(t.scan.address.account) then t.stage.reais else 0
      else if (t.step.StoreRow? || t.step.GiveBack?) && p(t.pay.account) then 0 - (t.pay.reais as int)
      else 0
  }

  /** What a failing call puts out of balance for good: a credit carried out behind an
      error, or not entered in its row. */
  function ScanStrays(rate: int64, stage: ScanStage, o: Outcome): int {
    match stage
    case Credit(usdc) => if o == Unconfirmed then ToReais(usdc, rate) as int else 0
    case MarkCredited(usdc, reais) => if Recordable(usdc, reais) && Applied(o) then 0 else reais as int
    case _ => 0
  }

  /** A debit carried out behind an error, a row stored behind one, a row that is paid
      back but not marked so, or a debit not handed back. */
  function PayStrays(w: Wallet, limits: Limits, row: Withdrawal, step: PayStage, o: Outcome): int {
    var reais: int := row.reais as int;
    match step
    case TakeDebit =>
      if row.usdc < limits.min || row.usdc > limits.max || !Applied(o) then 0
      else (Negated(row.reais) as int) + (if o == Succeeded then reais else 0)
    case StoreRow => if Storable(w, row.account, row.reais, row.usdc) && o == Unconfirmed then reais else 0
    case MarkFailed(_) => if Applied(o) then 0 else reais
    case GiveBack => if Applied(o) then 0 else 0 - reais
    case _ => 0
  }

  function Strayed(w: Wallet, config: Config, t: Task, a: Answer, p: Selection): int
    requires config.rate > 0
  {
    match t
    case Scanning(scan, stage) =>
      if Held(t).Some? && p(scan.address.account) then ScanStrays(config.rate, stage, a.outcome) else 0
    case Paying(pay, step) =>
      if p(pay.account) then PayStrays(w, config.limits, RowFor(pay, config.rate), step, a.outcome) else 0
  }

  lemma LedgeredGap(w: Wallet, account: AccountId, delta: int, cause: Cause, o: Outcome, p: Selection)
    ensures Gap(Ledgered(w, account, delta, cause, o), p) ==
      Gap(w, p) + (if p(account) && Applied(o) then delta else 0)
  {
    hide Total;
    TotalOne(w.ledger, if Applied(o) then [Adjustment(account, delta, cause)] else [], Of(p));
    assert w.ledger + [] == w.ledger;
  }

  lemma DepositGap(w: Wallet, deposits: seq<Deposit>, p: Selection)
    ensures Gap(w.(deposits := deposits), p) ==
      Gap(w, p) + Total(w.deposits, CreditedTo(p)) - Total(deposits, CreditedTo(p))
  {
    hide Total;
  }

  lemma WithdrawalGap(w: Wallet, withdrawals: seq<Withdrawal>, p: Selection)
    ensures Gap(w.(withdrawals := withdrawals), p) ==
      Gap(w, p) - Total(w.withdrawals, WithdrawnBy(p)) + Total(withdrawals, WithdrawnBy(p))
  {
    hide Total;
  }

  lemma RecordGap(w: Wallet, scan: Scan, o: Outcome, p: Selection)
    requires scan.n < |scan.found|
    ensures Gap(RecordNext(w, scan, o).wallet, p) == Gap(w, p) && PendingOf(p)(RecordNext(w, scan, o).task) == 0
  {
    hide Wrap, Total, Seen, Gap;
    var row := NewDeposit(scan.address.account, scan.found[scan.n]);
    DepositGap(w, w.deposits + [row], p);
    TotalAppend(w.deposits, row, CreditedTo(p));
  }

  lemma IngestStepGap(w: Wallet, config: Config, scan: Scan, stage: ScanStage, a: Answer, p: Selection)
    requires config.rate > 0 && scan.n < |scan.found| && Distinct(w.deposits) && HoldsRow(w, Scanning(scan, stage))
    ensures var t, move := Scanning(scan, stage), IngestNext(w, config.rate, scan, stage, a);
      Gap(move.wallet, p) - PendingOf(p)(move.task) == Gap(w, p) - PendingOf(p)(t) + Strayed(w, config, t, a, p)
  {
    hide Wrap, ToReais, Total, Where, Gap, Distinct, HoldsRow;
    var t := Scanning(scan, stage);
    if Held(t).Some? {
      var k := HeldRow(w, t);
      if stage.Credit? {
        LedgeredGap(w, scan.address.account, ToReais(stage.usdc, config.rate), DepositOf(scan.found[scan.n].signature),
                    a.outcome, p);
      } else if stage.MarkCredited? {
        UpdateGap(w, k, ToCredited(stage.usdc, stage.reais), p);
      } else if stage.MarkSwapping? {
        UpdateGap(w, k, ToStatus(Swapping), p);
      } else if stage.Park? {
        UpdateGap(w, k, ToStatus(Parked), p);
      }
    }
  }

  lemma UpdateGap(w: Wallet, k: nat, change: Deposit -> Deposit, p: Selection)
    requires Distinct(w.deposits) && k < |w.deposits|
    ensures Gap(w.(deposits := Where(w.deposits, w.deposits[k].signature, change)), p) ==
      Gap(w, p) + CreditedTo(p)(w.deposits[k]) - CreditedTo(p)(change(w.deposits[k]))
  {
    hide Total, Gap, Where, CreditedTo;
    WhereIs(w.deposits, k, change);
    DepositGap(w, w.deposits[k := change(w.deposits[k])], p);
    TotalUpdate(w.deposits, k, change(w.deposits[k]), CreditedTo(p));
  }

  lemma SetRowGap(w: Wallet, id: nat, change: Withdrawal -> Withdrawal, o: Outcome, p: Selection)
    requires id < |w.withdrawals|
    ensures Gap(SetRow(w, id, change, o), p) ==
      Gap(w, p)
      + (if Applied(o) then WithdrawnBy(p)(change(w.withdrawals[id])) - WithdrawnBy(p)(w.withdrawals[id]) else 0)
  {
    hide Total, Gap, WithdrawnBy;
    WithdrawalGap(w, w.withdrawals[id := change(w.withdrawals[id])], p);
    TotalUpdate(w.withdrawals, id, change(w.withdrawals[id]), WithdrawnBy(p));
  }

  lemma RequestGap(w: Wallet, config: Config, pay: Payout, step: PayStage, a: Answer, p: Selection)
    requires config.rate > 0 && (step.TakeDebit? || step.StoreRow?)
    ensures var t, move := Paying(pay, step), RequestNext(w, config, pay, step, a.outcome);
      Gap(move.wallet, p) - PendingOf(p)(move.task) == Gap(w, p) - PendingOf(p)(t) + Strayed(w, config, t, a, p)
  {
    hide Wrap, ToMicroUsdc, Total, Gap, Negated;
    var row := RowFor(pay, config.rate);
    LedgeredGap(w, pay.account, Negated(pay.reais), Debit, a.outcome, p);
    WithdrawalGap(w, w.withdrawals + [row], p);
    TotalAppend(w.withdrawals, row, WithdrawnBy(p));
  }

  lemma SettleGap(w: Wallet, config: Config, pay: Payout, step: PayStage, a: Answer, p: Selection)
    requires config.rate > 0 && !step.TakeDebit? && !step.StoreRow? && HoldsRow(w, Paying(pay, step))
    ensures var t, move := Paying(pay, step), SettleNext(w, pay, step, a);
      Gap(move.wallet, p) - PendingOf(p)(move.task) == Gap(w, p) - PendingOf(p)(t) + Strayed(w, config, t, a, p)
  {
    hide Wrap, ToMicroUsdc, Total, Gap, SetRow;
    match step
    case MarkSigning(id) => SetRowGap(w, id, PayStatus(Signing), a.outcome, p);
    case MarkSent(id) => SetRowGap(w, id, PaySent(a.signature), a.outcome, p);
    case MarkConfirmed(id) => SetRowGap(w, id, PayStatus(Confirmed), a.outcome, p);
    case MarkFailed(id) => SetRowGap(w, id, PayStatus(Failed), a.outcome, p);
    case GiveBack => LedgeredGap(w, pay.account, pay.reais, Refund, a.outcome, p);
    case _ =>
  }

  /** A call moves the ledger, the tables and what is pending together, but for what
      it puts out of balance. */
  lemma NextGap(w: Wallet, config: Config, t: Task, a: Answer, p: Selection)
    requires config.rate > 0 && Distinct(w.deposits) && HoldsRow(w, t)
    ensures var move := Next(w, config, t, a);
      Gap(move.wallet, p) - PendingOf(p)(move.task) == Gap(w, p) - PendingOf(p)(t) + Strayed(w, config, t, a, p)
  {
    hide Distinct, HoldsRow, RecordNext, IngestNext, RequestNext, SettleNext, Gap;
    match t
    case Paying(pay, step) =>
      if step.TakeDebit? || step.StoreRow? {
        RequestGap(w, config, pay, step, a, p);
      } else {
        SettleGap(w, config, pay, step, a, p);
      }
    case Scanning(scan, stage) =>
      if stage.Advance? {
        CursorGap(w, scan, a, p);
      } else if !stage.ReadCursor? && !stage.Fetch? && !stage.ScanOver? && scan.n < |scan.found| {
        if stage.Record? {
          RecordGap(w, scan, a.outcome, p);
        } else {
          IngestStepGap(w, config, scan, stage, a, p);
        }
      }
  }

  lemma CursorGap(w: Wallet, scan: Scan, a: Answer, p: Selection)
    ensures Gap(w.(cursors := w.cursors[scan.address.address := scan.newCursor]), p) == Gap(w, p)
  {
  }

  /** Everything a run's failing calls put out of balance. */
  function StrayedIn(config: Config, es: seq<Event>, p: Selection): int
    requires config.rate > 0
  {
    if |es| == 0 then 0
    else
      var s, e := Execute(config, es[..|es| - 1]), es[|es| - 1];
      StrayedIn(config, es[..|es| - 1], p) +
      (if e.Call? && e.i < |s.tasks| then Strayed(s.wallet, config, s.tasks[e.i], e.answer, p) else 0)
  }

  /** However scans and withdrawals interleave and fail, the ledger is ahead of the
      tables by what is pending, and by what failing calls put out of balance. */
  lemma {:induction false} GapIs(config: Config, es: seq<Event>, p: Selection)
    requires config.rate > 0
    ensures var end := Execute(config, es);
      Gap(end.wallet, p) == Total(end.tasks, PendingOf(p)) + StrayedIn(config, es, p)
  {
    hide Total, Gap, Next, Strayed, RowsOk, PendingOf;
    if |es| > 0 {
      var s, e := Execute(config, es[..|es| - 1]), es[|es| - 1];
      GapIs(config, es[..|es| - 1], p);
      ExecuteKeepsRows(config, es[..|es| - 1]);
      StepGap(s, config, e, p);
    } else {
      InitialGap(p);
    }
  }

  lemma InitialGap(p: Selection)
    ensures Gap(INITIAL.wallet, p) == 0 && Total(INITIAL.tasks, PendingOf(p)) == 0
  {
  }

  lemma StepGap(s: Sys, config: Config, e: Event, p: Selection)
    requires config.rate > 0 && RowsOk(s)
    ensures var after := Step(s, config, e);
      Gap(after.wallet, p) - Total(after.tasks, PendingOf(p)) == Gap(s.wallet, p) - Total(s.tasks, PendingOf(p))
        + (if e.Call? && e.i < |s.tasks| then Strayed(s.wallet, config, s.tasks[e.i], e.answer, p) else 0)
  {
    hide Total, Gap, Next, Strayed, Distinct, HoldsRow, Apart;
    match e
    case BeginScan(address) =>
      TotalAppend(s.tasks, Scanning(Scan(address, "", [], "", 0), ReadCursor), PendingOf(p));
    case BeginPay(pay) => TotalAppend(s.tasks, Paying(pay, TakeDebit), PendingOf(p));
    case Provide(row) => SameBooks(s.wallet, s.wallet.addresses[row.account := row], p);
    case Call(i, a) =>
      if i < |s.tasks| {
        NextGap(s.wallet, config, s.tasks[i], a, p);
        TotalUpdate(s.tasks, i, Next(s.wallet, config, s.tasks[i], a).task, PendingOf(p));
      }
  }

  lemma SameBooks(w: Wallet, addresses: map<AccountId, Address>, p: Selection)
    ensures Gap(w.(addresses := addresses), p) == Gap(w, p)
  {
  }

  predicate Over(t: Task) {
    match t
    case Scanning(_, stage) => stage.ScanOver?
    case Paying(_, step) => step.PayOver?
  }

  /** The outcomes that put nothing out of balance. */
  predicate Harmless(w: Wallet, config: Config, t: Task, a: Answer)
    requires config.rate > 0
  {
    var o := a.outcome;
    match t
    case Scanning(scan, stage) =>
      Held(t).Some? ==>
        && (stage.Credit? ==> o != Unconfirmed || ToReais(stage.usdc, config.rate) == 0)
        && (stage.MarkCredited? ==> (Recordable(stage.usdc, stage.reais) && Applied(o)) || stage.reais == 0)
    case Paying(pay, step) =>
      var row := RowFor(pay, config.rate);
      && (step.TakeDebit? && config.limits.min <= row.usdc <= config.limits.max ==>
            pay.reais == 0 || (o != Unconfirmed && (o == Succeeded ==> pay.reais != MIN)))
      && (step.StoreRow? ==> o != Unconfirmed || !Storable(w, row.account, row.reais, row.usdc) || pay.reais == 0)
      && (step.MarkFailed? || step.GiveBack? ==> Applied(o) || pay.reais == 0)
  }

  /** Exactly those. */
  lemma HarmlessIff(w: Wallet, config: Config, t: Task, a: Answer)
    requires config.rate > 0
    ensures Harmless(w, config, t, a) <==> Strayed(w, config, t, a, Everyone()) == 0
    ensures Harmless(w, config, t, a) ==> forall p :: Strayed(w, config, t, a, p) == 0
  {
    hide Wrap, ToReais, ToMicroUsdc, Negated, Storable;
    if t.Paying? {
      NegatedIs(t.pay.reais);
    }
  }

  ghost predicate AllHarmless(config: Config, es: seq<Event>)
    requires config.rate > 0
  {
    forall n :: 0 <= n < |es| && es[n].Call? ==>
      var s := Execute(config, es[..n]);
      es[n].i < |s.tasks| ==> Harmless(s.wallet, config, s.tasks[es[n].i], es[n].answer)
  }

  lemma {:induction false} NothingStrays(config: Config, es: seq<Event>, p: Selection)
    requires config.rate > 0 && AllHarmless(config, es)
    ensures StrayedIn(config, es, p) == 0
  {
    hide Harmless, Strayed, Step;
    if |es| > 0 {
      var n := |es| - 1;
      var s, e := Execute(config, es[..n]), es[n];
      assert AllHarmless(config, es[..n]) by {
        forall k | 0 <= k < n ensures es[..n][..k] == es[..k] {
        }
      }
      NothingStrays(config, es[..n], p);
      if e.Call? && e.i < |s.tasks| {
        assert Harmless(s.wallet, config, s.tasks[e.i], e.answer);
        HarmlessIff(s.wallet, config, s.tasks[e.i], e.answer);
      }
    }
  }

  lemma {:induction false} NothingPending(tasks: seq<Task>, p: Selection)
    requires forall i :: 0 <= i < |tasks| ==> Over(tasks[i])
    ensures Total(tasks, PendingOf(p)) == 0
  {
    if |tasks| > 0 {
      NothingPending(tasks[..|tasks| - 1], p);
    }
  }

  /** Once nothing is in flight, the books of any accounts balance if and only if what
      failing calls put out of balance cancels - as it does when none put anything. */
  lemma BooksBalanceIff(config: Config, es: seq<Event>, p: Selection)
    requires config.rate > 0
    requires var end := Execute(config, es); forall i :: 0 <= i < |end.tasks| ==> Over(end.tasks[i])
    ensures Gap(Execute(config, es).wallet, p) == 0 <==> StrayedIn(config, es, p) == 0
    ensures AllHarmless(config, es) ==> Gap(Execute(config, es).wallet, p) == 0
  {
    hide Execute, Gap, Total, AllHarmless, StrayedIn, Over;
    GapIs(config, es, p);
    NothingPending(Execute(config, es).tasks, p);
    if AllHarmless(config, es) {
      NothingStrays(config, es, p);
    }
  }

  // ---------------------------------------------------------------- at most one credit

  /** The scan works on this transfer's row and has not asked for its credit. */
  predicate AboutToCredit(t: Task, s: Signature) {
    Held(t).Some? && Held(t).value.signature == s && !t.stage.MarkCredited? && !t.stage.Park?
  }

  predicate CreditedOnce(s: Sys, sig: Signature) {
    && 0 <= CreditCount(s.wallet.ledger, sig) <= (if Seen(s.wallet.deposits, sig) then 1 else 0)
    && forall i :: 0 <= i < |s.tasks| && AboutToCredit(s.tasks[i], sig) ==> CreditCount(s.wallet.ledger, sig) == 0
  }

  lemma LedgeredCount(w: Wallet, account: AccountId, delta: int, cause: Cause, o: Outcome, sig: Signature)
    ensures CreditCount(Ledgered(w, account, delta, cause, o).ledger, sig) ==
      CreditCount(w.ledger, sig) + (if Applied(o) && cause == DepositOf(sig) then 1 else 0)
  {
    hide Total;
    TotalOne(w.ledger, [Adjustment(account, delta, cause)], Credits(sig));
  }

  lemma ScanCounts(w: Wallet, config: Config, t: Task, a: Answer, sig: Signature)
    requires config.rate > 0 && t.Scanning?
    ensures var move := Next(w, config, t, a);
      CreditCount(move.wallet.ledger, sig) ==
        CreditCount(w.ledger, sig) + (if AboutToCredit(t, sig) && t.stage.Credit? && Applied(a.outcome) then 1 else 0)
  {
    hide Wrap, ToReais, CreditCount, Seen, Where, Onward;
    if Held(t).Some? && t.stage.Credit? {
      LedgeredCount(w, t.scan.address.account, ToReais(t.stage.usdc, config.rate),
                    DepositOf(Held(t).value.signature), a.outcome, sig);
    }
  }

  lemma PayCounts(w: Wallet, config: Config, t: Task, a: Answer, sig: Signature)
    requires config.rate > 0 && t.Paying?
    ensures CreditCount(Next(w, config, t, a).wallet.ledger, sig) == CreditCount(w.ledger, sig)
  {
    hide ToMicroUsdc, CreditCount, Negated, Storable;
    LedgeredCount(w, t.pay.account, Negated(t.pay.reais), Debit, a.outcome, sig);
    LedgeredCount(w, t.pay.account, t.pay.reais, Refund, a.outcome, sig);
  }

  /** Only a new row starts on the way to its credit. */
  lemma NextStarts(w: Wallet, config: Config, t: Task, a: Answer, sig: Signature)
    requires config.rate > 0
    ensures AboutToCredit(Next(w, config, t, a).task, sig) ==>
      (AboutToCredit(t, sig) && !t.stage.Credit?) || !Seen(w.deposits, sig)
  {
    hide Wrap, ToReais, ToMicroUsdc, Seen, Negated, Storable, Where;
  }

  /** Only the call for the credit credits. */
  lemma NextCredits(w: Wallet, config: Config, t: Task, a: Answer, sig: Signature)
    requires config.rate > 0 && HoldsRow(w, t)
    ensures var move := Next(w, config, t, a);
      && CreditCount(move.wallet.ledger, sig) ==
           CreditCount(w.ledger, sig)
           + (if AboutToCredit(t, sig) && t.stage.Credit? && Applied(a.outcome) then 1 else 0)
      && (Seen(w.deposits, sig) ==> Seen(move.wallet.deposits, sig))
      && (AboutToCredit(t, sig) ==> Seen(w.deposits, sig))
      && (AboutToCredit(move.task, sig) ==>
            (AboutToCredit(t, sig) && !t.stage.Credit?) || !Seen(w.deposits, sig))
  {
    hide CreditCount, Seen, Next, HoldsRow;
    NextKeepsSeen(w, config, t, a, sig);
    NextStarts(w, config, t, a, sig);
    if AboutToCredit(t, sig) {
      HeldIsSeen(w, t);
    }
    if t.Scanning? {
      ScanCounts(w, config, t, a, sig);
    } else {
      PayCounts(w, config, t, a, sig);
    }
  }

  lemma StillSeen(deposits: seq<Deposit>, after: seq<Deposit>, sig: Signature)
    requires Seen(deposits, sig) && |deposits| <= |after|
    requires forall k :: 0 <= k < |deposits| ==> after[k].signature == deposits[k].signature
    ensures Seen(after, sig)
  {
    var k :| 0 <= k < |deposits| && deposits[k].signature == sig;
    assert after[k].signature == sig;
  }

  lemma NextKeepsSeen(w: Wallet, config: Config, t: Task, a: Answer, sig: Signature)
    requires config.rate > 0
    ensures Seen(w.deposits, sig) ==> Seen(Next(w, config, t, a).wallet.deposits, sig)
  {
    hide Wrap, ToReais, ToMicroUsdc, Seen, Negated, Storable;
    if Seen(w.deposits, sig) {
      StillSeen(w.deposits, Next(w, config, t, a).wallet.deposits, sig);
    }
  }

  lemma StepKeepsCredits(s: Sys, config: Config, e: Event, sig: Signature)
    requires config.rate > 0 && RowsOk(s) && CreditedOnce(s, sig)
    ensures CreditedOnce(Step(s, config, e), sig)
  {
    hide Next, CreditCount, Seen, HoldsRow, Distinct;
    if e.Call? && e.i < |s.tasks| {
      NextCredits(s.wallet, config, s.tasks[e.i], e.answer, sig);
      forall j | 0 <= j < |s.tasks| && j != e.i && AboutToCredit(s.tasks[j], sig)
        ensures !AboutToCredit(s.tasks[e.i], sig) && Seen(s.wallet.deposits, sig)
      {
        assert Apart(s.tasks[e.i], s.tasks[j]);
        HeldIsSeen(s.wallet, s.tasks[j]);
      }
    }
  }

  lemma HeldIsSeen(w: Wallet, t: Task)
    requires HoldsRow(w, t) && Held(t).Some?
    ensures Seen(w.deposits, Held(t).value.signature)
  {
    UncreditedIsSeen(w.deposits, Held(t).value.signature, t.scan.address.account);
  }

  lemma {:induction false} ExecuteKeepsCredits(config: Config, es: seq<Event>, sig: Signature)
    requires config.rate > 0
    ensures CreditedOnce(Execute(config, es), sig)
  {
    hide Step, RowsOk, CreditedOnce;
    if |es| > 0 {
      ExecuteKeepsCredits(config, es[..|es| - 1], sig);
      ExecuteKeepsRows(config, es[..|es| - 1]);
      StepKeepsCredits(Execute(config, es[..|es| - 1]), config, es[|es| - 1], sig);
    } else {
      InitialCredits(sig);
    }
  }

  lemma InitialCredits(sig: Signature)
    ensures CreditedOnce(INITIAL, sig)
  {
  }

  /** However many scans of however many pollers interleave and fail, the ledger is
      credited at most once for each signature, and never for one without a row. */
  lemma OneCreditInterleaved(config: Config, es: seq<Event>, sig: Signature)
    requires config.rate > 0
    ensures var w := Execute(config, es).wallet;
      CreditCount(w.ledger, sig) <= (if Seen(w.deposits, sig) then 1 else 0)
  {
    hide Execute, CreditCount, Seen;
    ExecuteKeepsCredits(config, es, sig);
  }

  // -------------------------------------------------------------------------- cursors

  /** Past its scanner's answer, a scan has seen to it that the transfers before the
      one at hand have rows. */
  predicate Behind(deposits: seq<Deposit>, t: Task) {
    t.Scanning? && !t.stage.ReadCursor? && !t.stage.Fetch? && !t.stage.ScanOver? ==>
      && t.scan.n <= |t.scan.found|
      && (forall k :: 0 <= k < t.scan.n ==> Seen(deposits, t.scan.found[k].signature))
      && (t.stage.Advance? ==> t.scan.n == |t.scan.found|)
  }

  lemma SeenStaysBehind(deposits: seq<Deposit>, after: seq<Deposit>, t: Task)
    requires Behind(deposits, t) && forall sig :: Seen(deposits, sig) ==> Seen(after, sig)
    ensures Behind(after, t)
  {
    hide Seen;
  }

  lemma OnwardBehind(deposits: seq<Deposit>, scan: Scan)
    requires scan.n <= |scan.found| && forall k :: 0 <= k < scan.n ==> Seen(deposits, scan.found[k].signature)
    ensures Behind(deposits, Onward(scan))
  {
    hide Seen;
  }

  lemma NextBehind(w: Wallet, config: Config, t: Task, a: Answer)
    requires config.rate > 0 && HoldsRow(w, t) && Behind(w.deposits, t)
    ensures Behind(Next(w, config, t, a).wallet.deposits, Next(w, config, t, a).task)
  {
    hide Wrap, ToReais, ToMicroUsdc, Seen, Negated, Storable, Where, Onward, HoldsRow;
    var move := Next(w, config, t, a);
    if t.Scanning? {
      var scan := t.scan;
      forall sig | Seen(w.deposits, sig) ensures Seen(move.wallet.deposits, sig) {
        NextKeepsSeen(w, config, t, a, sig);
      }
      SeenStaysBehind(w.deposits, move.wallet.deposits, t);
      if t.stage.Fetch? {
        OnwardBehind(w.deposits, scan.(found := a.found, newCursor := a.newCursor, n := 0));
      } else if t.stage.Record? && scan.n < |scan.found| && Seen(w.deposits, scan.found[scan.n].signature) {
        OnwardBehind(w.deposits, scan.(n := scan.n + 1));
      } else if t.stage.MarkCredited? && scan.n < |scan.found| {
        HeldIsSeen(w, t);
        OnwardBehind(move.wallet.deposits, scan.(n := scan.n + 1));
      }
    }
  }

  predicate AllBehind(s: Sys) {
    forall i :: 0 <= i < |s.tasks| ==> Behind(s.wallet.deposits, s.tasks[i])
  }

  lemma StepKeepsBehind(s: Sys, config: Config, e: Event)
    requires config.rate > 0 && RowsOk(s) && AllBehind(s)
    ensures AllBehind(Step(s, config, e))
  {
    hide Next, Seen, HoldsRow, Distinct, Apart;
    if e.Call? && e.i < |s.tasks| {
      var t := s.tasks[e.i];
      var after := Next(s.wallet, config, t, e.answer).wallet.deposits;
      NextBehind(s.wallet, config, t, e.answer);
      forall sig | Seen(s.wallet.deposits, sig) ensures Seen(after, sig) {
        NextKeepsSeen(s.wallet, config, t, e.answer, sig);
      }
      forall j | 0 <= j < |s.tasks| && j != e.i ensures Behind(after, s.tasks[j]) {
        SeenStaysBehind(s.wallet.deposits, after, s.tasks[j]);
      }
    }
  }

  lemma {:induction false} ExecuteKeepsBehind(config: Config, es: seq<Event>)
    requires config.rate > 0
    ensures AllBehind(Execute(config, es))
  {
    hide Step, RowsOk, Behind;
    if |es| > 0 {
      ExecuteKeepsBehind(config, es[..|es| - 1]);
      ExecuteKeepsRows(config, es[..|es| - 1]);
      StepKeepsBehind(Execute(config, es[..|es| - 1]), config, es[|es| - 1]);
    }
  }

  /** Whatever else is going on, a cursor moves only when every transfer its scan was
      returned has a row. */
  lemma CursorMovesBehindRows(config: Config, es: seq<Event>, e: Event)
    requires config.rate > 0
    requires Step(Execute(config, es), config, e).wallet.cursors != Execute(config, es).wallet.cursors
    ensures var s, after := Execute(config, es), Step(Execute(config, es), config, e);
      && e.Call? && e.i < |s.tasks| && s.tasks[e.i].Scanning?
      && var scan := s.tasks[e.i].scan;
        && after.wallet.cursors == s.wallet.cursors[scan.address.address := scan.newCursor]
        && forall k :: 0 <= k < |scan.found| ==> Seen(after.wallet.deposits, scan.found[k].signature)
  {
    hide Execute, Seen, Wrap, ToReais, ToMicroUsdc, Negated, Storable, Where;
    ExecuteKeepsBehind(config, es);
    var s := Execute(config, es);
    assert Behind(s.wallet.deposits, s.tasks[e.i]);
  }

  // ------------------------------------------------------------- with nobody else around

  function Reports(ok: bool): Outcome { if ok then Succeeded else Lost }

  function Bare(o: Outcome): Answer { Answer(o, [], "", 0, "") }

  /** The outcome of each of its calls, when the ingestion is to fail like this. */
  function IngestAnswer(stage: ScanStage, f: IngestFaults): Answer {
    match stage
    case Record => Bare(f.insert)
    case MarkSwapping => Bare(f.swapping)
    case ReadAddress => Bare(Reports(f.lookup))
    case Swap => Bare(Reports(f.swap.Some?)).(swapped := if f.swap.Some? then f.swap.value else 0)
    case Credit(_) => Bare(f.ledger)
    case MarkCredited(_, _) => Bare(f.credited)
    case _ => Bare(f.failed)
  }

  /** From its next call until the scan is through with the transfer, at most `n` calls. */
  function IngestCalls(w: Wallet, rate: int64, scan: Scan, stage: ScanStage, f: IngestFaults, n: nat): Move
    decreases n
  {
    if n == 0 then Move(w, Scanning(scan, stage))
    else
      var move := ScanNext(w, rate, scan, stage, IngestAnswer(stage, f));
      if Held(move.task).None? then move
      else IngestCalls(move.wallet, rate, move.task.scan, move.task.stage, f, n - 1)
  }

  /** From the request for the credit on, the row being the last one. */
  lemma CreditCalls(w: Wallet, rate: int64, scan: Scan, row: Deposit, usdc: int64, f: IngestFaults, n: nat)
    requires scan.n < |scan.found| && row.signature == scan.found[scan.n].signature && n >= 2
    requires |w.deposits| > 0 && w.deposits[|w.deposits| - 1] == row
    requires !Seen(w.deposits[..|w.deposits| - 1], row.signature)
    ensures var reais, last := ToReais(usdc, rate), |w.deposits| - 1;
      var credited := f.ledger == Succeeded && Recordable(usdc, reais);
      IngestCalls(w, rate, scan, Credit(usdc), f, n) ==
        Move(Ledgered(w, scan.address.account, reais, DepositOf(row.signature), f.ledger).(
               deposits := w.deposits[last :=
                 if f.ledger != Succeeded then if Applied(f.failed) then row.(status := Parked) else row
                 else if credited && Applied(f.credited) then ToCredited(usdc, reais)(row)
                 else row]),
             if credited && f.credited == Succeeded then Onward(scan.(n := scan.n + 1)) else Scanning(scan, ScanOver))
  {
    hide Wrap, ToReais, Seen, Where, Onward;
    var before, reais := w.deposits[..|w.deposits| - 1], ToReais(usdc, rate);
    assert w.deposits == before + [row];
    WhereLast(before, row, ToStatus(Parked));
    WhereLast(before, row, ToCredited(usdc, reais));
    OnwardHoldsNothing(scan.(n := scan.n + 1));
    var m := ScanNext(w, rate, scan, Credit(usdc), IngestAnswer(Credit(usdc), f));
    assert m.task.Scanning? && m.task.scan == scan && Held(m.task).Some?;
    assert IngestCalls(w, rate, scan, Credit(usdc), f, n) ==
      IngestCalls(m.wallet, rate, scan, m.task.stage, f, n - 1);
  }

  /** From a failure to find out what to credit on: the row is parked. */
  lemma ParkCalls(w: Wallet, rate: int64, scan: Scan, row: Deposit, f: IngestFaults, n: nat)
    requires scan.n < |scan.found| && row.signature == scan.found[scan.n].signature && n >= 1
    requires |w.deposits| > 0 && w.deposits[|w.deposits| - 1] == row
    requires !Seen(w.deposits[..|w.deposits| - 1], row.signature)
    ensures IngestCalls(w, rate, scan, Park, f, n) ==
      Move(w.(deposits := w.deposits[|w.deposits| - 1 := if Applied(f.failed) then row.(status := Parked) else row]),
           Scanning(scan, ScanOver))
  {
    hide Wrap, ToReais, Seen, Where;
    var before := w.deposits[..|w.deposits| - 1];
    assert w.deposits == before + [row];
    WhereLast(before, row, ToStatus(Parked));
  }

  /** From marking the row as being swapped on. */
  lemma SwapCalls(w: Wallet, rate: int64, scan: Scan, row: Deposit, f: IngestFaults)
    requires scan.n < |scan.found| && scan.found[scan.n].asset != USDC
    requires row.signature == scan.found[scan.n].signature
    requires |w.deposits| > 0 && w.deposits[|w.deposits| - 1] == row
    requires !Seen(w.deposits[..|w.deposits| - 1], row.signature)
    ensures var swapping := if Applied(f.swapping) then row.(status := Swapping) else row;
      var marked, usdc := w.(deposits := w.deposits[|w.deposits| - 1 := swapping]),
                          CreditAmount(scan.found[scan.n], f);
      IngestCalls(w, rate, scan, MarkSwapping, f, 5) ==
        if usdc.Some? then IngestCalls(marked, rate, scan, Credit(usdc.value), f, 2)
        else
          Move(marked.(deposits := marked.deposits[|w.deposits| - 1 :=
                 if Applied(f.failed) then swapping.(status := Parked) else swapping]),
               Scanning(scan, ScanOver))
  {
    hide Wrap, ToReais, Seen, Where, Onward, IngestCalls;
    var before := w.deposits[..|w.deposits| - 1];
    assert w.deposits == before + [row];
    WhereLast(before, row, ToStatus(Swapping));
    var swapping := if Applied(f.swapping) then row.(status := Swapping) else row;
    var marked := w.(deposits := w.deposits[|w.deposits| - 1 := swapping]);
    assert marked.deposits == before + [swapping];
    assert marked.deposits[..|marked.deposits| - 1] == before;
    FirstCall(w, rate, scan, MarkSwapping, f, 5);
    if f.swapping != Succeeded {
      ParkCalls(marked, rate, scan, swapping, f, 4);
    } else {
      FirstCall(marked, rate, scan, ReadAddress, f, 4);
      if !f.lookup {
        ParkCalls(marked, rate, scan, swapping, f, 3);
      } else {
        FirstCall(marked, rate, scan, Swap, f, 3);
        ParkCalls(marked, rate, scan, swapping, f, 2);
      }
    }
  }

  /** What a whole ingestion of a new transfer leaves, and where the scan goes. */
  function Ingested(w: Wallet, rate: int64, scan: Scan, f: IngestFaults): Move
    requires scan.n < |scan.found|
  {
    var d, account := scan.found[scan.n], scan.address.account;
    Move(w.(deposits := w.deposits + [IngestedRow(rate, account, d, f)],
            ledger := w.ledger + IngestAdjustments(rate, account, d, f)),
         if IngestError(rate, d, f).None? then Onward(scan.(n := scan.n + 1)) else Scanning(scan, ScanOver))
  }

  lemma UsdcCalls(w: Wallet, rate: int64, scan: Scan, f: IngestFaults)
    requires scan.n < |scan.found| && scan.found[scan.n].asset == USDC
    requires !Seen(w.deposits, scan.found[scan.n].signature)
    ensures var d := scan.found[scan.n];
      var stored := w.(deposits := w.deposits + [NewDeposit(scan.address.account, d)]);
      IngestCalls(stored, rate, scan, Credit(Wrap(d.rawAmount)), f, 5) == Ingested(w, rate, scan, f)
  {
    hide Wrap, ToReais, Seen, Where, Onward, IngestCalls, ScanNext, Insertable, Recordable;
    var d, account := scan.found[scan.n], scan.address.account;
    var row := NewDeposit(account, d);
    var stored := w.(deposits := w.deposits + [row]);
    assert stored.deposits[..|w.deposits|] == w.deposits;
    CreditCalls(stored, rate, scan, row, Wrap(d.rawAmount), f, 5);
    NothingAdded(w.ledger);
  }

  lemma LamportCalls(w: Wallet, rate: int64, scan: Scan, f: IngestFaults)
    requires scan.n < |scan.found| && scan.found[scan.n].asset == SOL
    requires !Seen(w.deposits, scan.found[scan.n].signature)
    ensures var d := scan.found[scan.n];
      var stored := w.(deposits := w.deposits + [NewDeposit(scan.address.account, d)]);
      IngestCalls(stored, rate, scan, MarkSwapping, f, 5) == Ingested(w, rate, scan, f)
  {
    hide Wrap, ToReais, Seen, Where, Onward, IngestCalls, ScanNext, Insertable, Recordable, CreditAmount;
    var d, account := scan.found[scan.n], scan.address.account;
    var row := NewDeposit(account, d);
    var stored := w.(deposits := w.deposits + [row]);
    assert stored.deposits[..|w.deposits|] == w.deposits;
    SwapCalls(stored, rate, scan, row, f);
    var swapping := if Applied(f.swapping) then row.(status := Swapping) else row;
    var marked := stored.(deposits := stored.deposits[|w.deposits| := swapping]);
    assert marked.deposits == w.deposits + [swapping];
    assert marked.deposits[..|w.deposits|] == w.deposits;
    if CreditAmount(d, f).Some? {
      CreditCalls(marked, rate, scan, swapping, CreditAmount(d, f).value, f, 2);
    }
    NothingAdded(w.ledger);
  }

  lemma WholeIngests(w: Wallet, rate: int64, scan: Scan, f: IngestFaults)
    requires scan.n < |scan.found|
    ensures var d, account := scan.found[scan.n], scan.address.account;
      var whole := Ingest(w, rate, account, d, f);
      Move(whole.wallet, if whole.error.None? then Onward(scan.(n := scan.n + 1)) else Scanning(scan, ScanOver)) ==
        if Ingests(w, account, d, f) then Ingested(w, rate, scan, f) else RecordNext(w, scan, f.insert)
    ensures var d := scan.found[scan.n];
      Ingests(w, scan.address.account, d, f) ==>
        !Seen(w.deposits, d.signature) && (d.asset == USDC || d.asset == SOL)
  {
    hide Wrap, Seen, Onward, IngestedRow, IngestAdjustments, IngestError, NewDeposit;
  }

  /** A lone ingestion, call by call, does what the whole one does: the same tables and
      ledger, and on to the next transfer exactly when it reports no error. */
  lemma IngestAlone(w: Wallet, rate: int64, scan: Scan, f: IngestFaults)
    requires scan.n < |scan.found|
    ensures var whole := Ingest(w, rate, scan.address.account, scan.found[scan.n], f);
      IngestCalls(w, rate, scan, Record, f, 6) ==
        Move(whole.wallet,
             if whole.error.None? then Onward(scan.(n := scan.n + 1)) else Scanning(scan, ScanOver))
  {
    hide Wrap, Seen, Onward, IngestCalls, Ingest, Ingested, Ingests, NewDeposit, RecordNext;
    RecordCall(w, rate, scan, f);
    WholeIngests(w, rate, scan, f);
    var d := scan.found[scan.n];
    if Ingests(w, scan.address.account, d, f) {
      if d.asset == USDC {
        UsdcCalls(w, rate, scan, f);
      } else {
        LamportCalls(w, rate, scan, f);
      }
    }
  }

  lemma NothingAdded(ledger: seq<Adjustment>)
    ensures ledger + [] == ledger
  {
  }

  lemma RecordCall(w: Wallet, rate: int64, scan: Scan, f: IngestFaults)
    requires scan.n < |scan.found|
    ensures var d, account := scan.found[scan.n], scan.address.account;
      IngestCalls(w, rate, scan, Record, f, 6) ==
        if Ingests(w, account, d, f) then
          IngestCalls(w.(deposits := w.deposits + [NewDeposit(account, d)]), rate, scan,
                      if d.asset == USDC then Credit(Wrap(d.rawAmount)) else MarkSwapping, f, 5)
        else RecordNext(w, scan, f.insert)
  {
    hide Wrap, Seen, Onward, IngestCalls, IngestNext;
    OnwardHoldsNothing(scan.(n := scan.n + 1));
    FirstCall(w, rate, scan, Record, f, 6);
  }

  lemma FirstCall(w: Wallet, rate: int64, scan: Scan, stage: ScanStage, f: IngestFaults, n: nat)
    requires n > 0
    ensures var move := ScanNext(w, rate, scan, stage, IngestAnswer(stage, f));
      IngestCalls(w, rate, scan, stage, f, n) ==
        if Held(move.task).None? then move
        else IngestCalls(move.wallet, rate, move.task.scan, move.task.stage, f, n - 1)
  {
    hide ScanNext;
  }

  // ---------------------------------------------------------------------- a lone scan

  /** The outcome of each of its calls, when the pass is to go like this. */
  function PassAnswer(pass: Pass, scan: Scan, stage: ScanStage): Answer {
    match stage
    case ReadCursor => Bare(Reports(pass.cursor))
    case Fetch =>
      Bare(Reports(pass.found.Some?)).(
        found := if pass.found.Some? then Deposits(pass.found.value) else [], newCursor := pass.newCursor)
    case Advance => Bare(pass.advance)
    case _ =>
      if pass.found.Some? && scan.n < |pass.found.value| then IngestAnswer(stage, pass.found.value[scan.n].faults)
      else Bare(Succeeded)
  }

  function Deposits(found: seq<Found>): (ds: seq<Incoming>)
    ensures |ds| == |found| && forall i :: 0 <= i < |ds| ==> ds[i] == found[i].deposit
  {
    seq(|found|, i requires 0 <= i < |found| => found[i].deposit)
  }

  /** After `n` calls of the scan, with nobody else around. */
  function ScanCalls(w: Wallet, rate: int64, scan: Scan, stage: ScanStage, pass: Pass, n: nat): Move
    decreases n
  {
    if n == 0 then Move(w, Scanning(scan, stage))
    else
      var move := ScanNext(w, rate, scan, stage, PassAnswer(pass, scan, stage));
      ScanCalls(move.wallet, rate, move.task.scan, move.task.stage, pass, n - 1)
  }

  lemma {:induction false} ScanOn(w: Wallet, rate: int64, scan: Scan, stage: ScanStage, pass: Pass, m: nat, n: nat)
    ensures ScanCalls(w, rate, scan, stage, pass, m).task.Scanning?
    ensures var mid := ScanCalls(w, rate, scan, stage, pass, m);
      ScanCalls(w, rate, scan, stage, pass, m + n) ==
        ScanCalls(mid.wallet, rate, mid.task.scan, mid.task.stage, pass, n)
    decreases m
  {
    hide ScanNext;
    if m > 0 {
      var move := ScanNext(w, rate, scan, stage, PassAnswer(pass, scan, stage));
      ScanOn(move.wallet, rate, move.task.scan, move.task.stage, pass, m - 1, n);
    }
  }

  lemma OneCall(w: Wallet, rate: int64, scan: Scan, stage: ScanStage, pass: Pass)
    ensures ScanCalls(w, rate, scan, stage, pass, 1) == ScanNext(w, rate, scan, stage, PassAnswer(pass, scan, stage))
  {
    hide ScanNext;
    var move := ScanNext(w, rate, scan, stage, PassAnswer(pass, scan, stage));
    assert ScanCalls(move.wallet, rate, move.task.scan, move.task.stage, pass, 0) ==
      Move(move.wallet, Scanning(move.task.scan, move.task.stage));
  }

  /** What the scan was returned is what the pass found. */
  predicate Agrees(scan: Scan, pass: Pass) {
    pass.found.Some? && scan.found == Deposits(pass.found.value) && scan.newCursor == pass.newCursor
  }

  /** The calls for one transfer are calls of the scan. */
  lemma {:induction false} TransferCalls(w: Wallet, rate: int64, scan: Scan, stage: ScanStage, pass: Pass, n: nat)
      returns (k: nat)
    requires Agrees(scan, pass) && scan.n < |scan.found| && (stage.Record? || Held(Scanning(scan, stage)).Some?)
    ensures ScanCalls(w, rate, scan, stage, pass, k) ==
      IngestCalls(w, rate, scan, stage, pass.found.value[scan.n].faults, n)
    decreases n
  {
    hide ScanNext, ScanCalls;
    var f := pass.found.value[scan.n].faults;
    if n == 0 {
      k := 0;
      NoCalls(w, rate, scan, stage, pass);
      assert IngestCalls(w, rate, scan, stage, f, 0) == Move(w, Scanning(scan, stage));
    } else {
      var move := ScanNext(w, rate, scan, stage, IngestAnswer(stage, f));
      FirstCall(w, rate, scan, stage, f, n);
      OneCall(w, rate, scan, stage, pass);
      SameAnswer(pass, scan, stage);
      if Held(move.task).None? {
        k := 1;
      } else {
        StaysOnTransfer(w, rate, scan, stage, f);
        var j := TransferCalls(move.wallet, rate, scan, move.task.stage, pass, n - 1);
        ScanOn(w, rate, scan, stage, pass, 1, j);
        k := 1 + j;
      }
    }
  }

  lemma NoCalls(w: Wallet, rate: int64, scan: Scan, stage: ScanStage, pass: Pass)
    ensures ScanCalls(w, rate, scan, stage, pass, 0) == Move(w, Scanning(scan, stage))
  {
  }

  lemma SameAnswer(pass: Pass, scan: Scan, stage: ScanStage)
    requires Agrees(scan, pass) && scan.n < |scan.found| && (stage.Record? || Held(Scanning(scan, stage)).Some?)
    ensures scan.n < |pass.found.value|
    ensures PassAnswer(pass, scan, stage) == IngestAnswer(stage, pass.found.value[scan.n].faults)
  {
    hide IngestAnswer;
  }

  lemma StaysOnTransfer(w: Wallet, rate: int64, scan: Scan, stage: ScanStage, f: IngestFaults)
    requires scan.n < |scan.found| && (stage.Record? || Held(Scanning(scan, stage)).Some?)
    ensures var task := ScanNext(w, rate, scan, stage, IngestAnswer(stage, f)).task;
      task.Scanning? && (Held(task).Some? ==> task.scan == scan)
  {
    hide ToReais, Wrap, Seen, Where, IngestAnswer;
  }

  /** From the transfer at hand to the end of the scan: the rest is ingested up to the
      first failure, and without one the cursor may move. */
  lemma {:induction false} RestOfScan(w: Wallet, rate: int64, scan: Scan, pass: Pass, start: Wallet)
      returns (k: nat)
    requires Agrees(scan, pass) && scan.n <= |scan.found|
    requires IngestFirst(start, rate, scan.address.account, pass.found.value, scan.n) == Result(w, None)
    ensures var r := IngestFirst(start, rate, scan.address.account, pass.found.value, |pass.found.value|);
      var moves := r.error.None? && pass.newCursor != "" && pass.newCursor != scan.cursor && Applied(pass.advance);
      var task := Onward(scan);
      var end := ScanCalls(w, rate, scan, task.stage, pass, k);
      && end.task.Scanning? && end.task.stage.ScanOver?
      && end.wallet == (if moves then r.wallet.(cursors := r.wallet.cursors[scan.address.address := pass.newCursor])
                        else r.wallet)
    decreases |scan.found| - scan.n
  {
    hide Ingest, ScanNext, ScanCalls, IngestCalls, IngestFirst, Onward;
    var account, found := scan.address.account, pass.found.value;
    OnwardIs(scan);
    if scan.n == |scan.found| {
      k := FinishScan(w, rate, scan, pass);
    } else {
      var f := found[scan.n].faults;
      IngestAlone(w, rate, scan, f);
      var j := TransferCalls(w, rate, scan, Record, pass, 6);
      var whole := Ingest(w, rate, account, scan.found[scan.n], f);
      OneMoreIngested(start, rate, account, found, scan.n);
      if whole.error.None? {
        var next := scan.(n := scan.n + 1);
        OnwardIs(next);
        var i := RestOfScan(whole.wallet, rate, next, pass, start);
        ScanOn(w, rate, scan, Record, pass, j, i);
        k := j + i;
      } else {
        FailureStops(start, rate, account, found, scan.n + 1);
        k := j;
      }
    }
  }

  lemma OnwardIs(scan: Scan)
    ensures Onward(scan).Scanning? && Onward(scan).scan == scan
    ensures scan.n < |scan.found| ==> Onward(scan).stage == Record
    ensures scan.n >= |scan.found| ==>
      Onward(scan).stage == if scan.newCursor != "" && scan.newCursor != scan.cursor then Advance else ScanOver
  {
  }

  lemma FinishScan(w: Wallet, rate: int64, scan: Scan, pass: Pass) returns (k: nat)
    requires Agrees(scan, pass) && scan.n == |scan.found|
    ensures var moves := pass.newCursor != "" && pass.newCursor != scan.cursor && Applied(pass.advance);
      var end := ScanCalls(w, rate, scan, Onward(scan).stage, pass, k);
      && end.task.Scanning? && end.task.stage.ScanOver?
      && end.wallet == (if moves then w.(cursors := w.cursors[scan.address.address := pass.newCursor]) else w)
  {
    hide ScanCalls;
    if pass.newCursor != "" && pass.newCursor != scan.cursor {
      k := 1;
      OneCall(w, rate, scan, Advance, pass);
    } else {
      k := 0;
      NoCalls(w, rate, scan, ScanOver, pass);
    }
  }

  lemma OneMoreIngested(w: Wallet, rate: int64, account: AccountId, found: seq<Found>, n: nat)
    requires n < |found| && IngestFirst(w, rate, account, found, n).error.None?
    ensures IngestFirst(w, rate, account, found, n + 1) ==
      Ingest(IngestFirst(w, rate, account, found, n).wallet, rate, account, found[n].deposit, found[n].faults)
  {
    hide Ingest;
  }

  lemma {:induction false} FailureStops(w: Wallet, rate: int64, account: AccountId, found: seq<Found>, n: nat)
    requires n <= |found| && IngestFirst(w, rate, account, found, n).error.Some?
    ensures IngestFirst(w, rate, account, found, |found|) == IngestFirst(w, rate, account, found, n)
    decreases |found| - n
  {
    hide Ingest;
    if n < |found| {
      FailureStops(w, rate, account, found, n + 1);
    }
  }

  /** A lone scan, call by call, leaves what the whole pass leaves: the same rows, ledger
      and cursors, for every way in which its calls can fail. */
  lemma ScanAlone(w: Wallet, rate: int64, address: Address, pass: Pass) returns (k: nat)
    ensures var end := ScanCalls(w, rate, Scan(address, "", [], "", 0), ReadCursor, pass, k);
      && end.task.Scanning? && end.task.stage.ScanOver?
      && end.wallet == ScanAddress(w, rate, address, pass).wallet
  {
    hide Ingest, ScanCalls, IngestCalls, IngestFirst, Onward;
    var idle := Scan(address, "", [], "", 0);
    OneCall(w, rate, idle, ReadCursor, pass);
    if !pass.cursor {
      k := 1;
    } else {
      var ready := idle.(cursor := CursorOf(w, address.address));
      OneCall(w, rate, ready, Fetch, pass);
      ScanOn(w, rate, idle, ReadCursor, pass, 1, 1);
      if pass.found.None? {
        k := 2;
      } else {
        var scan := ready.(found := Deposits(pass.found.value), newCursor := pass.newCursor);
        OnwardIs(scan);
        NothingIngested(w, rate, address.account, pass.found.value);
        var i := RestOfScan(w, rate, scan, pass, w);
        ScanOn(w, rate, idle, ReadCursor, pass, 2, i);
        IngestFirstKeepsTables(w, rate, address.account, pass.found.value, |pass.found.value|);
        k := 2 + i;
      }
    }
  }

  lemma NothingIngested(w: Wallet, rate: int64, account: AccountId, found: seq<Found>)
    ensures IngestFirst(w, rate, account, found, 0) == Result(w, None)
  {
  }

  // ---------------------------------------------------------------- a lone withdrawal

  function WithdrawAnswer(step: PayStage, f: WithdrawFaults): Answer {
    match step
    case TakeDebit => Bare(f.debit)
    case StoreRow => Bare(f.insert)
    case MarkSigning(_) => Bare(f.signing)
    case EnsureAta(_) => Bare(Reports(f.ata))
    case Send(_) => Bare(Reports(f.transfer))
    case MarkSent(_) => Bare(f.sent).(signature := f.signature)
    case Confirm(_) => Bare(Reports(f.confirm))
    case MarkConfirmed(_) => Bare(f.confirmed)
    case MarkFailed(_) => Bare(f.failed)
    case _ => Bare(f.refund)
  }

  /** At most `n` calls. */
  function WithdrawCalls(w: Wallet, config: Config, pay: Payout, step: PayStage, f: WithdrawFaults, n: nat): Move
    requires config.rate > 0
    decreases n
  {
    if n == 0 || step.PayOver? then Move(w, Paying(pay, step))
    else
      var move := Next(w, config, Paying(pay, step), WithdrawAnswer(step, f));
      WithdrawCalls(move.wallet, config, pay, move.task.step, f, n - 1)
  }

  lemma FirstPayCall(w: Wallet, config: Config, pay: Payout, step: PayStage, f: WithdrawFaults, n: nat)
    requires config.rate > 0
    ensures n > 0 && !step.PayOver? ==>
      var move := Next(w, config, Paying(pay, step), WithdrawAnswer(step, f));
      WithdrawCalls(w, config, pay, step, f, n) == WithdrawCalls(move.wallet, config, pay, move.task.step, f, n - 1)
    ensures step.PayOver? ==> WithdrawCalls(w, config, pay, step, f, n) == Move(w, Paying(pay, PayOver))
  {
    hide Next;
  }

  lemma GiveBackCall(w: Wallet, config: Config, pay: Payout, f: WithdrawFaults, n: nat)
    requires config.rate > 0 && n > 0
    ensures WithdrawCalls(w, config, pay, GiveBack, f, n) ==
      Move(w.(ledger := w.ledger + Refunded(pay.account, pay.reais, f)), Paying(pay, PayOver))
  {
    hide WithdrawCalls, RequestNext;
    NothingAdded(w.ledger);
    FirstPayCall(w, config, pay, GiveBack, f, n);
    FirstPayCall(Ledgered(w, pay.account, pay.reais, Refund, f.refund), config, pay, PayOver, f, n - 1);
  }

  lemma FailCalls(w: Wallet, config: Config, pay: Payout, id: nat, f: WithdrawFaults, n: nat)
    requires config.rate > 0 && n > 1 && id < |w.withdrawals|
    ensures WithdrawCalls(w, config, pay, MarkFailed(id), f, n) ==
      Move(w.(withdrawals := w.withdrawals[id := FailAndRefund(w.withdrawals[id], f).row],
              ledger := w.ledger + Refunded(pay.account, pay.reais, f)),
           Paying(pay, PayOver))
  {
    hide WithdrawCalls, RequestNext, Refunded;
    FirstPayCall(w, config, pay, MarkFailed(id), f, n);
    GiveBackCall(SetRow(w, id, PayStatus(Failed), f.failed), config, pay, f, n - 1);
    assert w.withdrawals[id := w.withdrawals[id]] == w.withdrawals;
  }

  lemma SettleCalls(w: Wallet, config: Config, pay: Payout, id: nat, f: WithdrawFaults)
    requires config.rate > 0 && id < |w.withdrawals|
    ensures var s := Settle(w.withdrawals[id], f);
      WithdrawCalls(w, config, pay, MarkSigning(id), f, 7) ==
        Move(w.(withdrawals := w.withdrawals[id := s.row],
                ledger := w.ledger + (if s.refunded then Refunded(pay.account, pay.reais, f) else [])),
             Paying(pay, PayOver))
  {
    hide WithdrawCalls, RequestNext, Refunded;
    NothingAdded(w.ledger);
    assert w.withdrawals[id := w.withdrawals[id]] == w.withdrawals;
    var signing := SetRow(w, id, PayStatus(Signing), f.signing);
    FirstPayCall(w, config, pay, MarkSigning(id), f, 7);
    FirstPayCall(signing, config, pay, EnsureAta(id), f, 6);
    if !f.ata {
      FailCalls(signing, config, pay, id, f, 5);
    } else {
      FirstPayCall(signing, config, pay, Send(id), f, 5);
      if !f.transfer {
        FailCalls(signing, config, pay, id, f, 4);
      } else {
        SentCalls(signing, config, pay, id, f);
      }
    }
  }

  /** From the record of the send on. */
  lemma SentCalls(w: Wallet, config: Config, pay: Payout, id: nat, f: WithdrawFaults)
    requires config.rate > 0 && id < |w.withdrawals|
    ensures var row := w.withdrawals[id];
      var sent := if Applied(f.sent) then row.(status := Sent, signature := Some(f.signature)) else row;
      WithdrawCalls(w, config, pay, MarkSent(id), f, 4) ==
        if f.sent == Succeeded && !f.confirm then
          Move(w.(withdrawals := w.withdrawals[id := FailAndRefund(sent, f).row],
                  ledger := w.ledger + Refunded(pay.account, pay.reais, f)),
               Paying(pay, PayOver))
        else
          Move(w.(withdrawals := w.withdrawals[id :=
                 if f.sent == Succeeded && Applied(f.confirmed) then sent.(status := Confirmed) else sent]),
               Paying(pay, PayOver))
  {
    hide WithdrawCalls, RequestNext, Refunded;
    assert w.withdrawals[id := w.withdrawals[id]] == w.withdrawals;
    var sent := SetRow(w, id, PaySent(f.signature), f.sent);
    FirstPayCall(w, config, pay, MarkSent(id), f, 4);
    FirstPayCall(sent, config, pay, PayOver, f, 3);
    FirstPayCall(sent, config, pay, Confirm(id), f, 3);
    if f.confirm {
      FirstPayCall(sent, config, pay, MarkConfirmed(id), f, 2);
      FirstPayCall(SetRow(sent, id, PayStatus(Confirmed), f.confirmed), config, pay, PayOver, f, 1);
    } else {
      FailCalls(sent, config, pay, id, f, 2);
    }
  }

  /** A lone withdrawal, call by call, does what the whole one does. */
  lemma WithdrawAlone(w: Wallet, config: Config, pay: Payout, f: WithdrawFaults)
    requires config.rate > 0
    ensures WithdrawCalls(w, config, pay, TakeDebit, f, 9) ==
      Move(Withdraw(w, config.rate, config.limits, pay.account, pay.dest, pay.reais, f).wallet, Paying(pay, PayOver))
  {
    hide WithdrawCalls, ToMicroUsdc, Negated, Settle, Refunded, SettleNext;
    var row, debited := RowFor(pay, config.rate), Debited(w, pay.account, pay.reais, f);
    FirstPayCall(w, config, pay, TakeDebit, f, 9);
    FirstPayCall(w, config, pay, PayOver, f, 8);
    FirstPayCall(debited, config, pay, PayOver, f, 8);
    FirstPayCall(debited, config, pay, StoreRow, f, 8);
    var stored := debited.(withdrawals := debited.withdrawals + [row]);
    FirstPayCall(stored, config, pay, PayOver, f, 7);
    GiveBackCall(debited, config, pay, f, 7);
    GiveBackCall(stored, config, pay, f, 7);
    SettleCalls(stored, config, pay, |w.withdrawals|, f);
    assert debited.withdrawals + [] == debited.withdrawals;
    assert stored.withdrawals[|w.withdrawals| := Settle(row, f).row] == debited.withdrawals + [Settle(row, f).row];
  }
}
