/** Provisioning and faucet requests interleaved call by call: each statement or
    chain call is one step, and any of them can fail. */
module WalletRaces {
  import opened Wrappers
  import opened Wallet

  /** Where a request stands: the call it makes next, or what it returned. */
  datatype Stage =
    | Lookup
    | Draw
    | CreateAta(index: nat)
    | Insert(row: Address)
    | Relookup
    | Claim(row: Address)
    | Transfer(row: Address)
    | Release
    | Returned(address: Option<Address>)

  datatype Task = Task(account: AccountId, faucet: bool, stage: Stage)

  /** The sequence and tables, the grants that landed on chain and those reported
      as sent, and the addresses returned to callers. */
  datatype Shared = Shared(
    drawn: nat,
    addresses: seq<Address>,
    claims: set<AccountId>,
    landed: seq<AccountId>,
    sent: seq<AccountId>,
    given: seq<Address>)

  datatype Sys = Sys(shared: Shared, tasks: map<nat, Task>)

  const INITIAL := Sys(Shared(0, [], {}, [], [], []), map[])

  /** SELECT ... WHERE account_id = account. */
  function RowOf(addresses: seq<Address>, account: AccountId): Option<Address> {
    if |addresses| == 0 then None
    else
      var last := addresses[|addresses| - 1];
      if last.account == account then Some(last) else RowOf(addresses[..|addresses| - 1], account)
  }

  /** The primary key and the UNIQUE columns accept this row. */
  predicate Fresh(addresses: seq<Address>, row: Address) {
    forall i :: 0 <= i < |addresses| ==>
      addresses[i].account != row.account && addresses[i].index != row.index && addresses[i].address != row.address
  }

  datatype Move = Move(shared: Shared, stage: Stage)

  /** A request that knows its address returns it, or goes on to the claim. */
  function Know(s: Shared, t: Task, row: Address): Move {
    if t.faucet then Move(s, Claim(row)) else Move(s.(given := s.given + [row]), Returned(Some(row)))
  }

  function Fail(s: Shared): Move { Move(s, Returned(None)) }

  /** The request's next call. `derive` turns an index into an address. */
  function Next(s: Shared, t: Task, derive: nat -> string, o: Outcome, ata: string): Move {
    match t.stage
    case Lookup =>
      if o != Succeeded then Fail(s)
      else if RowOf(s.addresses, t.account).Some? then Know(s, t, RowOf(s.addresses, t.account).value)
      else Move(s, Draw)
    case Draw =>
      var v := if Applied(o) then s.(drawn := s.drawn + 1) else s;
      if o == Succeeded then Move(v, CreateAta(Truncated(v.drawn))) else Fail(v)
    case CreateAta(index) =>
      if o == Succeeded then Move(s, Insert(Address(t.account, index, derive(index), ata))) else Fail(s)
    case Insert(row) =>
      var stored := Fresh(s.addresses, row) && Applied(o);
      var v := if stored then s.(addresses := s.addresses + [row]) else s;
      if stored && o == Succeeded then Know(v, t, row) else Move(v, Relookup)
    case Relookup =>
      if o == Succeeded && RowOf(s.addresses, t.account).Some? then Know(s, t, RowOf(s.addresses, t.account).value)
      else Fail(s)
    case Claim(row) =>
      var claimed := t.account !in s.claims && Applied(o);
      var v := if claimed then s.(claims := s.claims + {t.account}) else s;
      if claimed && o == Succeeded then Move(v, Transfer(row)) else Fail(v)
    case Transfer(row) =>
      var v := if Applied(o) then s.(landed := s.landed + [t.account]) else s;
      if o == Succeeded then Move(v.(sent := v.sent + [t.account]), Returned(Some(row))) else Move(v, Release)
    case Release => Fail(if Applied(o) then s.(claims := s.claims - {t.account}) else s)
    case Returned(_) => Move(s, t.stage)
  }

  datatype Event = Begin(id: nat, account: AccountId, faucet: bool) | Call(id: nat, outcome: Outcome, ata: string)

  function Step(s: Sys, derive: nat -> string, e: Event): Sys {
    match e
    case Begin(id, account, faucet) => if id in s.tasks then s else s.(tasks := s.tasks[id := Task(account, faucet,
        Lookup)])
    case Call(id, o, ata) =>
      if id !in s.tasks then s
      else
        var t := s.tasks[id];
        var move := Next(s.shared, t, derive, o, ata);
        Sys(move.shared, s.tasks[id := t.(stage := move.stage)])
  }

  function Execute(derive: nat -> string, es: seq<Event>): Sys {
    if |es| == 0 then INITIAL else Step(Execute(derive, es[..|es| - 1]), derive, es[|es| - 1])
  }

  // ------------------------------------------------------------------- addresses

  predicate RowsDiffer(addresses: seq<Address>) {
    forall i, j :: 0 <= i < j < |addresses| ==>
      && addresses[i].account != addresses[j].account
      && addresses[i].index != addresses[j].index && addresses[i].address != addresses[j].address
  }

  /** A row being inserted is the request's own account's. */
  predicate InsertsOwn(t: Task) {
    t.stage.Insert? ==> t.stage.row.account == t.account
  }

  predicate AddressesOk(s: Sys) {
    && RowsDiffer(s.shared.addresses)
    && (forall r :: r in s.shared.given ==> r in s.shared.addresses)
    && (forall id :: id in s.tasks ==> InsertsOwn(s.tasks[id]))
  }

  lemma {:induction false} RowOfIsStored(addresses: seq<Address>, account: AccountId)
    ensures RowOf(addresses, account).Some? ==> RowOf(addresses, account).value in addresses
  {
    if |addresses| > 0 {
      RowOfIsStored(addresses[..|addresses| - 1], account);
    }
  }

  lemma NextKeepsAddresses(s: Shared, t: Task, derive: nat -> string, o: Outcome, ata: string)
    requires RowsDiffer(s.addresses) && InsertsOwn(t) && forall r :: r in s.given ==> r in s.addresses
    ensures var move := Next(s, t, derive, o, ata);
      && RowsDiffer(move.shared.addresses) && s.addresses <= move.shared.addresses
      && (forall r :: r in move.shared.given ==> r in move.shared.addresses)
      && InsertsOwn(t.(stage := move.stage))
  {
    hide RowOf;
    RowOfIsStored(s.addresses, t.account);
  }

  lemma StepKeepsAddresses(s: Sys, derive: nat -> string, e: Event)
    requires AddressesOk(s)
    ensures AddressesOk(Step(s, derive, e)) && s.shared.addresses <= Step(s, derive, e).shared.addresses
  {
    hide RowsDiffer, Next;
    if e.Call? && e.id in s.tasks {
      NextKeepsAddresses(s.shared, s.tasks[e.id], derive, e.outcome, e.ata);
    }
  }

  lemma {:induction false} ExecuteKeepsAddresses(derive: nat -> string, es: seq<Event>)
    ensures AddressesOk(Execute(derive, es))
  {
    hide Step, AddressesOk;
    if |es| > 0 {
      ExecuteKeepsAddresses(derive, es[..|es| - 1]);
      StepKeepsAddresses(Execute(derive, es[..|es| - 1]), derive, es[|es| - 1]);
    } else {
      InitialAddresses();
    }
  }

  lemma InitialAddresses()
    ensures AddressesOk(INITIAL)
  {
  }

  /** However provisioning requests interleave and fail, an account has at most
      one stored address, and every request for it that returns one returns that
      one. */
  lemma {:induction false} OneAddressForever(derive: nat -> string, es: seq<Event>, i: nat, j: nat)
    requires var s := Execute(derive, es).shared;
      i < |s.given| && j < |s.given| && s.given[i].account == s.given[j].account
    ensures var s := Execute(derive, es).shared;
      && s.given[i] == s.given[j] && s.given[i] in s.addresses
      && forall a, b :: 0 <= a < b < |s.addresses| ==> s.addresses[a].account != s.addresses[b].account
  {
    hide Execute;
    ExecuteKeepsAddresses(derive, es);
    var s := Execute(derive, es).shared;
    assert s.given[i] in s.given && s.given[j] in s.given;
  }

  // --------------------------------------------------------------------- indices

  function IndexHeld(t: Task): Option<nat> {
    match t.stage
    case CreateAta(index) => Some(index)
    case Insert(row) => Some(row.index)
    case _ => None
  }

  predicate StoredIndices(s: Shared) {
    && (forall i :: 0 <= i < |s.addresses| ==> 1 <= s.addresses[i].index <= s.drawn)
    && (forall i, j :: 0 <= i < j < |s.addresses| ==> s.addresses[i].index != s.addresses[j].index)
  }

  predicate NotStored(addresses: seq<Address>, index: nat) {
    forall i :: 0 <= i < |addresses| ==> addresses[i].index != index
  }

  /** The index in a request's hands was drawn and is not stored. */
  predicate HeldIndex(s: Shared, t: Task) {
    IndexHeld(t).Some? ==> 1 <= IndexHeld(t).value <= s.drawn && NotStored(s.addresses, IndexHeld(t).value)
  }

  /** Indices in use are distinct values from 1 to the last one drawn. */
  predicate IndicesOk(s: Sys) {
    && StoredIndices(s.shared)
    && (forall id :: id in s.tasks ==> HeldIndex(s.shared, s.tasks[id]))
    && (forall i, j :: i in s.tasks && j in s.tasks && i != j && IndexHeld(s.tasks[i]).Some? ==>
          IndexHeld(s.tasks[i]) != IndexHeld(s.tasks[j]))
  }

  /** A draw yields a new index, and only an insert stores one - its own. */
  lemma NextIndex(s: Shared, t: Task, derive: nat -> string, o: Outcome, ata: string)
    requires Next(s, t, derive, o, ata).shared.drawn < TWO_TO_32
    ensures var move := Next(s, t, derive, o, ata);
      var held, holds := IndexHeld(t), IndexHeld(t.(stage := move.stage));
      && s.drawn <= move.shared.drawn <= s.drawn + 1
      && (holds.Some? ==>
            holds == held || (move.shared == s.(drawn := s.drawn + 1) && holds == Some(move.shared.drawn)))
      && (move.shared.addresses == s.addresses ||
           (held.Some? && holds.None? && move.shared.drawn == s.drawn && t.stage.Insert?
            && Fresh(s.addresses, t.stage.row) && move.shared.addresses == s.addresses + [t.stage.row]))
  {
    hide RowOf, Fresh;
  }

  /** The moving request keeps the stored indices in order, and its own. */
  lemma NextStores(s: Shared, t: Task, derive: nat -> string, o: Outcome, ata: string)
    requires StoredIndices(s) && HeldIndex(s, t) && Next(s, t, derive, o, ata).shared.drawn < TWO_TO_32
    ensures var move := Next(s, t, derive, o, ata);
      StoredIndices(move.shared) && HeldIndex(move.shared, t.(stage := move.stage))
  {
    hide Next, Fresh;
    NextIndex(s, t, derive, o, ata);
  }

  /** Another request's index stays its own: neither drawn again nor stored. */
  lemma OthersKeepIndex(s: Shared, t: Task, other: Task, derive: nat -> string, o: Outcome,
      ata: string)
    requires HeldIndex(s, t) && HeldIndex(s, other) && Next(s, t, derive, o, ata).shared.drawn < TWO_TO_32
    requires IndexHeld(t).Some? ==> IndexHeld(t) != IndexHeld(other)
    ensures var move := Next(s, t, derive, o, ata);
      && HeldIndex(move.shared, other)
      && (IndexHeld(t.(stage := move.stage)).Some? ==> IndexHeld(t.(stage := move.stage)) != IndexHeld(other))
  {
    hide Next, Fresh;
    NextIndex(s, t, derive, o, ata);
  }

  lemma StepKeepsIndices(s: Sys, derive: nat -> string, e: Event)
    requires IndicesOk(s) && Step(s, derive, e).shared.drawn < TWO_TO_32
    ensures IndicesOk(Step(s, derive, e))
  {
    hide Next, StoredIndices, HeldIndex;
    if e.Call? && e.id in s.tasks {
      var t := s.tasks[e.id];
      NextStores(s.shared, t, derive, e.outcome, e.ata);
      forall id | id in s.tasks && id != e.id
        ensures var move := Next(s.shared, t, derive, e.outcome, e.ata);
          && HeldIndex(move.shared, s.tasks[id])
          && (IndexHeld(t.(stage := move.stage)).Some? ==> IndexHeld(t.(stage := move.stage)) != IndexHeld(s.tasks[id]))
      {
        OthersKeepIndex(s.shared, t, s.tasks[id], derive, e.outcome, e.ata);
      }
    } else if e.Begin? && e.id !in s.tasks {
      NothingHeld(s.shared, Task(e.account, e.faucet, Lookup));
    }
  }

  lemma NothingHeld(s: Shared, t: Task)
    requires t.stage.Lookup?
    ensures HeldIndex(s, t)
  {
  }

  lemma DrawnGrows(derive: nat -> string, s: Sys, e: Event)
    ensures s.shared.drawn <= Step(s, derive, e).shared.drawn
  {
    hide RowOf, Fresh;
  }

  lemma {:induction false} ExecuteKeepsIndices(derive: nat -> string, es: seq<Event>)
    requires Execute(derive, es).shared.drawn < TWO_TO_32
    ensures IndicesOk(Execute(derive, es))
  {
    hide Step, IndicesOk;
    if |es| > 0 {
      DrawnGrows(derive, Execute(derive, es[..|es| - 1]), es[|es| - 1]);
      ExecuteKeepsIndices(derive, es[..|es| - 1]);
      StepKeepsIndices(Execute(derive, es[..|es| - 1]), derive, es[|es| - 1]);
    } else {
      InitialIndices();
    }
  }

  lemma InitialIndices()
    ensures IndicesOk(INITIAL)
  {
  }

  /** While fewer than 2^32 indices have been drawn, no account gets the treasury's
      index 0, no two accounts share one, and an index never blocks an insert. */
  lemma {:induction false} IndicesAreDistinct(derive: nat -> string, es: seq<Event>)
    requires Execute(derive, es).shared.drawn < 4_294_967_296
    ensures var s := Execute(derive, es);
      && (forall i :: 0 <= i < |s.shared.addresses| ==> s.shared.addresses[i].index != 0)
      && (forall i, j :: 0 <= i < j < |s.shared.addresses| ==>
            s.shared.addresses[i].index != s.shared.addresses[j].index)
      && (forall id :: id in s.tasks && s.tasks[id].stage.Insert? ==>
            NotStored(s.shared.addresses, s.tasks[id].stage.row.index))
  {
    hide Execute;
    ExecuteKeepsIndices(derive, es);
  }

  /** The draw that reaches 2^32 is truncated to the treasury's index. */
  lemma TreasuryIndexIff(drawn: nat)
    requires 0 < drawn <= 4_294_967_296
    ensures Truncated(drawn) == 0 <==> drawn == 4_294_967_296
  {
  }

  // ---------------------------------------------------------------------- faucet

  /** Between its claim and the end of its transfer. */
  predicate Granting(t: Task) { t.stage.Transfer? || t.stage.Release? }

  predicate NoRepeats(accounts: seq<AccountId>) {
    forall i, j :: 0 <= i < j < |accounts| ==> accounts[i] != accounts[j]
  }

  predicate FaucetOk(s: Sys) {
    && (forall id :: id in s.tasks && Granting(s.tasks[id]) ==>
          s.tasks[id].account in s.shared.claims && s.tasks[id].account !in s.shared.sent)
    && (forall i, j :: i in s.tasks && j in s.tasks && i != j && Granting(s.tasks[i]) && Granting(s.tasks[j]) ==>
          s.tasks[i].account != s.tasks[j].account)
    && (forall a :: a in s.shared.sent ==> a in s.shared.claims)
    && NoRepeats(s.shared.sent)
  }

  /** How one call changes claims and grants. */
  lemma NextClaims(s: Shared, t: Task, derive: nat -> string, o: Outcome, ata: string)
    ensures var move := Next(s, t, derive, o, ata);
      var granting := Granting(t.(stage := move.stage));
      && (granting ==> Granting(t) || (t.account !in s.claims && t.account in move.shared.claims))
      && (move.shared.claims == s.claims || move.shared.claims == s.claims + {t.account}
          || (Granting(t) && !granting && move.shared.claims == s.claims - {t.account} && move.shared.sent == s.sent))
      && (move.shared.sent == s.sent
          || (Granting(t) && !granting && move.shared.claims == s.claims && move.shared.sent == s.sent + [t.account]))
  {
    hide RowOf, Fresh;
  }

  lemma StepKeepsFaucet(s: Sys, derive: nat -> string, e: Event)
    requires FaucetOk(s)
    ensures FaucetOk(Step(s, derive, e))
  {
    hide Next;
    if e.Call? && e.id in s.tasks {
      NextClaims(s.shared, s.tasks[e.id], derive, e.outcome, e.ata);
    }
  }

  lemma {:induction false} ExecuteKeepsFaucet(derive: nat -> string, es: seq<Event>)
    ensures FaucetOk(Execute(derive, es))
  {
    hide Step, FaucetOk;
    if |es| > 0 {
      ExecuteKeepsFaucet(derive, es[..|es| - 1]);
      StepKeepsFaucet(Execute(derive, es[..|es| - 1]), derive, es[|es| - 1]);
    } else {
      InitialFaucet();
    }
  }

  lemma InitialFaucet()
    ensures FaucetOk(INITIAL)
  {
  }

  /** Under any interleaving, at most one faucet transfer per account ever returns
      success. */
  lemma {:induction false} OneGrantReported(derive: nat -> string, es: seq<Event>, i: nat, j: nat)
    requires var s := Execute(derive, es).shared; i < j < |s.sent|
    ensures var s := Execute(derive, es).shared; s.sent[i] != s.sent[j]
  {
    hide Execute;
    ExecuteKeepsFaucet(derive, es);
  }

  // ------------------------------------------------------- what landed on chain

  /** No transfer was reported as failed although it landed. */
  predicate TransfersConfirm(derive: nat -> string, es: seq<Event>) {
    forall n :: 0 <= n < |es| && es[n].Call? && es[n].outcome == Unconfirmed ==>
      var tasks := Execute(derive, es[..n]).tasks;
      es[n].id in tasks ==> !tasks[es[n].id].stage.Transfer?
  }

  lemma NextLands(s: Shared, t: Task, derive: nat -> string, o: Outcome, ata: string)
    requires s.landed == s.sent && !(o == Unconfirmed && t.stage.Transfer?)
    ensures Next(s, t, derive, o, ata).shared.landed == Next(s, t, derive, o, ata).shared.sent
  {
    hide RowOf, Fresh;
  }

  /** Then the grants that landed are exactly those reported, one per account. */
  lemma {:induction false} OneGrantLands(derive: nat -> string, es: seq<Event>)
    requires TransfersConfirm(derive, es)
    ensures Execute(derive, es).shared.landed == Execute(derive, es).shared.sent
    ensures NoRepeats(Execute(derive, es).shared.landed)
  {
    hide Next;
    if |es| > 0 {
      var n := |es| - 1;
      var s, e := Execute(derive, es[..n]), es[n];
      forall k | 0 <= k < n ensures es[..n][..k] == es[..k] {
      }
      OneGrantLands(derive, es[..n]);
      if e.Call? && e.id in s.tasks {
        NextLands(s.shared, s.tasks[e.id], derive, e.outcome, e.ata);
      }
    }
    ExecuteKeepsFaucet(derive, es);
  }

  lemma {:induction false} ExecuteSnoc(derive: nat -> string, es: seq<Event>, e: Event)
    ensures Execute(derive, es + [e]) == Step(Execute(derive, es), derive, e)
  {
    assert (es + [e])[..|es|] == es;
  }

  /** Otherwise two can land: a transfer that landed is reported as failed, its
      claim is released, and the retry is granted again. */
  lemma GrantCanLandTwice(derive: nat -> string)
    ensures exists es :: Execute(derive, es).shared.landed == ["a", "a"]
  {
    hide Execute;
    var row := Address("a", 1, derive(1), "ata");
    var first := GrantUnreported(derive);
    var s := Execute(derive, first);
    var e0, e1, e2, e3 := Begin(1, "a", true), Call(1, Succeeded, ""), Call(1, Succeeded, ""), Call(1, Succeeded, "");
    ExecuteSnoc(derive, first, e0);
    var t0 := Step(s, derive, e0);
    assert t0 == Sys(s.shared, s.tasks[1 := Task("a", true, Lookup)]);
    ExecuteSnoc(derive, first + [e0], e1);
    var t1 := Step(t0, derive, e1);
    assert t1.shared == s.shared && t1.tasks[1] == Task("a", true, Claim(row));
    ExecuteSnoc(derive, first + [e0] + [e1], e2);
    var t2 := Step(t1, derive, e2);
    assert t2.shared == s.shared.(claims := {"a"}) && t2.tasks[1] == Task("a", true, Transfer(row));
    ExecuteSnoc(derive, first + [e0] + [e1] + [e2], e3);
    assert Execute(derive, first + [e0] + [e1] + [e2] + [e3]).shared.landed == ["a", "a"];
  }

  /** Provisioned, claimed, landed, reported as failed, released. */
  lemma GrantUnreported(derive: nat -> string) returns (es: seq<Event>)
    ensures var s := Execute(derive, es);
      && s.shared == Shared(1, [Address("a", 1, derive(1), "ata")], {}, ["a"], [], [])
      && s.tasks == map[0 := Task("a", true, Returned(None))]
  {
    hide Execute, RowOf, Fresh;
    es := Claimed(derive);
    var row := Address("a", 1, derive(1), "ata");
    var s := Execute(derive, es);
    ExecuteSnoc(derive, es, Call(0, Unconfirmed, "ata"));
    var t := Step(s, derive, Call(0, Unconfirmed, "ata"));
    assert t == Sys(s.shared.(landed := ["a"]), map[0 := Task("a", true, Release)]);
    es := es + [Call(0, Unconfirmed, "ata")];
    ExecuteSnoc(derive, es, Call(0, Succeeded, "ata"));
    es := es + [Call(0, Succeeded, "ata")];
  }

  lemma Claimed(derive: nat -> string) returns (es: seq<Event>)
    ensures var row := Address("a", 1, derive(1), "ata");
      Execute(derive, es) == Sys(Shared(1, [row], {"a"}, [], [], []), map[0 := Task("a", true, Transfer(row))])
  {
    hide Execute;
    es := Stored(derive);
    var s := Execute(derive, es);
    ExecuteSnoc(derive, es, Call(0, Succeeded, "ata"));
    assert Step(s, derive, Call(0, Succeeded, "ata")).shared.claims == {"a"};
    es := es + [Call(0, Succeeded, "ata")];
  }

  lemma Stored(derive: nat -> string) returns (es: seq<Event>)
    ensures var row := Address("a", 1, derive(1), "ata");
      Execute(derive, es) == Sys(Shared(1, [row], {}, [], [], []), map[0 := Task("a", true, Claim(row))])
  {
    hide Execute;
    var ok := Call(0, Succeeded, "ata");
    es := [Begin(0, "a", true)];
    Began(derive);
    ExecuteSnoc(derive, es, ok);
    assert Execute(derive, es + [ok]) == Sys(INITIAL.shared, map[0 := Task("a", true, Draw)]);
    ExecuteSnoc(derive, es + [ok], ok);
    var drawing := Sys(INITIAL.shared.(drawn := 1), map[0 := Task("a", true, CreateAta(1))]);
    assert Execute(derive, es + [ok] + [ok]) == drawing;
    es := es + [ok] + [ok];
    var s := Execute(derive, es);
    ExecuteSnoc(derive, es, ok);
    var inserting := Sys(s.shared, map[0 := Task("a", true, Insert(Address("a", 1, derive(1), "ata")))]);
    assert Execute(derive, es + [ok]) == inserting;
    ExecuteSnoc(derive, es + [ok], ok);
    es := es + [ok] + [ok];
  }

  lemma Began(derive: nat -> string)
    ensures Execute(derive, [Begin(0, "a", true)]) == Sys(INITIAL.shared, map[0 := Task("a", true, Lookup)])
  {
    hide Next;
    ExecuteSnoc(derive, [], Begin(0, "a", true));
    assert [] + [Begin(0, "a", true)] == [Begin(0, "a", true)];
  }

  // ------------------------------------------- exactly when an account is granted again

  /** How many grants of the account have landed. */
  function Landings(s: Sys, a: AccountId): nat { multiset(s.shared.landed)[a] }

  ghost predicate CanLandAgain(derive: nat -> string, es: seq<Event>, a: AccountId) {
    exists more: seq<Event> :: Landings(Execute(derive, es + more), a) > Landings(Execute(derive, es), a)
  }

  /** The account's claim stands, and no request of its is past claiming. */
  ghost predicate Closed(s: Sys, a: AccountId) {
    a in s.shared.claims && forall id :: id in s.tasks && s.tasks[id].account == a ==> !Granting(s.tasks[id])
  }

  /** What one call can do to claims and landed grants. */
  lemma NextGrants(s: Shared, t: Task, derive: nat -> string, o: Outcome, ata: string)
    ensures var move := Next(s, t, derive, o, ata);
      && (move.shared.claims == s.claims || move.shared.claims == s.claims + {t.account}
          || (Granting(t) && move.shared.claims == s.claims - {t.account}))
      && (move.shared.landed == s.landed || (Granting(t) && move.shared.landed == s.landed + [t.account]))
      && (Granting(t.(stage := move.stage)) ==> Granting(t) || t.account !in s.claims)
  {
    hide RowOf, Fresh;
  }

  lemma SomeoneElse(accounts: seq<AccountId>, b: AccountId, a: AccountId)
    requires a != b
    ensures multiset(accounts + [b])[a] == multiset(accounts)[a]
  {
  }

  lemma StaysClosed(s: Sys, derive: nat -> string, e: Event, a: AccountId)
    requires Closed(s, a)
    ensures Closed(Step(s, derive, e), a) && Landings(Step(s, derive, e), a) == Landings(s, a)
  {
    hide Next;
    if e.Call? && e.id in s.tasks {
      var t := s.tasks[e.id];
      NextGrants(s.shared, t, derive, e.outcome, e.ata);
      if t.account != a {
        SomeoneElse(s.shared.landed, t.account, a);
      }
    }
  }

  lemma {:induction false} ClosedForever(derive: nat -> string, es: seq<Event>, more: seq<Event>, a: AccountId)
    requires Closed(Execute(derive, es), a)
    ensures Closed(Execute(derive, es + more), a)
    ensures Landings(Execute(derive, es + more), a) == Landings(Execute(derive, es), a)
  {
    hide Closed, Landings, Step, Execute;
    if |more| == 0 {
      assert es + more == es;
    } else {
      var n := |more| - 1;
      ClosedForever(derive, es, more[..n], a);
      assert es + more == (es + more[..n]) + [more[n]];
      ExecuteSnoc(derive, es + more[..n], more[n]);
      StaysClosed(Execute(derive, es + more[..n]), derive, more[n], a);
    }
  }

  /** A request that has an address, and an account with a landed grant, has a row. */
  predicate HasRow(s: Shared, a: AccountId) { RowOf(s.addresses, a).Some? }

  predicate KnowsRow(t: Task) { t.stage.Claim? || Granting(t) }

  predicate RowsKnown(s: Sys) {
    && (forall id :: id in s.tasks && KnowsRow(s.tasks[id]) ==> HasRow(s.shared, s.tasks[id].account))
    && (forall a :: a in s.shared.landed ==> HasRow(s.shared, a))
  }

  lemma {:induction false} RowStays(addresses: seq<Address>, row: Address, a: AccountId)
    requires RowOf(addresses, a).Some? || row.account == a
    ensures RowOf(addresses + [row], a).Some?
  {
    assert (addresses + [row])[..|addresses|] == addresses;
  }

  lemma NextKnowsRow(s: Shared, t: Task, derive: nat -> string, o: Outcome, ata: string)
    requires InsertsOwn(t) && (KnowsRow(t) ==> HasRow(s, t.account))
    ensures var move := Next(s, t, derive, o, ata);
      && (forall a :: HasRow(s, a) ==> HasRow(move.shared, a))
      && (KnowsRow(t.(stage := move.stage)) ==> HasRow(move.shared, t.account))
      && (forall a :: a in move.shared.landed ==> a in s.landed || (a == t.account && HasRow(s, a)))
  {
    hide RowOf, Fresh;
    if t.stage.Insert? {
      forall a | HasRow(s, a) || a == t.account ensures RowOf(s.addresses + [t.stage.row], a).Some? {
        RowStays(s.addresses, t.stage.row, a);
      }
    }
  }

  lemma StepKnowsRows(s: Sys, derive: nat -> string, e: Event)
    requires RowsKnown(s) && AddressesOk(s)
    ensures RowsKnown(Step(s, derive, e))
  {
    hide Next, HasRow, RowsDiffer, InsertsOwn;
    if e.Call? && e.id in s.tasks {
      NextKnowsRow(s.shared, s.tasks[e.id], derive, e.outcome, e.ata);
    }
  }

  lemma {:induction false} ExecuteKnowsRows(derive: nat -> string, es: seq<Event>)
    ensures RowsKnown(Execute(derive, es))
  {
    hide Step, RowsKnown, AddressesOk;
    if |es| > 0 {
      var n := |es| - 1;
      ExecuteKnowsRows(derive, es[..n]);
      ExecuteKeepsAddresses(derive, es[..n]);
      StepKnowsRows(Execute(derive, es[..n]), derive, es[n]);
    } else {
      InitialRows();
    }
  }

  lemma InitialRows()
    ensures RowsKnown(INITIAL)
  {
  }

  lemma {:induction false} FreshId(ids: set<nat>) returns (id: nat)
    ensures id !in ids
    ensures forall i :: i in ids ==> i < id
    decreases |ids|
  {
    if ids == {} {
      id := 0;
    } else {
      var i :| i in ids;
      var other := FreshId(ids - {i});
      assert forall x :: x in ids ==> x == i || x in ids - {i};
      id := if other > i then other else i + 1;
    }
  }

  lemma OneMore(accounts: seq<AccountId>, a: AccountId)
    ensures multiset(accounts + [a])[a] == multiset(accounts)[a] + 1
  {
  }

  /** Once claimed, a transfer can land. */
  lemma {:induction false} TransferLands(derive: nat -> string, es: seq<Event>, id: nat)
    requires var s := Execute(derive, es); id in s.tasks && s.tasks[id].stage.Transfer?
    ensures Landings(Execute(derive, es + [Call(id, Succeeded, "")]), Execute(derive, es).tasks[id].account) ==
      Landings(Execute(derive, es), Execute(derive, es).tasks[id].account) + 1
  {
    hide Execute;
    ExecuteSnoc(derive, es, Call(id, Succeeded, ""));
    OneMore(Execute(derive, es).shared.landed, Execute(derive, es).tasks[id].account);
  }

  /** An unclaimed account with an address can claim anew. */
  lemma ClaimsAnew(derive: nat -> string, es: seq<Event>, a: AccountId)
      returns (more: seq<Event>, id: nat)
    requires var s := Execute(derive, es).shared; a !in s.claims && HasRow(s, a)
    ensures var s, t := Execute(derive, es), Execute(derive, es + more);
      && t.shared.landed == s.shared.landed
      && id in t.tasks && t.tasks[id].account == a && t.tasks[id].stage.Transfer?
  {
    hide Execute, RowOf, Fresh;
    var s := Execute(derive, es);
    id := FreshId(s.tasks.Keys);
    var begin, ok := Begin(id, a, true), Call(id, Succeeded, "");
    more := [begin] + [ok] + [ok];
    ExecuteSnoc(derive, es, begin);
    var s1 := Execute(derive, es + [begin]);
    assert s1 == Sys(s.shared, s.tasks[id := Task(a, true, Lookup)]);
    ExecuteSnoc(derive, es + [begin], ok);
    var s2 := Execute(derive, es + [begin] + [ok]);
    assert s2.shared == s.shared && id in s2.tasks && s2.tasks[id].stage.Claim? && s2.tasks[id].account == a;
    ExecuteSnoc(derive, es + [begin] + [ok], ok);
    assert es + [begin] + [ok] + [ok] == es + more;
  }

  /** A release can succeed, and leaves the account unclaimed. */
  lemma {:induction false} Releases(derive: nat -> string, es: seq<Event>, id: nat)
    requires var s := Execute(derive, es); id in s.tasks && s.tasks[id].stage.Release?
    ensures var s, t := Execute(derive, es), Execute(derive, es + [Call(id, Succeeded, "")]);
      t.shared == s.shared.(claims := s.shared.claims - {s.tasks[id].account})
  {
    hide Execute;
    ExecuteSnoc(derive, es, Call(id, Succeeded, ""));
  }

  lemma UnclaimedLandsAgain(derive: nat -> string, es: seq<Event>, a: AccountId)
    returns (more: seq<Event>)
    requires var s := Execute(derive, es).shared; a !in s.claims && HasRow(s, a)
    ensures Landings(Execute(derive, es + more), a) > Landings(Execute(derive, es), a)
  {
    hide Execute, HasRow;
    var claim, id := ClaimsAnew(derive, es, a);
    TransferLands(derive, es + claim, id);
    more := claim + [Call(id, Succeeded, "")];
    assert es + more == es + claim + [Call(id, Succeeded, "")];
  }

  /** In every state the interleaved calls reach, an account already granted can be
      granted again if and only if its claim is gone, or a request of its is about
      to transfer or to release the claim. */
  lemma {:induction false} LandsAgainIff(derive: nat -> string, es: seq<Event>, a: AccountId)
    requires a in Execute(derive, es).shared.landed
    ensures var s := Execute(derive, es);
      CanLandAgain(derive, es, a) <==>
        a !in s.shared.claims || exists id :: id in s.tasks && s.tasks[id].account == a && Granting(s.tasks[id])
  {
    hide Execute, HasRow, Landings, Granting;
    var s := Execute(derive, es);
    ExecuteKnowsRows(derive, es);
    if Closed(s, a) {
      forall more: seq<Event> ensures Landings(Execute(derive, es + more), a) == Landings(s, a) {
        ClosedForever(derive, es, more, a);
      }
    } else if a !in s.shared.claims {
      var more := UnclaimedLandsAgain(derive, es, a);
    } else {
      var id :| id in s.tasks && s.tasks[id].account == a && Granting(s.tasks[id]);
      GrantingLandsAgain(derive, es, a, id);
    }
  }

  lemma {:induction false} GrantingLandsAgain(derive: nat -> string, es: seq<Event>, a: AccountId, id: nat)
    requires var s := Execute(derive, es);
      HasRow(s.shared, a) && id in s.tasks && s.tasks[id].account == a && Granting(s.tasks[id])
    ensures CanLandAgain(derive, es, a)
  {
    hide Execute, HasRow, Landings;
    var s := Execute(derive, es);
    if s.tasks[id].stage.Transfer? {
      TransferLands(derive, es, id);
    } else {
      var released := [Call(id, Succeeded, "")];
      Releases(derive, es, id);
      SameLandings(s, Execute(derive, es + released), a);
      var more := UnclaimedLandsAgain(derive, es + released, a);
      assert es + released + more == es + (released + more);
    }
  }

  lemma SameLandings(s: Sys, t: Sys, a: AccountId)
    requires t.shared.landed == s.shared.landed && t.shared.addresses == s.shared.addresses
    ensures Landings(t, a) == Landings(s, a)
    ensures HasRow(t.shared, a) == HasRow(s.shared, a)
  {
  }

  // -------------------------------------------------- one request with nobody else

  /** The same tables, as the calls of a lone request and as a whole call see them. */
  predicate SameTables(w: Wallet, s: Shared) {
    && w.sequence == s.drawn && w.claims == s.claims
    && (forall i :: 0 <= i < |s.addresses| ==>
          s.addresses[i].account in w.addresses && w.addresses[s.addresses[i].account] == s.addresses[i])
    && (forall a :: a in w.addresses ==> RowOf(s.addresses, a) == Some(w.addresses[a]))
  }

  /** What comes of each call when these faults strike. */
  function OutcomeAt(stage: Stage, p: ProvisionFaults, f: FaucetFaults): Outcome {
    match stage
    case Lookup => if p.lookup then Succeeded else Lost
    case Draw => p.next
    case CreateAta(_) => if p.ata.Some? then Succeeded else Lost
    case Insert(_) => p.insert
    case Relookup => if p.relookup then Succeeded else Lost
    case Claim(_) => f.claim
    case Transfer(_) => if f.transfer then Succeeded else Lost
    case Release => f.release
    case Returned(_) => Succeeded
  }

  function AtaOf(p: ProvisionFaults): string { if p.ata.Some? then p.ata.value else "" }

  function Alone(s: Shared, t: Task, derive: nat -> string, p: ProvisionFaults, f: FaucetFaults, n: nat): Move {
    if n == 0 then Move(s, t.stage)
    else
      var m := Alone(s, t, derive, p, f, n - 1);
      Next(m.shared, t.(stage := m.stage), derive, OutcomeAt(m.stage, p, f), AtaOf(p))
  }

  lemma {:induction false} RowOfMissing(addresses: seq<Address>, account: AccountId)
    ensures RowOf(addresses, account).None? <==> forall i :: 0 <= i < |addresses| ==> addresses[i].account != account
  {
    if |addresses| > 0 {
      RowOfMissing(addresses[..|addresses| - 1], account);
    }
  }

  lemma FreshIsUnused(w: Wallet, s: Shared, row: Address)
    requires SameTables(w, s)
    ensures Fresh(s.addresses, row) <==> Unused(w.addresses, row)
  {
    RowOfMissing(s.addresses, row.account);
    forall a | a in w.addresses ensures w.addresses[a] in s.addresses {
      RowOfIsStored(s.addresses, a);
    }
    hide RowOf;
    if Fresh(s.addresses, row) {
      forall a | a in w.addresses ensures w.addresses[a].index != row.index && w.addresses[a].address != row.address {
        var i :| 0 <= i < |s.addresses| && s.addresses[i] == w.addresses[a];
      }
    }
  }

  lemma InsertedTables(w: Wallet, s: Shared, row: Address)
    requires SameTables(w, s) && Fresh(s.addresses, row)
    ensures SameTables(w.(addresses := w.addresses[row.account := row]), s.(addresses := s.addresses + [row]))
  {
    var after := s.addresses + [row];
    assert after[..|s.addresses|] == s.addresses;
  }

  lemma {:induction false} AloneLooksUp(w: Wallet, s: Shared, derive: nat -> string, account: AccountId,
      faucet: bool, p: ProvisionFaults, f: FaucetFaults)
    requires SameTables(w, s)
    ensures var t := Task(account, faucet, Lookup);
      Alone(s, t, derive, p, f, 1) ==
        if !p.lookup then Fail(s)
        else if account in w.addresses then Know(s, t, w.addresses[account])
        else Move(s, Draw)
  {
    RowOfMissing(s.addresses, account);
    var t := Task(account, faucet, Lookup);
    assert Alone(s, t, derive, p, f, 0) == Move(s, Lookup);
  }

  lemma AloneStep(s: Shared, t: Task, derive: nat -> string, p: ProvisionFaults,
      f: FaucetFaults, n: nat)
    requires n > 0
    ensures var m := Alone(s, t, derive, p, f, n - 1);
      && Alone(s, t, derive, p, f, n) ==
           Next(m.shared, t.(stage := m.stage), derive, OutcomeAt(m.stage, p, f), AtaOf(p))
      && (m.stage.Returned? ==> Alone(s, t, derive, p, f, n) == m)
  {
    hide RowOf, Fresh;
  }

  /** After the insert a row is stored for the account exactly if it was stored. */
  lemma {:induction false} Relooked(s: Shared, row: Address, account: AccountId)
    requires row.account == account && RowOf(s.addresses, account).None?
    ensures RowOf(s.addresses + [row], account) == Some(row)
  {
    assert (s.addresses + [row])[..|s.addresses|] == s.addresses;
  }

  /** From the insert on, with no row stored for the account. */
  lemma InsertAlone(s: Shared, t: Task, derive: nat -> string, p: ProvisionFaults, f: FaucetFaults, v: Shared,
      row: Address)
    requires Alone(s, t, derive, p, f, 3) == Move(v, Insert(row)) && !t.faucet
    requires row.account == t.account && RowOf(v.addresses, t.account).None?
    ensures var stored := Fresh(v.addresses, row) && Applied(p.insert);
      var known := stored && (p.insert == Succeeded || p.relookup);
      Alone(s, t, derive, p, f, 5) ==
        Move(v.(addresses := if stored then v.addresses + [row] else v.addresses,
                given := if known then v.given + [row] else v.given),
             Returned(if known then Some(row) else None))
  {
    hide RowOf, Fresh, Alone;
    AloneStep(s, t, derive, p, f, 4);
    AloneStep(s, t, derive, p, f, 5);
    Relooked(v, row, t.account);
  }

  /** A lone provisioning request, call by call, does what the whole call does. */
  lemma {:induction false} ProvisionAlone(w: Wallet, s: Shared, derive: nat -> string, account: AccountId,
      p: ProvisionFaults, f: FaucetFaults)
    requires SameTables(w, s)
    ensures var whole := Provision(w, derive, account, p);
      var alone := Alone(s, Task(account, false, Lookup), derive, p, f, 5);
      && alone.stage == Returned(whole.row) && SameTables(whole.wallet, alone.shared)
      && alone.shared.given == s.given + (if whole.row.Some? then [whole.row.value] else [])
  {
    hide RowOf, Fresh, Alone, Unused, Truncated;
    var t := Task(account, false, Lookup);
    AloneLooksUp(w, s, derive, account, false, p, f);
    AloneStep(s, t, derive, p, f, 2);
    AloneStep(s, t, derive, p, f, 3);
    if Alone(s, t, derive, p, f, 3).stage.Returned? {
      AloneStep(s, t, derive, p, f, 4);
      AloneStep(s, t, derive, p, f, 5);
    }
    if p.lookup && account !in w.addresses && p.next == Succeeded && p.ata.Some? {
      var drawn, v := w.(sequence := w.sequence + 1), s.(drawn := s.drawn + 1);
      var row := Address(account, Truncated(v.drawn), derive(Truncated(v.drawn)), p.ata.value);
      assert Alone(s, t, derive, p, f, 3) == Move(v, Insert(row));
      FreshIsUnused(drawn, v, row);
      NotStoredYet(w, s, account);
      InsertAlone(s, t, derive, p, f, v, row);
      if Fresh(s.addresses, row) {
        InsertedTables(drawn, v, row);
      }
    }
  }

  lemma {:induction false} NotStoredYet(w: Wallet, s: Shared, account: AccountId)
    requires SameTables(w, s) && account !in w.addresses
    ensures RowOf(s.addresses, account).None?
  {
    RowOfMissing(s.addresses, account);
  }

  /** Once a faucet request knows its address. */
  lemma {:induction false} FaucetClaimed(s: Shared, t: Task, derive: nat -> string, p: ProvisionFaults,
      f: FaucetFaults, n: nat, row: Address)
    requires Alone(s, t, derive, p, f, n).stage == Claim(row) && n <= 5
    ensures var v, m := Alone(s, t, derive, p, f, n).shared, Alone(s, t, derive, p, f, 8);
      && m.stage.Returned?
      && (m.stage.address.Some? <==> f.claim == Succeeded && t.account !in v.claims && f.transfer)
      && m.shared == v.(
           claims := if t.account !in v.claims && Applied(f.claim) && !GivesBack(f) then v.claims + {t.account}
                     else v.claims,
           sent := if m.stage.address.Some? then v.sent + [t.account] else v.sent,
           landed := if m.stage.address.Some? then v.landed + [t.account] else v.landed)
  {
    hide Alone;
    var v := Alone(s, t, derive, p, f, n).shared;
    assert v.claims + {t.account} - {t.account} == v.claims - {t.account};
    assert t.account !in v.claims ==> v.claims - {t.account} == v.claims;
    AloneStep(s, t, derive, p, f, n + 1);
    AloneStep(s, t, derive, p, f, n + 2);
    AloneStep(s, t, derive, p, f, n + 3);
    StaysReturned(s, t, derive, p, f, n + 3, 8);
  }

  lemma {:induction false} StaysReturned(s: Shared, t: Task, derive: nat -> string, p: ProvisionFaults,
      f: FaucetFaults, n: nat, k: nat)
    requires n <= k && Alone(s, t, derive, p, f, n).stage.Returned?
    ensures Alone(s, t, derive, p, f, k) == Alone(s, t, derive, p, f, n)
    decreases k - n
  {
    hide Alone;
    if n < k {
      AloneStep(s, t, derive, p, f, n + 1);
      StaysReturned(s, t, derive, p, f, n + 1, k);
    }
  }

  /** Up to the claim, a lone faucet request does what provisioning does. */
  lemma FaucetProvisions(w: Wallet, s: Shared, derive: nat -> string, account: AccountId,
      p: ProvisionFaults, f: FaucetFaults) returns (n: nat)
    requires SameTables(w, s)
    ensures var whole := Provision(w, derive, account, p);
      var m := Alone(s, Task(account, true, Lookup), derive, p, f, n);
      && n <= 5 && SameTables(whole.wallet, m.shared)
      && m.stage == (if whole.row.Some? then Claim(whole.row.value) else Returned(None))
      && m.shared.sent == s.sent && m.shared.landed == s.landed
  {
    hide RowOf, Fresh, Alone, Unused, Truncated;
    var t := Task(account, true, Lookup);
    n := 1;
    AloneLooksUp(w, s, derive, account, true, p, f);
    if p.lookup && account !in w.addresses {
      n := 2;
      AloneStep(s, t, derive, p, f, 2);
      if p.next == Succeeded {
        n := 3;
        AloneStep(s, t, derive, p, f, 3);
        if p.ata.Some? {
          var drawn, v := w.(sequence := w.sequence + 1), s.(drawn := s.drawn + 1);
          var row := Address(account, Truncated(v.drawn), derive(Truncated(v.drawn)), p.ata.value);
          assert Alone(s, t, derive, p, f, 3) == Move(v, Insert(row));
          FreshIsUnused(drawn, v, row);
          NotStoredYet(w, s, account);
          AloneStep(s, t, derive, p, f, 4);
          AloneStep(s, t, derive, p, f, 5);
          if Fresh(s.addresses, row) {
            InsertedTables(drawn, v, row);
            Relooked(v, row, account);
          }
          n := if Fresh(s.addresses, row) && p.insert == Succeeded then 4 else 5;
        }
      }
    }
  }

  /** A lone faucet request, call by call, does what the whole call does, and lands
      and reports a grant exactly when that succeeds. */
  lemma {:induction false} FaucetAlone(w: Wallet, s: Shared, derive: nat -> string, account: AccountId,
      p: ProvisionFaults, f: FaucetFaults)
    requires SameTables(w, s)
    ensures var whole := Faucet(w, derive, account, p, f);
      var alone := Alone(s, Task(account, true, Lookup), derive, p, f, 8);
      && alone.stage.Returned? && (alone.stage.address.Some? <==> whole.error.None?)
      && SameTables(whole.wallet, alone.shared)
      && alone.shared.sent == (if whole.error.None? then s.sent + [account] else s.sent)
      && alone.shared.landed == (if whole.error.None? then s.landed + [account] else s.landed)
  {
    hide RowOf, Alone, Provision, Next;
    var t := Task(account, true, Lookup);
    var n := FaucetProvisions(w, s, derive, account, p, f);
    var provisioned := Provision(w, derive, account, p);
    if provisioned.row.Some? {
      FaucetClaimed(s, t, derive, p, f, n, provisioned.row.value);
    } else {
      ProvisionFails(w, derive, account, p);
      StaysReturned(s, t, derive, p, f, n, 8);
    }
  }

  lemma ProvisionFails(w: Wallet, derive: nat -> string, account: AccountId, p: ProvisionFaults)
    ensures Provision(w, derive, account, p).row.None? <==> Provision(w, derive, account, p).error.Some?
  {
  }

  // -------------------------------------------------- when the treasury's index comes up

  /** Every row, stored or about to be, has the address of its index. */
  predicate RowDerived(row: Address, derive: nat -> string) { row.address == derive(row.index) }

  predicate TaskDerived(t: Task, derive: nat -> string) { t.stage.Insert? ==> RowDerived(t.stage.row, derive) }

  predicate AllDerived(s: Sys, derive: nat -> string) {
    && (forall i :: 0 <= i < |s.shared.addresses| ==> RowDerived(s.shared.addresses[i], derive))
    && (forall id :: id in s.tasks ==> TaskDerived(s.tasks[id], derive))
  }

  lemma NextKeepsDerived(s: Shared, t: Task, derive: nat -> string, o: Outcome, ata: string)
    requires TaskDerived(t, derive) && forall i :: 0 <= i < |s.addresses| ==> RowDerived(s.addresses[i], derive)
    ensures var move := Next(s, t, derive, o, ata);
      && (forall i :: 0 <= i < |move.shared.addresses| ==> RowDerived(move.shared.addresses[i], derive))
      && TaskDerived(t.(stage := move.stage), derive)
  {
    hide RowOf, Fresh;
  }

  lemma {:induction false} ExecuteKeepsDerived(derive: nat -> string, es: seq<Event>)
    ensures AllDerived(Execute(derive, es), derive)
  {
    hide Next;
    if |es| > 0 {
      var n := |es| - 1;
      ExecuteKeepsDerived(derive, es[..n]);
      var s, e := Execute(derive, es[..n]), es[n];
      if e.Call? && e.id in s.tasks {
        NextKeepsDerived(s.shared, s.tasks[e.id], derive, e.outcome, e.ata);
      }
    }
  }

  predicate HasIndexZero(addresses: seq<Address>) {
    exists i :: 0 <= i < |addresses| && addresses[i].index == 0
  }

  /** Drawing at most `draws` more indices, some continuation gives an account the
      treasury's index 0. */
  ghost predicate ZeroWithin(derive: nat -> string, es: seq<Event>, draws: nat) {
    exists more: seq<Event> ::
      && Execute(derive, es + more).shared.drawn <= Execute(derive, es).shared.drawn + draws
      && HasIndexZero(Execute(derive, es + more).shared.addresses)
  }

  lemma {:induction false} AddressesGrow(derive: nat -> string, es: seq<Event>, more: seq<Event>)
    ensures Execute(derive, es).shared.addresses <= Execute(derive, es + more).shared.addresses
  {
    hide Step, AddressesOk, Execute;
    if |more| == 0 {
      assert es + more == es;
    } else {
      var n := |more| - 1;
      AddressesGrow(derive, es, more[..n]);
      assert es + more == (es + more[..n]) + [more[n]];
      ExecuteSnoc(derive, es + more[..n], more[n]);
      ExecuteKeepsAddresses(derive, es + more[..n]);
      StepKeepsAddresses(Execute(derive, es + more[..n]), derive, more[n]);
    }
  }

  /** Draws whose requests fail afterwards. */
  lemma {:induction false} DrawsLost(derive: nat -> string, es: seq<Event>, n: nat) returns (more: seq<Event>)
    ensures var s, t := Execute(derive, es).shared, Execute(derive, es + more).shared;
      t.drawn == s.drawn + n && t.addresses == s.addresses
  {
    hide Execute, RowOf, Fresh;
    if n == 0 {
      more := [];
      assert es + more == es;
    } else {
      var before := DrawsLost(derive, es, n - 1);
      var after := DrawLost(derive, es + before);
      more := before + after;
      assert es + more == es + before + after;
    }
  }

  lemma DrawLost(derive: nat -> string, es: seq<Event>) returns (more: seq<Event>)
    ensures var s, t := Execute(derive, es).shared, Execute(derive, es + more).shared;
      t.drawn == s.drawn + 1 && t.addresses == s.addresses
  {
    hide Execute, Fresh;
    var s := Execute(derive, es);
    var id := FreshId(s.tasks.Keys);
    var a := NewAccount(s.shared.addresses);
    more := Looked(derive, es, id, a);
    var lost := Call(id, Unconfirmed, "");
    ExecuteSnoc(derive, es + more, lost);
    assert es + more + [lost] == es + (more + [lost]);
    more := more + [lost];
  }

  /** A request of an account without an address gets as far as the draw. */
  lemma Looked(derive: nat -> string, es: seq<Event>, id: nat, a: AccountId) returns (more: seq<Event>)
    requires id !in Execute(derive, es).tasks && RowOf(Execute(derive, es).shared.addresses, a).None?
    ensures var s := Execute(derive, es);
      Execute(derive, es + more) == Sys(s.shared, s.tasks[id := Task(a, false, Draw)])
  {
    hide Execute, RowOf, Fresh;
    var s := Execute(derive, es);
    var begin, ok := Begin(id, a, false), Call(id, Succeeded, "");
    more := [begin] + [ok];
    ExecuteSnoc(derive, es, begin);
    assert Execute(derive, es + [begin]) == Sys(s.shared, s.tasks[id := Task(a, false, Lookup)]);
    ExecuteSnoc(derive, es + [begin], ok);
    assert es + [begin] + [ok] == es + more;
    assert s.tasks[id := Task(a, false, Lookup)][id := Task(a, false, Draw)] == s.tasks[id := Task(a, false, Draw)];
  }

  /** A name longer than any in use is new. */
  lemma {:induction false} NewAccount(addresses: seq<Address>) returns (a: AccountId)
    ensures forall i :: 0 <= i < |addresses| ==> |addresses[i].account| < |a|
    ensures RowOf(addresses, a).None?
  {
    if |addresses| == 0 {
      a := "a";
    } else {
      var n := |addresses| - 1;
      var b := NewAccount(addresses[..n]);
      a := b + addresses[n].account + "a";
    }
    RowOfMissing(addresses, a);
  }

  /** The draw that is truncated to 0 can be stored. */
  lemma StoresZero(derive: nat -> string, es: seq<Event>) returns (more: seq<Event>)
    requires Execute(derive, es).shared.drawn == TWO_TO_32 - 1
    requires forall r :: r in Execute(derive, es).shared.addresses ==> r.address != derive(0)
    ensures var s, t := Execute(derive, es).shared, Execute(derive, es + more).shared;
      t.drawn == s.drawn + 1 && HasIndexZero(t.addresses)
  {
    hide Execute, RowOf;
    var s := Execute(derive, es);
    ExecuteKeepsIndices(derive, es);
    var id := FreshId(s.tasks.Keys);
    var a := NewAccount(s.shared.addresses);
    var looked := Looked(derive, es, id, a);
    var ok := Call(id, Succeeded, "");
    var row := Address(a, 0, derive(0), "");
    ExecuteSnoc(derive, es + looked, ok);
    var s1 := Execute(derive, es + looked + [ok]);
    assert s1.shared == s.shared.(drawn := TWO_TO_32) && id in s1.tasks && s1.tasks[id] == Task(a, false, CreateAta(0));
    ExecuteSnoc(derive, es + looked + [ok], ok);
    var s2 := Execute(derive, es + looked + [ok] + [ok]);
    assert s2.shared == s1.shared && id in s2.tasks && s2.tasks[id] == Task(a, false, Insert(row));
    FreshRow(s.shared, a, derive);
    ExecuteSnoc(derive, es + looked + [ok] + [ok], ok);
    more := looked + [ok] + [ok] + [ok];
    assert es + looked + [ok] + [ok] + [ok] == es + more;
    var t := Execute(derive, es + more).shared;
    assert t.addresses == s.shared.addresses + [row];
    assert t.addresses[|s.shared.addresses|].index == 0;
  }

  lemma FreshRow(s: Shared, a: AccountId, derive: nat -> string)
    requires StoredIndices(s) && forall i :: 0 <= i < |s.addresses| ==> |s.addresses[i].account| < |a|
    requires forall r :: r in s.addresses ==> r.address != derive(0)
    ensures Fresh(s.addresses, Address(a, 0, derive(0), ""))
  {
  }

  /** Before the sequence reaches 2^32, some continuation with at most `draws` more
      draws gives an account the treasury's index if and only if those draws reach it
      - and no stored address happens to equal the treasury's. */
  lemma ZeroWithinIff(derive: nat -> string, es: seq<Event>, draws: nat)
    requires Execute(derive, es).shared.drawn < 4_294_967_296
    ensures var s := Execute(derive, es).shared;
      ZeroWithin(derive, es, draws) <==>
        s.drawn + draws >= 4_294_967_296 && forall r :: r in s.addresses ==> r.address != derive(0)
  {
    hide Execute, AddressesOk, IndicesOk;
    var s := Execute(derive, es).shared;
    if more: seq<Event> :|
      Execute(derive, es + more).shared.drawn <= s.drawn + draws &&
      HasIndexZero(Execute(derive, es + more).shared.addresses)
    {
      ZeroMeans(derive, es, more);
    }
    if s.drawn + draws >= TWO_TO_32 && forall r :: r in s.addresses ==> r.address != derive(0) {
      var drained := DrawsLost(derive, es, TWO_TO_32 - 1 - s.drawn);
      var stored := StoresZero(derive, es + drained);
      assert es + drained + stored == es + (drained + stored);
    }
  }

  lemma ZeroMeans(derive: nat -> string, es: seq<Event>, more: seq<Event>)
    requires Execute(derive, es).shared.drawn < TWO_TO_32
    requires HasIndexZero(Execute(derive, es + more).shared.addresses)
    ensures Execute(derive, es + more).shared.drawn >= TWO_TO_32
    ensures forall r :: r in Execute(derive, es).shared.addresses ==> r.address != derive(0)
  {
    hide Execute;
    var s, t := Execute(derive, es).shared, Execute(derive, es + more).shared;
    ExecuteKeepsIndices(derive, es);
    if t.drawn < TWO_TO_32 {
      ExecuteKeepsIndices(derive, es + more);
    }
    AddressesGrow(derive, es, more);
    ExecuteKeepsAddresses(derive, es + more);
    ExecuteKeepsDerived(derive, es + more);
    var z :| 0 <= z < |t.addresses| && t.addresses[z].index == 0;
    forall r | r in s.addresses ensures r.address != derive(0) {
      var i :| 0 <= i < |s.addresses| && s.addresses[i] == r;
      assert t.addresses[i] == s.addresses[i] && i != z;
      assert RowDerived(t.addresses[z], derive);
    }
  }
}
