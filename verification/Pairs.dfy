/** Two transactions in flight: any two logs that their programs could each have
    alone, and whose locks do not conflict, come about together in some interleaving.
    So whether two requests can end up waiting for each other is decided by such a
    pair of logs. */
module Pairs {
  import opened Tables
  import opened Transactions
  import opened Invariants
  import opened Locking
  import opened Isolation
  import opened Guards
  import opened Serializability
  import opened Deadlock
  import Runs

  const FIRST: nat := 0
  const SECOND: nat := 1

  // -------------------------------------------------------------- a log cut short

  /** The transaction after its first `n` statements. */
  function Cut(tx: Tx, n: nat): Tx
    requires n <= |tx.log|
  {
    Tx(tx.request, tx.log[..n])
  }

  lemma CutRunning(db: Db, tx: Tx, n: nat)
    requires Running(db, tx) && n <= |tx.log|
    ensures Running(db, Cut(tx, n))
    ensures n < |tx.log| ==> Ran(tx, n)
  {
    hide Next, Answers, View, Written;
    var cut := Cut(tx, n);
    forall j | 0 <= j < n ensures Ran(cut, j) && Answers(View(db, cut, j), StatementAt(cut, j), cut.log[j]) {
      assert cut.log[..j] == tx.log[..j];
      assert Ran(tx, j);
      SameView(db, tx, n, j);
    }
    if n < |tx.log| {
      assert Ran(tx, n);
    } else {
      assert tx.log[..n] == tx.log;
    }
  }

  lemma SameView(db: Db, tx: Tx, n: nat, j: nat)
    requires j <= n <= |tx.log|
    ensures View(db, Cut(tx, n), j) == View(db, tx, j)
  {
    hide Merge, Written;
    WrittenPrefix(Cut(tx, n), tx, j);
  }

  // ------------------------------------------------------------ running to that log

  function RowsOf(reply: Reply): seq<Holding> {
    if reply.HoldingsAre? then reply.holdings else []
  }

  /** A statement the transaction did run is not blocked by a compatible one. */
  lemma NotBlocked(db: Db, tx: Tx, n: nat, other: Tx)
    requires Running(db, tx) && n < |tx.log| && Compatible(tx, other) && Ran(tx, n)
    ensures !Blocks(db, other, StatementAt(tx, n), Ask(View(db, tx, n), StatementAt(tx, n)))
  {
    hide Running, Compatible, Ask, View, Holds, Locks, Written, NoInserts, Answers, ScriptOf, Views, Missing, HasListed;
    var s := StatementAt(tx, n);
    StatementIs(db, tx, n);
    AnswersAsk(View(db, tx, n), s, tx.log[n]);
    forall x, y | x in Locks(s, Ask(View(db, tx, n), s)) && Holds(other, y) && x.row == y.row
      ensures !Conflicts(x.mode, y.mode)
    {
      HoldsOwn(tx, n, x);
      CompatibleRows(tx, other, x, y);
    }
    if s.InsertListing? && Replacing(db, other, s.listingRow.bet) {
      WrittenBefore(db, tx, n, n);
      ViewOfNothing(db, tx, n);
      InsertedIsNew(db, s, tx.log[n]);
    }
  }

  lemma CompatibleRows(a: Tx, b: Tx, x: Lock, y: Lock)
    requires Compatible(a, b) && Holds(a, x) && Holds(b, y) && x.row == y.row
    ensures !Conflicts(x.mode, y.mode)
  {
    hide Holds;
  }

  lemma ViewOfNothing(db: Db, tx: Tx, n: nat)
    requires Written(tx, n) == NOTHING
    ensures View(db, tx, n) == db
  {
    hide Merge, Written;
    MergeNothing(db);
  }

  lemma InsertedIsNew(db: Db, s: Statement, reply: Reply)
    requires s.InsertListing? && reply == Ask(db, s) && !Missing(s, reply)
    ensures forall l :: 0 <= l < |db.listings| && db.listings[l].bet == s.listingRow.bet ==>
      db.listings[l].status != Listed
  {
  }

  /** One more statement of `tx`, beside compatible others. */
  lemma StepTo(s: Sys, id: nat, tx: Tx, n: nat)
    requires id in s.txs && n < |tx.log| && s.txs[id] == Cut(tx, n) && Running(s.db, tx)
    requires forall other :: other in s.txs && other != id ==> Compatible(tx, s.txs[other])
    ensures Step(s, Advance(id, RowsOf(tx.log[n]))) == s.(txs := s.txs[id := Cut(tx, n + 1)])
  {
    hide Replays, Next, View, Compatible, Blocks, Answers, Ask;
    var rows, cut := RowsOf(tx.log[n]), Cut(tx, n);
    CutRunning(s.db, tx, n);
    CutRunning(s.db, tx, n + 1);
    SameView(s.db, tx, n, n);
    RanAnswer(s.db, tx, n);
    forall other ensures !Waits(s, id, other) {
      if other in s.txs && other != id {
        NotBlocked(s.db, tx, n, s.txs[other]);
      }
    }
    assert ReplyIn(s.db, cut, rows) == tx.log[n];
    assert cut.log + [tx.log[n]] == tx.log[..n + 1];
  }

  /** The logged reply is the one its rows give. */
  lemma RanAnswer(db: Db, tx: Tx, n: nat)
    requires Running(db, tx) && n < |tx.log| && Ran(tx, n)
    ensures Answers(View(db, tx, n), StatementAt(tx, n), tx.log[n])
    ensures var s := StatementAt(tx, n);
      tx.log[n] == if ReadsBets(s) then HoldingsAre(RowsOf(tx.log[n])) else Ask(View(db, tx, n), s)
  {
    hide Next, View, Holders, Winners;
  }

  /** Events that start nothing. */
  predicate Continues(es: seq<Event>) { forall k :: 0 <= k < |es| ==> !es[k].Begin? }

  lemma ExecuteLast(s: Sys, es: seq<Event>, e: Event)
    ensures Execute(s, es + [e]) == Step(Execute(s, es), e)
  {
    hide Step;
    assert (es + [e])[..|es|] == es;
  }

  lemma {:induction false} RunTo(init: Sys, es: seq<Event>, id: nat, tx: Tx, n: nat) returns (more: seq<Event>)
    requires var s := Execute(init, es);
      && id in s.txs && s.txs[id] == Cut(tx, 0) && Running(s.db, tx) && n <= |tx.log|
      && forall other :: other in s.txs && other != id ==> Compatible(tx, s.txs[other])
    ensures var s := Execute(init, es); Execute(init, es + more) == s.(txs := s.txs[id := Cut(tx, n)])
    ensures Continues(more)
  {
    hide Running, Compatible, Step, Execute;
    var s := Execute(init, es);
    if n == 0 {
      more := [];
      assert es + more == es && s.txs[id := Cut(tx, 0)] == s.txs;
    } else {
      var before := RunTo(init, es, id, tx, n - 1);
      var e := Advance(id, RowsOf(tx.log[n - 1]));
      ExecuteLast(init, es + before, e);
      StepTo(Execute(init, es + before), id, tx, n - 1);
      more := before + [e];
      assert es + before + [e] == es + more;
      assert s.txs[id := Cut(tx, n - 1)][id := Cut(tx, n)] == s.txs[id := Cut(tx, n)];
    }
  }

  lemma BeginStep(s: Sys, id: nat, r: Request)
    requires id !in s.txs && !Next(r, []).Abort?
    ensures Step(s, Begin(id, r)) == s.(txs := s.txs[id := Tx(r, [])])
  {
    hide Next;
  }

  lemma ExecuteNothing(s: Sys)
    ensures Execute(s, []) == s
  {
    hide Step;
  }

  lemma StartsRunning(db: Db, tx: Tx)
    requires Running(db, tx)
    ensures !Next(tx.request, []).Abort? && Cut(tx, 0) == Tx(tx.request, []) && Cut(tx, |tx.log|) == tx
  {
    hide Next, Replays;
    CutRunning(db, tx, 0);
    assert tx.log[..|tx.log|] == tx.log && tx.log[..0] == [];
  }

  /** Nothing but these two requests is ever started. */
  predicate OnlyThese(es: seq<Event>, ra: Request, rb: Request) {
    forall k :: 0 <= k < |es| && es[k].Begin? ==> es[k] == Begin(FIRST, ra) || es[k] == Begin(SECOND, rb)
  }

  lemma OnlyTheseAppend(es: seq<Event>, more: seq<Event>, ra: Request, rb: Request)
    requires OnlyThese(es, ra, rb) && (Continues(more) || more == [Begin(FIRST, ra)] || more == [Begin(SECOND, rb)])
    ensures OnlyThese(es + more, ra, rb)
  {
  }

  /** Both transactions, at exactly these logs. */
  lemma ReachesBoth(db: Db, a: Tx, b: Tx) returns (es: seq<Event>)
    requires Running(db, a) && Running(db, b) && Compatible(a, b)
    ensures OnlyThese(es, a.request, b.request)
    ensures Execute(Sys(db, map[], []), es) == Sys(db, map[FIRST := a, SECOND := b], [])
  {
    hide Running, Compatible, Step, Execute, Next, Cut;
    var init := Sys(db, map[], []);
    var b0, b1 := Begin(FIRST, a.request), Begin(SECOND, b.request);
    StartsRunning(db, a);
    StartsRunning(db, b);
    ExecuteNothing(init);
    ExecuteLast(init, [], b0);
    BeginStep(init, FIRST, a.request);
    assert [] + [b0] == [b0];
    var firstRun := RunTo(init, [b0], FIRST, a, |a.log|);
    var es1 := [b0] + firstRun;
    assert Execute(init, es1) == Sys(db, map[FIRST := a], []);
    ExecuteLast(init, es1, b1);
    BeginStep(Execute(init, es1), SECOND, b.request);
    CompatibleSymmetric(a, b);
    var secondRun := RunTo(init, es1 + [b1], SECOND, b, |b.log|);
    es := es1 + [b1] + secondRun;
    OnlyTheseAppend([b0], firstRun, a.request, b.request);
    OnlyTheseAppend(es1, [b1], a.request, b.request);
    OnlyTheseAppend(es1 + [b1], secondRun, a.request, b.request);
    var m := map[FIRST := a][SECOND := Tx(b.request, [])][SECOND := b];
    assert m == map[FIRST := a, SECOND := b];
  }

  // ----------------------------------------------------------------- what is in flight

  ghost predicate TheseInFlight(s: Sys, ra: Request, rb: Request) {
    && (forall id :: id in s.txs ==>
          (id == FIRST && s.txs[id].request == ra) || (id == SECOND && s.txs[id].request == rb))
    && (forall c :: c in s.done ==> c.request == ra || c.request == rb)
  }

  lemma StaysThese(s: Sys, e: Event, ra: Request, rb: Request)
    requires TheseInFlight(s, ra, rb)
    requires e.Begin? ==> e == Begin(FIRST, ra) || e == Begin(SECOND, rb)
    ensures TheseInFlight(Step(s, e), ra, rb)
  {
    hide Next, View, Waits, Answerable, ReplyIn;
    if e.Finish? && e.id in s.txs {
      var c := CallOf(s.txs[e.id]);
      assert forall d :: d in s.done + [c] <==> d in s.done || d == c;
    }
  }

  lemma {:induction false} RunIsThese(db: Db, es: seq<Event>, ra: Request, rb: Request)
    requires OnlyThese(es, ra, rb)
    ensures TheseInFlight(Execute(Sys(db, map[], []), es), ra, rb)
  {
    hide Step, TheseInFlight;
    if |es| > 0 {
      var n := |es| - 1;
      RunIsThese(db, es[..n], ra, rb);
      StaysThese(Execute(Sys(db, map[], []), es[..n]), es[n], ra, rb);
    } else {
      NoneIsThese(db, ra, rb);
    }
  }

  lemma NoneIsThese(db: Db, ra: Request, rb: Request)
    ensures TheseInFlight(Sys(db, map[], []), ra, rb)
  {
  }

  /** Of two programs, each waits for the other. */
  lemma CycleOfTwo(s: Sys, cycle: seq<nat>, ra: Request, rb: Request)
    requires TheseInFlight(s, ra, rb) && WaitCycle(s, cycle)
    ensures Waits(s, FIRST, SECOND) && Waits(s, SECOND, FIRST)
  {
    hide Next, Blocks, View;
    assert Waits(s, cycle[0], cycle[1]);
    assert Waits(s, cycle[1], cycle[2]);
  }

  // --------------------------------------------------------------------- the pair

  /** Each transaction could be there alone, their locks go together, and each next
      needs a row the other holds. */
  ghost predicate Interlocked(db: Db, a: Tx, b: Tx) {
    && Running(db, a) && Running(db, b) && Compatible(a, b)
    && (exists x :: ContestedBy(db, a, b, x)) && (exists z :: ContestedBy(db, b, a, z))
  }

  /** The two wait for each other at these logs. */
  ghost predicate StuckAt(s: Sys, cycle: seq<nat>, a: Tx, b: Tx) {
    WaitCycle(s, cycle) && s.txs == map[FIRST := a, SECOND := b]
  }

  lemma ContestIsWait(s: Sys, id: nat, other: nat, x: Lock)
    requires id in s.txs && other in s.txs && id != other && ContestedBy(s.db, s.txs[id], s.txs[other], x)
    ensures Waits(s, id, other)
  {
    hide Next, View, Ask, Locks, Holds;
    var tx := s.txs[id];
    var st := Next(tx.request, tx.log).statement;
    var y :| Holds(s.txs[other], y) && x.row == y.row && Conflicts(x.mode, y.mode);
    assert x in Locks(st, Ask(View(s.db, tx, |tx.log|), st));
  }

  lemma InterlockedGetsStuck(db: Db, a: Tx, b: Tx) returns (es: seq<Event>)
    requires Interlocked(db, a, b)
    ensures OnlyThese(es, a.request, b.request)
    ensures StuckAt(Execute(Sys(db, map[], []), es), [FIRST, SECOND, FIRST], a, b)
  {
    hide Running, Compatible, ContestedBy, Execute, OnlyThese, Waits;
    es := ReachesBoth(db, a, b);
    var s := Execute(Sys(db, map[], []), es);
    var x :| ContestedBy(db, a, b, x);
    var z :| ContestedBy(db, b, a, z);
    ContestIsWait(s, FIRST, SECOND, x);
    ContestIsWait(s, SECOND, FIRST, z);
  }

  /** In any state a run of the two reaches, a wait cycle is such a pair. */
  lemma CycleIsInterlocked(db: Db, es: seq<Event>, cycle: seq<nat>, ra: Request, rb: Request)
    requires Valid(db) && OnlyThese(es, ra, rb) && WaitCycle(Execute(Sys(db, map[], []), es), cycle)
    ensures var s := Execute(Sys(db, map[], []), es);
      && s.txs.Keys == {FIRST, SECOND} && s.txs[FIRST].request == ra && s.txs[SECOND].request == rb
      && Consistent(s) && Interlocked(s.db, s.txs[FIRST], s.txs[SECOND])
      && s.db == Runs.After(db, s.done) && AllCommit(db, s.done)
      && (forall c :: c in s.done ==> c.request == ra || c.request == rb)
  {
    hide Valid, Execute, OnlyThese, WaitCycle, Running, Compatible, ContestedBy, Next, Blocks, View;
    var s := Execute(Sys(db, map[], []), es);
    RunIsThese(db, es, ra, rb);
    Serializable(db, es);
    CycleOfTwo(s, cycle, ra, rb);
    StillWaiting(s, [FIRST, SECOND], 0);
    StillWaiting(s, [SECOND, FIRST], 0);
    WaitIsContest(s, FIRST, SECOND);
    WaitIsContest(s, SECOND, FIRST);
    var x :| Contest(s, FIRST, SECOND, x);
    var z :| Contest(s, SECOND, FIRST, z);
  }
}
