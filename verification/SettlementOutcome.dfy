/**
 What it means for the pipeline to have settled an auction: every deposit of the plan is
 where it should be, and the money adds up.
 */
module SettlementOutcome {
  import opened Wrappers
  import opened Auctions
  import opened Settlement
  import opened SettlementMachine
  import opened SettlementBooks
  import opened SettlementRuns
  import opened SettlementTheorems

  function StatusAfterRun(init: Db, events: seq<Event>, retryEdge: bool, a: AuctionId): Option<AuctionStatus> {
    var db := After(init, events, retryEdge).world.db;
    if a in db.auctions then Some(db.auctions[a].status) else None
  }

  /** In this run a move by hand is what settled auction `a`.  Rejected moves, and moves of other
      auctions, do not count. */
  predicate SettledByHand(init: Db, events: seq<Event>, retryEdge: bool, a: AuctionId) {
    events != [] &&
    var k := |events| - 1;
    || SettledByHand(init, events[..k], retryEdge, a)
    || (events[k].Manual? && events[k].a == a && events[k].to == Settled
        && StatusAfterRun(init, events[..k], retryEdge, a) != Some(Settled)
        && StatusAfterRun(init, events, retryEdge, a) == Some(Settled))
  }

  lemma {:induction false} NobodyMovesNobodySettles(init: Db, events: seq<Event>, retryEdge: bool, a: AuctionId)
    requires forall i :: 0 <= i < |events| ==> !(events[i].Manual? && events[i].a == a && events[i].to == Settled)
    ensures !SettledByHand(init, events, retryEdge, a)
  {
    if events != [] {
      var k := |events| - 1;
      assert forall i :: 0 <= i < k ==> events[..k][i] == events[i];
      NobodyMovesNobodySettles(init, events[..k], retryEdge, a);
    }
  }

  /** Every deposit of the auction's plan was captured or refunded as planned. */
  predicate Resolved(db: Db, a: AuctionId) {
    && a in db.manifests
    && forall i :: 0 <= i < |db.manifests[a].items| ==>
         StatusOf(db, db.manifests[a].items[i].deposit) == Some(Goal(db.manifests[a].items[i].action))
  }

  predicate IsSettled(db: Db, a: AuctionId) {
    a in db.auctions && db.auctions[a].status == Settled
  }

  lemma ResolvedStable(x: World, y: World, a: AuctionId)
    requires Evolves(x, y) && Resolved(x.db, a)
    ensures Resolved(y.db, a)
  {
    var xs, ys := x.db.manifests[a].items, y.db.manifests[a].items;
    forall i | 0 <= i < |ys| ensures StatusOf(y.db, ys[i].deposit) == Some(Goal(ys[i].action)) {
      assert Static(xs[i]) == Static(ys[i]);
      assert ys[i].deposit == Static(ys[i]).deposit == xs[i].deposit;
      assert ys[i].action == Static(ys[i]).action == xs[i].action;
    }
  }

  lemma AllAcknowledgedResolved(db: Db, m: Manifest)
    requires CopyOf(db, m) && Judge(m.items) == AllAcknowledged
    ensures Resolved(db, m.auction)
  {
    var ys := db.manifests[m.auction].items;
    forall i | 0 <= i < |ys| ensures StatusOf(db, ys[i].deposit) == Some(Goal(ys[i].action)) {
      assert TruthfulItem(db, m.items[i]);
      assert Static(m.items[i]) == Static(ys[i]);
      assert ys[i].deposit == Static(ys[i]).deposit == m.items[i].deposit;
      assert ys[i].action == Static(ys[i]).action == m.items[i].action;
    }
  }

  lemma FinalizeSettles(db: Db, m: Manifest, a: AuctionId)
    requires a in FinalizeTx(db, m).auctions && FinalizeTx(db, m).auctions[a].status == Settled
    ensures (a in db.auctions && db.auctions[a].status == Settled)
            || (m.auction == a && Judge(m.items) == AllAcknowledged)
  {
    hide AckCount, AnyExhausted;
  }

  /** Only a finalization whose copy is fully acknowledged, or a move by hand, settles an auction. */
  lemma OnlyFinalizeSettles(db: Db, e: Effect, retryEdge: bool, a: AuctionId)
    requires IsSettled(PerformDb(db, e, retryEdge), a)
    ensures IsSettled(db, a)
            || (e.Finalizes? && e.m.auction == a && Judge(e.m.items) == AllAcknowledged)
            || (e.Moves? && e.a == a && e.to == Settled)
  {
    hide FinalizeTx, Judge, CanRetry, CanInitiate, NewManifest, ManualMove;
    if e.Finalizes? { FinalizeSettles(db, e.m, a); }
  }

  lemma SettledEffect(init: Db, x: World, e: Effect, retryEdge: bool, a: AuctionId)
    requires EffectOk(init, x, e) && Evolves(x, Perform(x, e, retryEdge))
    requires IsSettled(Perform(x, e, retryEdge).db, a)
    requires IsSettled(x.db, a) ==> Resolved(x.db, a)
    requires !(e.Moves? && e.a == a && e.to == Settled && !IsSettled(x.db, a))
    ensures Resolved(Perform(x, e, retryEdge).db, a)
  {
    hide Evolves, Resolved, CopyOf, IsSettled, FinalizeTx;
    OnlyFinalizeSettles(x.db, e, retryEdge, a);
    if !IsSettled(x.db, a) { AllAcknowledgedResolved(x.db, e.m); }
    ResolvedStable(x, Perform(x, e, retryEdge), a);
  }

  lemma SettledStep(init: Db, s: Sys, e: Event, retryEdge: bool, a: AuctionId)
    requires SysInv(init, s) && IsSettled(Step(s, e, retryEdge).world.db, a)
    requires IsSettled(s.world.db, a) ==> Resolved(s.world.db, a)
    requires !(e.Manual? && e.a == a && e.to == Settled && !IsSettled(s.world.db, a))
    ensures Resolved(Step(s, e, retryEdge).world.db, a)
  {
    hide Evolves, EffectOk, SysInv, Perform, Resolved;
    StepJustified(init, s, e, retryEdge);
    StepKeeps(init, s, e, retryEdge);
    WorkersDoNotMove(s, e);
    SettledEffect(init, s.world, EffectOf(s, e), retryEdge, a);
  }

  lemma WorkersDoNotMove(s: Sys, e: Event)
    ensures EffectOf(s, e).Moves? ==> e.Manual? && EffectOf(s, e) == Moves(e.a, e.to, e.now)
  {
  }

  /** In every state, an auction that was settled, and not by hand, has every planned deposit captured or
      refunded as planned, and that stays so whatever stale copies are saved later. */
  lemma {:induction false} SettledMeansResolved(init: Db, events: seq<Event>, retryEdge: bool, a: AuctionId)
    requires CleanStart(init) && !SettledByHand(init, events, retryEdge, a)
    ensures IsSettled(After(init, events, retryEdge).world.db, a) ==>
              Resolved(After(init, events, retryEdge).world.db, a)
  {
    hide Resolved, Step, SysInv;
    if events == [] {
      NoneSettledYet(init, a);
    } else {
      var k := |events| - 1;
      SettledMeansResolved(init, events[..k], retryEdge, a);
      RunInv(init, events[..k], retryEdge);
      if IsSettled(After(init, events, retryEdge).world.db, a) {
        SettledStep(init, After(init, events[..k], retryEdge), events[k], retryEdge, a);
      }
    }
  }

  lemma NoneSettledYet(init: Db, a: AuctionId)
    requires CleanStart(init)
    ensures !IsSettled(init, a)
  {
  }

  // ---- Conservation ---------------------------------------------------

  function ItemsTotal(items: seq<Item>): int {
    if items == [] then 0 else ItemsTotal(items[..|items| - 1]) + items[|items| - 1].amount
  }

  /** The total amount of the items' deposits that have status `st`. */
  function DepositsTotal(db: Db, items: seq<Item>, st: DepositStatus): int {
    if items == [] then 0
    else
      var it := items[|items| - 1];
      DepositsTotal(db, items[..|items| - 1], st)
      + if StatusOf(db, it.deposit) == Some(st) then db.deposits[it.deposit].amount else 0
  }

  predicate Mentions(items: seq<Item>, d: DepositId) {
    exists i :: 0 <= i < |items| && items[i].deposit == d
  }

  predicate Completes(e: DepositEvent) {
    e == DepositCaptured || e == DepositRefunded
  }

  /** The total of the ledger's captured and refunded rows about the items' deposits. */
  function LedgerTotal(rows: seq<LedgerRow>, items: seq<Item>): int {
    if rows == [] then 0
    else
      var r := rows[|rows| - 1];
      LedgerTotal(rows[..|rows| - 1], items)
      + if Completes(r.event) && Mentions(items, r.deposit) then r.amount else 0
  }

  function OwnTotal(rows: seq<LedgerRow>, d: DepositId): int {
    if rows == [] then 0
    else
      var r := rows[|rows| - 1];
      OwnTotal(rows[..|rows| - 1], d) + if Completes(r.event) && r.deposit == d then r.amount else 0
  }

  lemma OwnTotalAppend(rows: seq<LedgerRow>, r: LedgerRow, d: DepositId)
    ensures OwnTotal(rows + [r], d)
         == OwnTotal(rows, d) + if Completes(r.event) && r.deposit == d then r.amount else 0
  {
    assert (rows + [r])[..|rows|] == rows;
  }

  lemma {:induction false} OwnTotalOfPostings(rows: seq<LedgerRow>, d: DepositId)
    ensures OwnTotal(rows, d) == OwnTotal(Postings(rows, d), d)
  {
    if rows != [] {
      var k := |rows| - 1;
      OwnTotalOfPostings(rows[..k], d);
      if rows[k].deposit == d && IsSettlementEvent(rows[k].event) {
        OwnTotalAppend(Postings(rows[..k], d), rows[k], d);
      } else {
        assert Postings(rows[..k], d) + [] == Postings(rows[..k], d);
      }
    }
  }

  lemma OwnTotalWhenDone(d: DepositId, st: DepositStatus, amount: int, k: Key)
    ensures OwnTotal(SettlementLedger(d, st, amount, k), d)
         == if st == Captured || st == Refunded then amount else 0
  {
    var own := SettlementLedger(d, st, amount, k);
    if |own| == 2 {
      assert own == [own[0]] + [own[1]];
      OwnTotalAppend([own[0]], own[1], d);
      OwnTotalAppend([], own[0], d);
      assert [own[0]] == [] + [own[0]];
    } else if |own| == 1 {
      OwnTotalAppend([], own[0], d);
      assert own == [] + [own[0]];
    }
  }

  /** Adding one more deposit to the list adds exactly that deposit's rows. */
  lemma {:induction false} LedgerTotalSplits(rows: seq<LedgerRow>, items: seq<Item>, it: Item)
    requires !Mentions(items, it.deposit)
    ensures LedgerTotal(rows, items + [it]) == LedgerTotal(rows, items) + OwnTotal(rows, it.deposit)
  {
    if rows != [] {
      var k := |rows| - 1;
      LedgerTotalSplits(rows[..k], items, it);
      MentionsMore(items, it, rows[k].deposit);
    }
  }

  lemma MentionsMore(items: seq<Item>, it: Item, d: DepositId)
    ensures Mentions(items + [it], d) <==> Mentions(items, d) || it.deposit == d
  {
    var more := items + [it];
    if Mentions(items, d) {
      var i :| 0 <= i < |items| && items[i].deposit == d;
      assert more[i].deposit == d;
    }
    if it.deposit == d { assert more[|items|].deposit == d; }
  }

  lemma {:induction false} LedgerTotalOfNobody(rows: seq<LedgerRow>)
    ensures LedgerTotal(rows, []) == 0
  {
    if rows != [] { LedgerTotalOfNobody(rows[..|rows| - 1]); }
  }

  /** The ledger total over the plan is the sum of each deposit's own rows. */
  lemma {:induction false} LedgerTotalIsAmounts(db: Db, items: seq<Item>)
    requires DistinctDeposits(items)
    requires forall i :: 0 <= i < |items| ==> OwnTotal(db.ledger, items[i].deposit) == items[i].amount
    ensures LedgerTotal(db.ledger, items) == ItemsTotal(items)
  {
    if items == [] {
      LedgerTotalOfNobody(db.ledger);
    } else {
      var k := |items| - 1;
      assert forall i :: 0 <= i < k ==> items[..k][i] == items[i];
      LedgerTotalIsAmounts(db, items[..k]);
      assert items == items[..k] + [items[k]];
      LedgerTotalSplits(db.ledger, items[..k], items[k]);
    }
  }

  lemma {:induction false} DepositsTotalIsAmounts(db: Db, items: seq<Item>)
    requires forall i :: 0 <= i < |items| ==>
               && items[i].deposit in db.deposits && db.deposits[items[i].deposit].amount == items[i].amount
               && db.deposits[items[i].deposit].status == Goal(items[i].action)
    ensures DepositsTotal(db, items, Captured) + DepositsTotal(db, items, Refunded) == ItemsTotal(items)
  {
    if items != [] {
      var k := |items| - 1;
      assert forall i :: 0 <= i < k ==> items[..k][i] == items[i];
      DepositsTotalIsAmounts(db, items[..k]);
    }
  }

  /** Money is conserved: once an auction has been settled, and not by hand, the captured and refunded
      deposits of its manifest total the manifest's items and the ledger's captured and refunded
      rows about them; a deposit was captured iff it is the winner's; and there is at most one. */
  lemma Conservation(init: Db, events: seq<Event>, retryEdge: bool, a: AuctionId)
    requires CleanStart(init) && !SettledByHand(init, events, retryEdge, a)
    requires var db := After(init, events, retryEdge).world.db;
             a in db.auctions && db.auctions[a].status == Settled
    ensures var db := After(init, events, retryEdge).world.db;
            && a in db.manifests
            && var items := db.manifests[a].items;
               && DepositsTotal(db, items, Captured) + DepositsTotal(db, items, Refunded) == ItemsTotal(items)
               && LedgerTotal(db.ledger, items) == ItemsTotal(items)
               && (forall i :: 0 <= i < |items| ==>
                     (StatusOf(db, items[i].deposit) == Some(Captured)
                      <==> db.auctions[a].winnerId == Some(items[i].user)))
               && (forall i, j | 0 <= i < |items| && 0 <= j < |items| ::
                     items[i].action == Capture && items[j].action == Capture ==> i == j)
  {
    hide DepositsTotal, LedgerTotal, ItemsTotal, Run, Books, GatewaySound, Evolves;
    RunInv(init, events, retryEdge);
    SettledMeansResolved(init, events, retryEdge, a);
    var db := After(init, events, retryEdge).world.db;
    assert Resolved(db, a) && Stored(init, db, a);
    var items := db.manifests[a].items;
    forall i | 0 <= i < |items|
      ensures OwnTotal(db.ledger, items[i].deposit) == items[i].amount
      ensures items[i].deposit in db.deposits && db.deposits[items[i].deposit].amount == items[i].amount
      ensures db.deposits[items[i].deposit].status == Goal(items[i].action)
      ensures items[i].action == ActionFor(db.auctions[a], items[i].user)
    {
      assert Planned(init, db, a, items[i]);
      DoneTotal(init, events, retryEdge, items[i].deposit);
    }
    LedgerTotalIsAmounts(db, items);
    DepositsTotalIsAmounts(db, items);
    forall i, j | 0 <= i < |items| && 0 <= j < |items| && items[i].action == Capture && items[j].action == Capture
      ensures i == j
    {
      OneDepositPerUser(init, db, a, items, i, j);
    }
  }

  lemma DoneTotal(init: Db, events: seq<Event>, retryEdge: bool, d: DepositId)
    requires CleanStart(init) && Tracked(init, d)
    requires var st := StatusOf(After(init, events, retryEdge).world.db, d);
             st == Some(Captured) || st == Some(Refunded)
    ensures OwnTotal(After(init, events, retryEdge).world.db.ledger, d) == init.deposits[d].amount
  {
    ExactlyOnceBooks(init, events, retryEdge, d);
    var db := After(init, events, retryEdge).world.db;
    OwnTotalOfPostings(db.ledger, d);
    OwnTotalWhenDone(d, db.deposits[d].status, init.deposits[d].amount, KeyFor(db, d));
  }

  lemma OneDepositPerUser(init: Db, db: Db, a: AuctionId, items: seq<Item>, i: nat, j: nat)
    requires CleanStart(init) && DepositsKept(init, db) && Plan(init, db, a, items)
    requires i < |items| && j < |items| && items[i].user == items[j].user
    ensures i == j
  {
    assert Planned(init, db, a, items[i]) && Planned(init, db, a, items[j]);
    var d, e := items[i].deposit, items[j].deposit;
    assert init.deposits[d].user == init.deposits[e].user;
    assert init.deposits[d].auction == init.deposits[e].auction;
    assert d == e;
  }
}
