/**
 The tables of an auction that the code has settled, told from the tables the run started from:
 where each of its deposits is, whether they balance, and whether the report passes.
 */
module SettledTables {
  import opened Wrappers
  import opened Auctions
  import opened Settlement
  import opened SettlementMachine
  import opened SettlementBooks
  import opened SettlementRuns
  import opened SettlementTheorems
  import opened SettlementOutcome
  import opened Bystanders
  import opened Reconcile
  import opened SettledReconciles

  // ---- Where every deposit is -----------------------------------------

  /** Where a deposit of `a` ends up: settlement moves it iff it was held with an eligible participant. */
  ghost function FinalStatus(init: Db, a: AuctionId, winner: Option<UserId>, d: DepositId): DepositStatus
    requires OfAuction(init, a, d)
  {
    if !Tracked(init, d) || !Enrolled(init, a, d) then init.deposits[d].status
    else if winner == Some(init.deposits[d].user) then Captured
    else Refunded
  }

  lemma PlannedIsResolved(init: Db, db: Db, a: AuctionId, d: DepositId)
    requires a in db.manifests && Stored(init, db, a) && Resolved(db, a) && Mentions(db.manifests[a].items, d)
    requires DepositsKept(init, db)
    ensures OfAuction(db, a, d) && a in db.auctions
    ensures db.deposits[d].status
         == if db.auctions[a].winnerId == Some(init.deposits[d].user) then Captured else Refunded
  {
    var items := db.manifests[a].items;
    var i :| 0 <= i < |items| && items[i].deposit == d;
    assert Planned(init, db, a, items[i]);
  }

  /** Every deposit of an auction that was settled, and not by hand, is where the tables the run started
      from and the winner say. */
  lemma SettledWhere(init: Db, events: seq<Event>, retryEdge: bool, a: AuctionId, d: DepositId)
    requires CleanStart(init) && !SettledByHand(init, events, retryEdge, a) && OfAuction(init, a, d)
    requires var db := After(init, events, retryEdge).world.db;
             a in db.auctions && db.auctions[a].status == Settled
    ensures var db := After(init, events, retryEdge).world.db;
            OfAuction(db, a, d) && db.deposits[d].status == FinalStatus(init, a, db.auctions[a].winnerId, d)
  {
    hide CleanStart, Stored, Books, GatewaySound, Mentions, Enrolled, Resolved;
    var db := After(init, events, retryEdge).world.db;
    RunInv(init, events, retryEdge);
    if !Tracked(init, d) {
      OthersUntouched(init, events, retryEdge, d);
    } else if !Enrolled(init, a, d) {
      BystandersAreLeftAlone(init, events, retryEdge, d);
    } else {
      SettledMeansResolved(init, events, retryEdge, a);
      EnrolledIsPlanned(init, events, retryEdge, d);
      assert a in db.manifests by { assert Resolved(db, a) by { assert IsSettled(db, a); } HasManifest(db, a); }
      PlannedIsResolved(init, db, a, d);
    }
  }

  lemma HasManifest(db: Db, a: AuctionId)
    requires Resolved(db, a)
    ensures a in db.manifests
  {
  }

  // ---- The balance over all deposits ----------------------------------

  predicate DoneWith(db: Db, d: DepositId) {
    StatusOf(db, d) == Some(Captured) || StatusOf(db, d) == Some(Refunded)
  }

  /** Settlement will capture or refund it, or somebody had before. */
  ghost predicate WillBeDone(init: Db, a: AuctionId, d: DepositId) {
    (Tracked(init, d) && Enrolled(init, a, d)) || DoneWith(init, d)
  }

  lemma DoneInTheEnd(init: Db, events: seq<Event>, retryEdge: bool, a: AuctionId, d: DepositId)
    requires CleanStart(init) && !SettledByHand(init, events, retryEdge, a) && OfAuction(init, a, d)
    requires var db := After(init, events, retryEdge).world.db;
             a in db.auctions && db.auctions[a].status == Settled
    ensures DoneWith(After(init, events, retryEdge).world.db, d) <==> WillBeDone(init, a, d)
  {
    hide CleanStart, Enrolled, Run;
    SettledWhere(init, events, retryEdge, a, d);
  }

  lemma SameDeposits(init: Db, events: seq<Event>, retryEdge: bool, a: AuctionId)
    requires CleanStart(init)
    ensures var db := After(init, events, retryEdge).world.db;
            forall d :: && (OfAuction(db, a, d) <==> OfAuction(init, a, d))
                        && (OfAuction(init, a, d) ==>
                              db.deposits[d].amount == init.deposits[d].amount
                              && db.deposits[d].user == init.deposits[d].user)
  {
    hide CleanStart, Books, Stored, GatewaySound, PcInv;
    RunInv(init, events, retryEdge);
  }

  /** The total amount of the listed deposits that settlement will not see to. */
  ghost function Stranded(init: Db, a: AuctionId, ids: seq<DepositId>): int {
    if ids == [] then 0
    else
      var d := ids[|ids| - 1];
      Stranded(init, a, ids[..|ids| - 1])
      + if d in init.deposits && !WillBeDone(init, a, d) then init.deposits[d].amount else 0
  }

  lemma {:induction false} GapIsStranded(init: Db, db: Db, a: AuctionId, ids: seq<DepositId>)
    requires forall i :: 0 <= i < |ids| ==>
               && ids[i] in db.deposits && ids[i] in init.deposits
               && db.deposits[ids[i]].amount == init.deposits[ids[i]].amount
               && (DoneWith(db, ids[i]) <==> WillBeDone(init, a, ids[i]))
    ensures SumAll(db, ids) - SumDeposits(db, ids, Captured) - SumDeposits(db, ids, Refunded) == Stranded(init, a, ids)
  {
    hide WillBeDone;
    if ids != [] {
      var k := |ids| - 1;
      assert forall i :: 0 <= i < k ==> ids[..k][i] == ids[i];
      GapIsStranded(init, db, a, ids[..k]);
    }
  }

  lemma {:induction false} NothingStranded(init: Db, a: AuctionId, ids: seq<DepositId>)
    requires forall i :: 0 <= i < |ids| ==> ids[i] in init.deposits && init.deposits[ids[i]].amount > 0
    ensures Stranded(init, a, ids) >= 0
    ensures Stranded(init, a, ids) == 0 <==> forall i :: 0 <= i < |ids| ==> WillBeDone(init, a, ids[i])
  {
    hide WillBeDone;
    if ids != [] {
      var k := |ids| - 1;
      assert forall i :: 0 <= i < k ==> ids[..k][i] == ids[i];
      NothingStranded(init, a, ids[..k]);
      if forall i :: 0 <= i < k ==> WillBeDone(init, a, ids[..k][i]) {
        assert forall i :: 0 <= i < k ==> WillBeDone(init, a, ids[i]);
      }
    }
  }

  /** The ledger script's balance of an auction settled by the code, over every deposit it has.  What the
      script finds unaccounted is the total of the deposits that, in the tables the run started from, were
      neither held with an eligible participant nor captured or refunded already.  So, deposits being of
      positive amounts, it balances iff there were none. */
  lemma FullBalance(init: Db, events: seq<Event>, retryEdge: bool, a: AuctionId, ids: seq<DepositId>)
    requires CleanStart(init) && !SettledByHand(init, events, retryEdge, a)
    requires var db := After(init, events, retryEdge).world.db;
             a in db.auctions && db.auctions[a].status == Settled && Lists(db, a, ids)
    ensures var db := After(init, events, retryEdge).world.db;
            SumAll(db, ids) - (SumDeposits(db, ids, Captured) + SumDeposits(db, ids, Refunded))
            == Stranded(init, a, ids)
    ensures (forall d :: OfAuction(init, a, d) ==> init.deposits[d].amount > 0) ==>
              (Stranded(init, a, ids) == 0 <==> forall d :: OfAuction(init, a, d) ==> WillBeDone(init, a, d))
  {
    hide CleanStart, WillBeDone, DoneWith, SumDeposits, SumAll, Stranded, Run;
    var db := After(init, events, retryEdge).world.db;
    SameDeposits(init, events, retryEdge, a);
    forall i | 0 <= i < |ids|
      ensures OfAuction(init, a, ids[i]) && OfAuction(db, a, ids[i])
      ensures db.deposits[ids[i]].amount == init.deposits[ids[i]].amount
      ensures DoneWith(db, ids[i]) <==> WillBeDone(init, a, ids[i])
    {
      assert ids[i] in ids;
      DoneInTheEnd(init, events, retryEdge, a, ids[i]);
    }
    GapIsStranded(init, db, a, ids);
    if forall d :: OfAuction(init, a, d) ==> init.deposits[d].amount > 0 {
      NothingStranded(init, a, ids);
      if forall i :: 0 <= i < |ids| ==> WillBeDone(init, a, ids[i]) { EachListed(init, a, ids); }
    }
  }

  lemma EachListed(init: Db, a: AuctionId, ids: seq<DepositId>)
    requires forall d :: OfAuction(init, a, d) ==> d in ids
    requires forall i :: 0 <= i < |ids| ==> WillBeDone(init, a, ids[i])
    ensures forall d :: OfAuction(init, a, d) ==> WillBeDone(init, a, d)
  {
    hide WillBeDone;
    forall d | OfAuction(init, a, d) ensures WillBeDone(init, a, d) {
      var i :| 0 <= i < |ids| && ids[i] == d;
    }
  }

  // ---- Ledger rows of deposits that were not held ---------------------

  /** Which deposit the row appended by an effect is about, if it appends one. */
  lemma OneRowAtMost(db: Db, e: Effect, retryEdge: bool, d: DepositId, ev: DepositEvent)
    requires MoneyItem(e).Some? ==> MoneyItem(e).value.deposit != d
    ensures CountOwn(PerformDb(db, e, retryEdge).ledger, d, ev) == CountOwn(db.ledger, d, ev)
  {
    hide CountOwn, FinalizeTx, ForceCloseTx, RetryTx, ConcludeTx, ManualTx, InitiateTx;
    match e
    case Captures(it) => if StatusOf(db, it.deposit) == Some(Held) { RowAdded(db, CaptureTx(db, it), it, d, ev); }
    case InitiatesRefund(it) =>
      if StatusOf(db, it.deposit) == Some(Held) && it.key !in db.refunds {
        RowAdded(db, RefundInitTx(db, it), it, d, ev);
      }
    case CompletesRefund(it) =>
      if StatusOf(db, it.deposit) == Some(RefundPending) { RowAdded(db, RefundDoneTx(db, it), it, d, ev); }
    case _ => OthersPostNothing(db, e, retryEdge);
  }

  lemma RowAdded(db: Db, db': Db, it: Item, d: DepositId, ev: DepositEvent)
    requires |db'.ledger| == |db.ledger| + 1 && db'.ledger[..|db.ledger|] == db.ledger
    requires db'.ledger[|db.ledger|].deposit == it.deposit != d
    ensures CountOwn(db'.ledger, d, ev) == CountOwn(db.ledger, d, ev)
  {
  }

  lemma OthersPostNothing(db: Db, e: Effect, retryEdge: bool)
    requires !e.Captures? && !e.InitiatesRefund? && !e.CompletesRefund?
    ensures PerformDb(db, e, retryEdge).ledger == db.ledger
  {
    hide AckCount, AnyExhausted, CanRetry, CanInitiate, ManualMove, PlanItems, ResetItems;
  }

  /** The ledger rows about a deposit that was not held when the run started stay as they were. */
  lemma {:induction false} StrangersRowsKept(
    init: Db, events: seq<Event>, retryEdge: bool, d: DepositId, ev: DepositEvent)
    requires CleanStart(init) && !Tracked(init, d)
    ensures CountOwn(After(init, events, retryEdge).world.db.ledger, d, ev) == CountOwn(init.ledger, d, ev)
  {
    hide CleanStart, WorldInv, PcInv, EffectOf, PerformDb, CountOwn, Tracked;
    if events != [] {
      var k := |events| - 1;
      var s := After(init, events[..k], retryEdge);
      StrangersRowsKept(init, events[..k], retryEdge, d, ev);
      RunInv(init, events[..k], retryEdge);
      StepJustified(init, s, events[k], retryEdge);
      MovesTracked(init, s.world, EffectOf(s, events[k]));
      OneRowAtMost(s.world.db, EffectOf(s, events[k]), retryEdge, d, ev);
    }
  }

  lemma MovesTracked(init: Db, x: World, e: Effect)
    requires EffectOk(init, x, e)
    ensures MoneyItem(e).Some? ==> Tracked(init, MoneyItem(e).value.deposit)
  {
    hide CopyOf, NoSent;
  }

  lemma {:induction false} QuietCountsNone(rows: seq<LedgerRow>, d: DepositId, ev: DepositEvent)
    requires forall i :: 0 <= i < |rows| && rows[i].deposit == d ==> rows[i].event != ev
    ensures CountOwn(rows, d, ev) == 0
  {
    if rows != [] { QuietCountsNone(rows[..|rows| - 1], d, ev); }
  }

  predicate Matches(e: DepositEvent, st: DepositStatus) {
    (e == DepositCaptured && st == Captured) || (e == DepositRefunded && st == Refunded)
  }

  function Bit(b: bool): int {
    if b then 1 else 0
  }

  /** Each deposit has as many rows too many, or missing, as it had when the run started. */
  lemma SameSurplus(init: Db, events: seq<Event>, retryEdge: bool, d: DepositId, e: DepositEvent, st: DepositStatus)
    requires CleanStart(init) && d in init.deposits && Matches(e, st)
    ensures var db := After(init, events, retryEdge).world.db;
            CountOwn(db.ledger, d, e) - Bit(StatusOf(db, d) == Some(st))
            == CountOwn(init.ledger, d, e) - Bit(StatusOf(init, d) == Some(st))
  {
    hide Run, CountOwn, Replay, Postings;
    var db := After(init, events, retryEdge).world.db;
    if Tracked(init, d) {
      ExactlyOnceBooks(init, events, retryEdge, d);
      CountOwnOfPostings(db.ledger, d, e);
      CountOwnWhenDone(d, db.deposits[d].status, init.deposits[d].amount, KeyFor(db, d), e);
      QuietCountsNone(init.ledger, d, e);
    } else {
      OthersUntouched(init, events, retryEdge, d);
      StrangersRowsKept(init, events, retryEdge, d, e);
    }
  }

  lemma {:induction false} SurplusAddsUp(db: Db, db': Db, ids: seq<DepositId>, e: DepositEvent, st: DepositStatus)
    requires forall i, j :: 0 <= i < j < |ids| ==> ids[i] != ids[j]
    requires forall i :: 0 <= i < |ids| ==>
               CountOwn(db'.ledger, ids[i], e) - Bit(StatusOf(db', ids[i]) == Some(st))
               == CountOwn(db.ledger, ids[i], e) - Bit(StatusOf(db, ids[i]) == Some(st))
    ensures CountRows(db'.ledger, ids, e) - CountDeposits(db', ids, st)
         == CountRows(db.ledger, ids, e) - CountDeposits(db, ids, st)
  {
    if ids == [] {
      CountRowsOfNobody(db.ledger, e);
      CountRowsOfNobody(db'.ledger, e);
    } else {
      var k := |ids| - 1;
      SurplusAddsUp(db, db', ids[..k], e, st);
      assert ids == ids[..k] + [ids[k]];
      CountRowsSplits(db.ledger, ids[..k], ids[k], e);
      CountRowsSplits(db'.ledger, ids[..k], ids[k], e);
    }
  }

  /** The ledger's counts agree with the deposits in any state of any run iff they did at its start. */
  lemma RowsAgreeAsBefore(init: Db, events: seq<Event>, retryEdge: bool, ids: seq<DepositId>)
    requires CleanStart(init)
    requires forall i :: 0 <= i < |ids| ==> ids[i] in init.deposits
    requires forall i, j :: 0 <= i < j < |ids| ==> ids[i] != ids[j]
    ensures RowsAgree(After(init, events, retryEdge).world.db, ids) ==> RowsAgree(init, ids)
    ensures RowsAgree(init, ids) ==> RowsAgree(After(init, events, retryEdge).world.db, ids)
  {
    hide Run, CountOwn, CountRows, CountDeposits, CleanStart;
    var db := After(init, events, retryEdge).world.db;
    forall i | 0 <= i < |ids|
      ensures CountOwn(db.ledger, ids[i], DepositCaptured) - Bit(StatusOf(db, ids[i]) == Some(Captured))
           == CountOwn(init.ledger, ids[i], DepositCaptured) - Bit(StatusOf(init, ids[i]) == Some(Captured))
      ensures CountOwn(db.ledger, ids[i], DepositRefunded) - Bit(StatusOf(db, ids[i]) == Some(Refunded))
           == CountOwn(init.ledger, ids[i], DepositRefunded) - Bit(StatusOf(init, ids[i]) == Some(Refunded))
    {
      SameSurplus(init, events, retryEdge, ids[i], DepositCaptured, Captured);
      SameSurplus(init, events, retryEdge, ids[i], DepositRefunded, Refunded);
    }
    SurplusAddsUp(init, db, ids, DepositCaptured, Captured);
    SurplusAddsUp(init, db, ids, DepositRefunded, Refunded);
  }

  // ---- The report -----------------------------------------------------

  /** Settlement will leave it where the report wants it: captured if it is the winner's, else refunded. */
  ghost predicate WillBeRight(init: Db, a: AuctionId, winner: Option<UserId>, d: DepositId)
    requires OfAuction(init, a, d)
  {
    || (Tracked(init, d) && Enrolled(init, a, d))
    || init.deposits[d].status == if winner == Some(init.deposits[d].user) then Captured else Refunded
  }

  lemma DoneIffRight(init: Db, events: seq<Event>, retryEdge: bool, a: AuctionId)
    requires CleanStart(init) && !SettledByHand(init, events, retryEdge, a)
    requires var db := After(init, events, retryEdge).world.db;
             a in db.auctions && db.auctions[a].status == Settled
    ensures var db := After(init, events, retryEdge).world.db;
            Done(db, a)
            <==> forall d :: OfAuction(init, a, d) ==> WillBeRight(init, a, db.auctions[a].winnerId, d)
  {
    hide CleanStart, Enrolled, Run;
    var db := After(init, events, retryEdge).world.db;
    SameDeposits(init, events, retryEdge, a);
    forall d | OfAuction(init, a, d)
      ensures OfAuction(db, a, d)
      ensures WillBeRight(init, a, db.auctions[a].winnerId, d)
              <==> db.deposits[d].status
                   == if db.auctions[a].winnerId == Some(db.deposits[d].user) then Captured else Refunded
    {
      SettledWhere(init, events, retryEdge, a, d);
    }
  }

  /** Exactly when the report of an auction settled by the code passes as a whole: the winner, if any, has a
      deposit worth at least the final price, and, in the tables the run started from, each deposit was
      held with an eligible participant or was already where the report wants it, and the ledger's
      captured and refunded rows already matched the deposits. */
  lemma ReportVerdict(init: Db, events: seq<Event>, retryEdge: bool, a: AuctionId, ids: seq<DepositId>)
    requires CleanStart(init) && !SettledByHand(init, events, retryEdge, a)
    requires var db := After(init, events, retryEdge).world.db;
             a in db.auctions && db.auctions[a].status == Settled && Lists(db, a, ids)
    ensures var db := After(init, events, retryEdge).world.db;
            (forall c :: c in Names(db, a, ids) ==> Passes(db, a, ids, c))
            <==> && WinnerEnrolled(db, a) && DepositCoversPrice(db, a)
                 && (forall d :: OfAuction(init, a, d) ==> WillBeRight(init, a, db.auctions[a].winnerId, d))
                 && RowsAgree(init, ids)
  {
    hide CleanStart, WillBeRight, Names, Passes, RowsAgree, WinnerEnrolled, DepositCoversPrice, Done, Stored, Run;
    var db := After(init, events, retryEdge).world.db;
    RunInv(init, events, retryEdge);
    SettledMeansResolved(init, events, retryEdge, a);
    HasManifest(db, a);
    DoneVerdict(init, db, a, ids);
    DoneIffRight(init, events, retryEdge, a);
    SameDeposits(init, events, retryEdge, a);
    assert forall i :: 0 <= i < |ids| ==> ids[i] in ids && OfAuction(init, a, ids[i]);
    RowsAgreeAsBefore(init, events, retryEdge, ids);
  }

  /** The same verdict told at any moment since the auction was over: the winner, the winner's deposit and
      the price are read then, the rest from the tables the run started from. */
  lemma ReportVerdictKnownAtTheEnd(
    init: Db, events: seq<Event>, more: seq<Event>, retryEdge: bool, a: AuctionId, ids: seq<DepositId>)
    requires CleanStart(init) && !SettledByHand(init, events + more, retryEdge, a)
    requires var x := After(init, events, retryEdge).world.db; a in x.auctions && Over(x.auctions[a].status)
    requires var db := After(init, events + more, retryEdge).world.db;
             a in db.auctions && db.auctions[a].status == Settled && Lists(db, a, ids)
    ensures var x, db := After(init, events, retryEdge).world.db, After(init, events + more, retryEdge).world.db;
            (forall c :: c in Names(db, a, ids) ==> Passes(db, a, ids, c))
            <==> && WinnerEnrolled(x, a) && DepositCoversPrice(x, a)
                 && (forall d :: OfAuction(init, a, d) ==> WillBeRight(init, a, x.auctions[a].winnerId, d))
                 && RowsAgree(init, ids)
  {
    hide Step, SysInv, Evolves, Names, Passes, Lists, CleanStart, WinnerEnrolled, DepositCoversPrice, WillBeRight,
         RowsAgree;
    var s := After(init, events, retryEdge);
    RunInv(init, events, retryEdge);
    RunConcat(Start(init), events, more, retryEdge);
    RunEvolves(init, s, more, retryEdge);
    RunOutcomeKept(s, more, retryEdge, a);
    SameConditions(s.world, After(init, events + more, retryEdge).world, a);
    ReportVerdict(init, events + more, retryEdge, a, ids);
  }
}
