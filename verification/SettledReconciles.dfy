/**
 Settlement implies reconciliation: initiation, item processing, finalization and the
 checker composed over whole runs.
 */
module SettledReconciles {
  import opened Wrappers
  import opened Auctions
  import opened Settlement
  import opened SettlementMachine
  import opened SettlementBooks
  import opened SettlementRuns
  import opened SettlementTheorems
  import opened SettlementOutcome
  import opened Bystanders
  import opened Reconcile

  /** Every deposit of the auction is held by an eligible participant of it. */
  ghost predicate FullyEnrolled(db: Db, a: AuctionId) {
    forall d :: OfAuction(db, a, d) ==> db.deposits[d].status == Held && Enrolled(db, a, d)
  }

  /** The stored manifest, once there is one, has an item for every deposit of the auction. */
  ghost predicate Covered(db: Db, a: AuctionId) {
    a in db.manifests ==> forall d :: OfAuction(db, a, d) ==> Mentions(db.manifests[a].items, d)
  }

  lemma RunCovers(init: Db, events: seq<Event>, retryEdge: bool, a: AuctionId)
    requires CleanStart(init) && FullyEnrolled(init, a)
    ensures Covered(After(init, events, retryEdge).world.db, a)
  {
    hide Mentions, Enrolled;
    var db := After(init, events, retryEdge).world.db;
    RunInv(init, events, retryEdge);
    forall d | a in db.manifests && OfAuction(db, a, d) ensures Mentions(db.manifests[a].items, d) {
      assert OfAuction(init, a, d);
      EnrolledIsPlanned(init, events, retryEdge, d);
    }
  }

  // ---- Counting ledger rows -------------------------------------------

  function CountOwn(rows: seq<LedgerRow>, d: DepositId, e: DepositEvent): nat {
    if rows == [] then 0
    else CountOwn(rows[..|rows| - 1], d, e)
         + if rows[|rows| - 1].event == e && rows[|rows| - 1].deposit == d then 1 else 0
  }

  lemma CountOwnAppend(rows: seq<LedgerRow>, r: LedgerRow, d: DepositId, e: DepositEvent)
    ensures CountOwn(rows + [r], d, e)
         == CountOwn(rows, d, e) + if r.event == e && r.deposit == d then 1 else 0
  {
    assert (rows + [r])[..|rows|] == rows;
  }

  lemma {:induction false} CountOwnOfPostings(rows: seq<LedgerRow>, d: DepositId, e: DepositEvent)
    requires IsSettlementEvent(e)
    ensures CountOwn(rows, d, e) == CountOwn(Postings(rows, d), d, e)
  {
    if rows != [] {
      var k := |rows| - 1;
      CountOwnOfPostings(rows[..k], d, e);
      if rows[k].deposit == d && IsSettlementEvent(rows[k].event) {
        CountOwnAppend(Postings(rows[..k], d), rows[k], d, e);
      } else {
        assert Postings(rows[..k], d) + [] == Postings(rows[..k], d);
      }
    }
  }

  lemma CountOwnOfOne(r: LedgerRow, d: DepositId, e: DepositEvent)
    ensures CountOwn([r], d, e) == if r.event == e && r.deposit == d then 1 else 0
  {
    assert [r] == [] + [r];
    CountOwnAppend([], r, d, e);
  }

  lemma CountOwnOfTwo(r: LedgerRow, q: LedgerRow, d: DepositId, e: DepositEvent)
    ensures CountOwn([r, q], d, e) == CountOwn([r], d, e) + CountOwn([q], d, e)
  {
    assert [r, q] == [r] + [q];
    CountOwnAppend([r], q, d, e);
    CountOwnOfOne(q, d, e);
  }

  lemma CountOwnWhenDone(d: DepositId, st: DepositStatus, amount: int, k: Key, e: DepositEvent)
    requires e == DepositCaptured || e == DepositRefunded
    ensures CountOwn(SettlementLedger(d, st, amount, k), d, e)
         == if (e == DepositCaptured && st == Captured) || (e == DepositRefunded && st == Refunded) then 1 else 0
  {
    hide CountOwn;
    var own := SettlementLedger(d, st, amount, k);
    if |own| == 2 {
      CountOwnOfTwo(own[0], own[1], d, e);
      CountOwnOfOne(own[0], d, e);
      CountOwnOfOne(own[1], d, e);
      assert own == [own[0], own[1]];
    } else if |own| == 1 {
      CountOwnOfOne(own[0], d, e);
      assert own == [own[0]];
    } else {
      CountOwnOfNone(d, e);
    }
  }

  lemma CountOwnOfNone(d: DepositId, e: DepositEvent)
    ensures CountOwn([], d, e) == 0
  {
  }

  lemma {:induction false} CountRowsSplits(rows: seq<LedgerRow>, ids: seq<DepositId>, d: DepositId, e: DepositEvent)
    requires d !in ids
    ensures CountRows(rows, ids + [d], e) == CountRows(rows, ids, e) + CountOwn(rows, d, e)
  {
    if rows != [] { CountRowsSplits(rows[..|rows| - 1], ids, d, e); }
  }

  lemma {:induction false} CountRowsOfNobody(rows: seq<LedgerRow>, e: DepositEvent)
    ensures CountRows(rows, [], e) == 0
  {
    if rows != [] { CountRowsOfNobody(rows[..|rows| - 1], e); }
  }

  /** If each deposit has one row of the event iff it has the matching status, the counts agree. */
  lemma {:induction false} CountsAgree(db: Db, ids: seq<DepositId>, e: DepositEvent, st: DepositStatus)
    requires forall i, j :: 0 <= i < j < |ids| ==> ids[i] != ids[j]
    requires forall i :: 0 <= i < |ids| ==>
               CountOwn(db.ledger, ids[i], e) == if StatusOf(db, ids[i]) == Some(st) then 1 else 0
    ensures CountRows(db.ledger, ids, e) == CountDeposits(db, ids, st)
  {
    if ids == [] {
      CountRowsOfNobody(db.ledger, e);
    } else {
      var k := |ids| - 1;
      CountsAgree(db, ids[..k], e, st);
      assert ids == ids[..k] + [ids[k]];
      CountRowsSplits(db.ledger, ids[..k], ids[k], e);
    }
  }

  lemma {:induction false} SumsAgree(db: Db, ids: seq<DepositId>)
    requires forall i :: 0 <= i < |ids| ==>
               StatusOf(db, ids[i]) == Some(Captured) || StatusOf(db, ids[i]) == Some(Refunded)
    ensures SumDeposits(db, ids, Captured) + SumDeposits(db, ids, Refunded) == SumAll(db, ids)
  {
    if ids != [] { SumsAgree(db, ids[..|ids| - 1]); }
  }

  // ---- The theorem ----------------------------------------------------

  /** Every deposit of a settled, fully enrolled auction is captured if the winner's and refunded
      otherwise. */
  lemma SettledDeposits(init: Db, events: seq<Event>, retryEdge: bool, a: AuctionId, d: DepositId)
    requires CleanStart(init) && !SettledByHand(init, events, retryEdge, a) && FullyEnrolled(init, a)
    requires var db := After(init, events, retryEdge).world.db;
             a in db.auctions && db.auctions[a].status == Settled && OfAuction(db, a, d)
    ensures var db := After(init, events, retryEdge).world.db;
            db.deposits[d].status
            == (if db.auctions[a].winnerId == Some(db.deposits[d].user) then Captured else Refunded)
    ensures Tracked(init, d)
  {
    RunInv(init, events, retryEdge);
    SettledMeansResolved(init, events, retryEdge, a);
    RunCovers(init, events, retryEdge, a);
    var db := After(init, events, retryEdge).world.db;
    assert Resolved(db, a) && Stored(init, db, a);
    var items := db.manifests[a].items;
    var i :| 0 <= i < |items| && items[i].deposit == d;
    assert Planned(init, db, a, items[i]);
    assert OfAuction(init, a, d);
  }

  /** The winner's deposits are captured and all others refunded. */
  ghost predicate Done(db: Db, a: AuctionId)
    requires a in db.auctions
  {
    forall d :: OfAuction(db, a, d) ==>
      db.deposits[d].status
      == if db.auctions[a].winnerId == Some(db.deposits[d].user) then Captured else Refunded
  }

  lemma SettledDone(init: Db, events: seq<Event>, retryEdge: bool, a: AuctionId)
    requires CleanStart(init) && !SettledByHand(init, events, retryEdge, a) && FullyEnrolled(init, a)
    requires var db := After(init, events, retryEdge).world.db;
             a in db.auctions && db.auctions[a].status == Settled
    ensures var db := After(init, events, retryEdge).world.db;
            && Done(db, a)
            && (forall d :: OfAuction(db, a, d) ==> Tracked(init, d))
            && a in db.manifests && Stored(init, db, a)
            && DepositsKept(init, db)
  {
    RunInv(init, events, retryEdge);
    SettledMeansResolved(init, events, retryEdge, a);
    var db := After(init, events, retryEdge).world.db;
    forall d | OfAuction(db, a, d)
      ensures Tracked(init, d)
      ensures db.deposits[d].status
           == if db.auctions[a].winnerId == Some(db.deposits[d].user) then Captured else Refunded
    {
      SettledDeposits(init, events, retryEdge, a, d);
    }
    assert Resolved(db, a);
  }

  lemma RowsMatch(
    init: Db, events: seq<Event>, retryEdge: bool, ids: seq<DepositId>, e: DepositEvent, st: DepositStatus)
    requires CleanStart(init)
    requires forall i :: 0 <= i < |ids| ==> Tracked(init, ids[i])
    requires forall i, j :: 0 <= i < j < |ids| ==> ids[i] != ids[j]
    requires (e == DepositCaptured && st == Captured) || (e == DepositRefunded && st == Refunded)
    ensures var db := After(init, events, retryEdge).world.db;
            CountRows(db.ledger, ids, e) == CountDeposits(db, ids, st)
  {
    var db := After(init, events, retryEdge).world.db;
    forall i | 0 <= i < |ids|
      ensures CountOwn(db.ledger, ids[i], e) == if StatusOf(db, ids[i]) == Some(st) then 1 else 0
    {
      var d := ids[i];
      ExactlyOnceBooks(init, events, retryEdge, d);
      CountOwnOfPostings(db.ledger, d, e);
      CountOwnWhenDone(d, db.deposits[d].status, init.deposits[d].amount, KeyFor(db, d), e);
    }
    CountsAgree(db, ids, e, st);
  }

  ghost predicate WinnerEnrolled(db: Db, a: AuctionId)
    requires a in db.auctions
  {
    db.auctions[a].winnerId.Some? ==>
      exists d :: OfAuction(db, a, d) && db.auctions[a].winnerId == Some(db.deposits[d].user)
  }

  /** The checks that follow from where the deposits are. */
  lemma DonePasses(db: Db, a: AuctionId, ids: seq<DepositId>, c: CheckName)
    requires a in db.auctions && a in db.manifests && Lists(db, a, ids) && Done(db, a)
    requires c in Names(db, a, ids) && c != CapturedAmountSufficient
    requires c != CapturedLedgerEntries && c != RefundedLedgerEntries && c != ManifestDepositConsistency
    ensures c != WinnerDepositCaptured ==> Passes(db, a, ids, c)
    ensures c == WinnerDepositCaptured ==> (Passes(db, a, ids, c) <==> WinnerEnrolled(db, a))
  {
    match c
    case RefundBalance =>
      assert forall i :: 0 <= i < |ids| ==> ids[i] in ids && OfAuction(db, a, ids[i]);
      SumsAgree(db, ids);
    case WinnerDepositCaptured => NamesMembers(db, a, ids); WinnerCaught(db, a);
    case NoWinnerNoCapture => NamesMembers(db, a, ids);
    case _ =>
  }

  /** When the pipeline has settled a fully enrolled auction, every applicable check but the two
      about the winner passes outright; the winner's deposit is captured iff the winner has one. */
  lemma SettledPasses(init: Db, events: seq<Event>, retryEdge: bool, a: AuctionId, ids: seq<DepositId>, c: CheckName)
    requires CleanStart(init) && !SettledByHand(init, events, retryEdge, a) && FullyEnrolled(init, a)
    requires var db := After(init, events, retryEdge).world.db;
             && a in db.auctions && db.auctions[a].status == Settled
             && Lists(db, a, ids) && c in Names(db, a, ids)
    ensures var db := After(init, events, retryEdge).world.db;
            && (c != WinnerDepositCaptured && c != CapturedAmountSufficient ==> Passes(db, a, ids, c))
            && (c == WinnerDepositCaptured ==> (Passes(db, a, ids, c) <==> WinnerEnrolled(db, a)))
  {
    var db := After(init, events, retryEdge).world.db;
    SettledDone(init, events, retryEdge, a);
    if c == CapturedLedgerEntries || c == RefundedLedgerEntries {
      assert forall i :: 0 <= i < |ids| ==> ids[i] in ids && OfAuction(db, a, ids[i]);
      if c == CapturedLedgerEntries { RowsMatch(init, events, retryEdge, ids, DepositCaptured, Captured); }
      else { RowsMatch(init, events, retryEdge, ids, DepositRefunded, Refunded); }
    } else if c == ManifestDepositConsistency {
      ConsistentManifest(init, db, a);
    } else if c != CapturedAmountSufficient {
      DonePasses(db, a, ids, c);
    }
  }

  lemma ConsistentManifest(init: Db, db: Db, a: AuctionId)
    requires a in db.manifests && Stored(init, db, a)
    ensures forall i :: 0 <= i < |db.manifests[a].items| ==> ConsistentItem(db, a, db.manifests[a].items[i])
  {
    forall i | 0 <= i < |db.manifests[a].items| ensures ConsistentItem(db, a, db.manifests[a].items[i]) {
      assert Planned(init, db, a, db.manifests[a].items[i]) && TruthfulItem(db, db.manifests[a].items[i]);
    }
  }

  /** The manifest check passes in every state of every run, settled or not. */
  lemma ManifestAlwaysConsistent(
    init: Db, events: seq<Event>, retryEdge: bool, a: AuctionId, ids: seq<DepositId>)
    requires CleanStart(init) && a in After(init, events, retryEdge).world.db.auctions
    ensures Passes(After(init, events, retryEdge).world.db, a, ids, ManifestDepositConsistency)
  {
    hide Run;
    RunInv(init, events, retryEdge);
    var db := After(init, events, retryEdge).world.db;
    if a in db.manifests { ConsistentManifest(init, db, a); }
  }

  lemma WinnerCaught(db: Db, a: AuctionId)
    requires a in db.auctions && db.auctions[a].winnerId.Some? && Done(db, a)
    ensures (exists d :: WinnersCaptured(db, a, d)) <==> WinnerEnrolled(db, a)
  {
    if WinnerEnrolled(db, a) {
      var d :| OfAuction(db, a, d) && db.auctions[a].winnerId == Some(db.deposits[d].user);
      assert WinnersCaptured(db, a, d);
    }
  }

  /** The winner's deposit covers the price: true without a winner or a price. */
  ghost predicate DepositCoversPrice(db: Db, a: AuctionId)
    requires a in db.auctions
  {
    forall d :: OfAuction(db, a, d) && db.auctions[a].winnerId == Some(db.deposits[d].user)
                && db.auctions[a].finalPrice.Some? ==>
      db.deposits[d].amount >= db.auctions[a].finalPrice.value
  }

  /** The ledger has as many captured and refunded rows about the listed deposits as there are captured
      and refunded ones among them. */
  predicate RowsAgree(db: Db, ids: seq<DepositId>) {
    && CountRows(db.ledger, ids, DepositCaptured) == CountDeposits(db, ids, Captured)
    && CountRows(db.ledger, ids, DepositRefunded) == CountDeposits(db, ids, Refunded)
  }

  /** The report passes as a whole exactly when the winner's deposits are captured and all others refunded,
      with ledger rows to match, and the winner, if any, has a deposit worth at least the final price. */
  lemma DoneVerdict(init: Db, db: Db, a: AuctionId, ids: seq<DepositId>)
    requires CleanStart(init) && DepositsKept(init, db)
    requires a in db.auctions && a in db.manifests && Stored(init, db, a) && Lists(db, a, ids)
    ensures (forall c :: c in Names(db, a, ids) ==> Passes(db, a, ids, c))
            <==> Done(db, a) && RowsAgree(db, ids) && WinnerEnrolled(db, a) && DepositCoversPrice(db, a)
  {
    hide Names, Stored, CleanStart, DepositsKept, Done, RowsAgree, DepositCoversPrice, Lists;
    NamesMembers(db, a, ids);
    ConsistentManifest(init, db, a);
    if forall c :: c in Names(db, a, ids) ==> Passes(db, a, ids, c) { PassesMeansDone(init, db, a, ids); }
    if Done(db, a) {
      forall c | c in Names(db, a, ids)
        ensures c in {WinnerDepositCaptured, CapturedAmountSufficient, CapturedLedgerEntries, RefundedLedgerEntries}
                || Passes(db, a, ids, c)
        ensures c == WinnerDepositCaptured ==> (Passes(db, a, ids, c) <==> WinnerEnrolled(db, a))
      {
        if c == ManifestDepositConsistency {
        } else if c !in {CapturedAmountSufficient, CapturedLedgerEntries, RefundedLedgerEntries} {
          DonePasses(db, a, ids, c);
        }
      }
      AmountVerdict(init, db, a, ids);
      LedgerVerdict(db, a, ids);
    }
  }

  lemma LedgerVerdict(db: Db, a: AuctionId, ids: seq<DepositId>)
    requires a in db.auctions
    ensures RowsAgree(db, ids)
            <==> Passes(db, a, ids, CapturedLedgerEntries) && Passes(db, a, ids, RefundedLedgerEntries)
  {
  }

  lemma PassesMeansDone(init: Db, db: Db, a: AuctionId, ids: seq<DepositId>)
    requires CleanStart(init) && DepositsKept(init, db) && a in db.auctions
    requires forall c :: c in Names(db, a, ids) ==> Passes(db, a, ids, c)
    ensures Done(db, a)
  {
    hide Names, CleanStart, DepositsKept;
    NamesMembers(db, a, ids);
    assert Passes(db, a, ids, AllLosersRefunded);
    if db.auctions[a].winnerId.Some? {
      assert Passes(db, a, ids, WinnerDepositCaptured);
      var d :| WinnersCaptured(db, a, d);
      OneWinnersDeposit(init, db, a, d);
    }
  }

  /** Exactly when the report of a settled, fully enrolled auction passes as a whole: the winner, if
      any, has a deposit, and that deposit is worth at least the final price.  Settlement itself
      sees to every other check and to nothing about the price. */
  lemma ReconciliationVerdict(init: Db, events: seq<Event>, retryEdge: bool, a: AuctionId, ids: seq<DepositId>)
    requires CleanStart(init) && !SettledByHand(init, events, retryEdge, a) && FullyEnrolled(init, a)
    requires var db := After(init, events, retryEdge).world.db;
             a in db.auctions && db.auctions[a].status == Settled && Lists(db, a, ids)
    ensures var db := After(init, events, retryEdge).world.db;
            (forall c :: c in Names(db, a, ids) ==> Passes(db, a, ids, c))
            <==> WinnerEnrolled(db, a) && DepositCoversPrice(db, a)
  {
    hide Names, Passes, Stored, CleanStart, FullyEnrolled, WinnerEnrolled, DepositCoversPrice;
    var db := After(init, events, retryEdge).world.db;
    SettledDone(init, events, retryEdge, a);
    DoneVerdict(init, db, a, ids);
    assert forall i :: 0 <= i < |ids| ==> ids[i] in ids && OfAuction(db, a, ids[i]);
    RowsMatch(init, events, retryEdge, ids, DepositCaptured, Captured);
    RowsMatch(init, events, retryEdge, ids, DepositRefunded, Refunded);
  }

  lemma NamesMembers(db: Db, a: AuctionId, ids: seq<DepositId>)
    requires a in db.auctions
    ensures forall c :: c in {NoStuckHeldDeposits, AllLosersRefunded, CapturedLedgerEntries, RefundedLedgerEntries} ==>
              c in Names(db, a, ids)
    ensures WinnerDepositCaptured in Names(db, a, ids) <==> db.auctions[a].winnerId.Some?
    ensures NoWinnerNoCapture in Names(db, a, ids) <==> db.auctions[a].winnerId.None?
    ensures CapturedAmountSufficient in Names(db, a, ids)
            <==> db.auctions[a].winnerId.Some? && db.auctions[a].finalPrice.Some?
                 && Passes(db, a, ids, WinnerDepositCaptured)
  {
    hide Names, Passes, DepositsIn;
    forall c ensures c in Names(db, a, ids) <==> Applies(db, a, c) { NamesExactly(db, a, ids, c); }
    WinnerHolds(db, a, ids, WinnerDepositCaptured);
  }

  lemma AmountVerdict(init: Db, db: Db, a: AuctionId, ids: seq<DepositId>)
    requires CleanStart(init) && DepositsKept(init, db) && a in db.auctions && Done(db, a)
    ensures CapturedAmountSufficient in Names(db, a, ids) ==>
              (Passes(db, a, ids, CapturedAmountSufficient) <==> DepositCoversPrice(db, a))
    ensures CapturedAmountSufficient !in Names(db, a, ids) && WinnerEnrolled(db, a) ==> DepositCoversPrice(db, a)
  {
    hide Names, CleanStart, DepositsKept;
    NamesMembers(db, a, ids);
    if db.auctions[a].winnerId.Some? { WinnerCaught(db, a); }
    if CapturedAmountSufficient in Names(db, a, ids) {
      var d :| WinnersCaptured(db, a, d);
      OneWinnersDeposit(init, db, a, d);
    }
  }

  lemma OneWinnersDeposit(init: Db, db: Db, a: AuctionId, d: DepositId)
    requires CleanStart(init) && DepositsKept(init, db) && a in db.auctions && WinnersCaptured(db, a, d)
    ensures forall e :: OfAuction(db, a, e) && db.auctions[a].winnerId == Some(db.deposits[e].user) ==> e == d
  {
    forall e | OfAuction(db, a, e) && db.auctions[a].winnerId == Some(db.deposits[e].user) ensures e == d {
      assert init.deposits[e].user == init.deposits[d].user && init.deposits[e].auction == init.deposits[d].auction;
    }
  }

  // ---- Known before settlement begins ---------------------------------

  predicate Over(s: AuctionStatus) {
    s == Ended || InSettlement(s)
  }

  predicate KeptOver(db: Db, db': Db, a: AuctionId)
    requires a in db.auctions
  {
    a in db'.auctions && Over(db'.auctions[a].status) && SameOutcome(db.auctions[a], db'.auctions[a])
  }

  lemma CloseOutcomeKept(db: Db, m: Manifest, to: AuctionStatus, a: AuctionId)
    requires a in db.auctions && Over(db.auctions[a].status) && InSettlement(to)
    ensures KeptOver(db, CloseTx(db, m, to), a)
  {
  }

  lemma FinalizeOutcomeKept(db: Db, m: Manifest, a: AuctionId)
    requires a in db.auctions && Over(db.auctions[a].status)
    ensures KeptOver(db, FinalizeTx(db, m), a)
  {
    hide CloseTx, KeptOver;
    var n := AckCount(m.items);
    match Judge(m.items)
    case AllAcknowledged => CloseOutcomeKept(db, m.(status := Completed, acked := n), Settled, a);
    case RetriesExhausted => CloseOutcomeKept(db, m.(status := Escalated, acked := n), SettlementFailed, a);
    case InProgress => SameRowKept(db, SaveTx(db, m.(acked := n)), a);
  }

  lemma SameRowKept(db: Db, db': Db, a: AuctionId)
    requires a in db.auctions && Over(db.auctions[a].status) && db'.auctions == db.auctions
    ensures KeptOver(db, db', a)
  {
  }

  lemma NewRowKept(db: Db, db': Db, a: AuctionId, b: AuctionId, row: Auction)
    requires a in db.auctions && Over(db.auctions[a].status) && b in db.auctions
    requires b == a ==> Over(row.status) && SameOutcome(db.auctions[a], row)
    requires db'.auctions == db.auctions[b := row]
    ensures KeptOver(db, db', a)
  {
  }

  lemma OtherRowsKept(db: Db, e: Effect, retryEdge: bool, a: AuctionId)
    requires a in db.auctions && Over(db.auctions[a].status)
    requires e.Initiates? || e.Retries? || e.Concludes? || e.Moves?
    ensures KeptOver(db, PerformDb(db, e, retryEdge), a)
  {
    hide KeptOver, AnyFailed, ResetItems, TriggerAdmits, NewManifest;
    var db' := PerformDb(db, e, retryEdge);
    if db'.auctions == db.auctions {
      SameRowKept(db, db', a);
    } else {
      match e
      case Initiates(b, _) => NewRowKept(db, db', a, b, WithStatus(db.auctions[b], Settling));
      case Retries(m) => NewRowKept(db, db', a, m.auction, WithStatus(db.auctions[m.auction], Settling));
      case Concludes(b, winner, now) => NewRowKept(db, db', a, b, EndedRow(db.auctions[b], winner, now));
      case Moves(b, to, now) => NewRowKept(db, db', a, b, ManualRow(db.auctions[b], to, now));
    }
  }

  /** Nothing that settlement or an administrator writes changes the outcome of an auction that is over. */
  lemma RowOutcomeKept(db: Db, e: Effect, retryEdge: bool, a: AuctionId)
    requires a in db.auctions && Over(db.auctions[a].status)
    ensures KeptOver(db, PerformDb(db, e, retryEdge), a)
  {
    hide KeptOver, FinalizeTx, CloseTx, InitiateTx, RetryTx, ConcludeTx, ManualTx;
    match e
    case Finalizes(m) => FinalizeOutcomeKept(db, m, a);
    case ForceCloses(m) =>
      CloseOutcomeKept(db, m, SettlementFailed, a);
      SameRowKept(db, SaveTx(db, m), a);
    case Initiates(_, _) => OtherRowsKept(db, e, retryEdge, a);
    case Retries(_) => OtherRowsKept(db, e, retryEdge, a);
    case Concludes(_, _, _) => OtherRowsKept(db, e, retryEdge, a);
    case Moves(_, _, _) => OtherRowsKept(db, e, retryEdge, a);
    case _ => SameRowKept(db, PerformDb(db, e, retryEdge), a);
  }

  lemma {:induction false} RunOutcomeKept(s: Sys, more: seq<Event>, retryEdge: bool, a: AuctionId)
    requires a in s.world.db.auctions && Over(s.world.db.auctions[a].status)
    ensures var db' := Run(s, more, retryEdge).world.db;
            && a in db'.auctions && Over(db'.auctions[a].status)
            && SameOutcome(s.world.db.auctions[a], db'.auctions[a])
  {
    hide Goto, EffectOf, PerformDb;
    if more != [] {
      var mid := Run(s, more[..|more| - 1], retryEdge);
      RunOutcomeKept(s, more[..|more| - 1], retryEdge, a);
      RowOutcomeKept(mid.world.db, EffectOf(mid, more[|more| - 1]), retryEdge, a);
    }
  }

  /** The two conditions of the verdict look only at what no longer changes. */
  lemma SameConditions(x: World, y: World, a: AuctionId)
    requires Evolves(x, y) && a in x.db.auctions && a in y.db.auctions
    requires SameOutcome(x.db.auctions[a], y.db.auctions[a])
    ensures WinnerEnrolled(x.db, a) <==> WinnerEnrolled(y.db, a)
    ensures DepositCoversPrice(x.db, a) <==> DepositCoversPrice(y.db, a)
  {
    assert forall d :: d in x.db.deposits <==> d in y.db.deposits;
    forall d | d in x.db.deposits
      ensures OfAuction(x.db, a, d) <==> OfAuction(y.db, a, d)
      ensures y.db.deposits[d].user == x.db.deposits[d].user && y.db.deposits[d].amount == x.db.deposits[d].amount
    {
      assert y.db.deposits[d] == x.db.deposits[d].(status := y.db.deposits[d].status);
    }
    if WinnerEnrolled(x.db, a) && x.db.auctions[a].winnerId.Some? {
      var d :| OfAuction(x.db, a, d) && x.db.auctions[a].winnerId == Some(x.db.deposits[d].user);
      assert OfAuction(y.db, a, d);
    }
    if WinnerEnrolled(y.db, a) && y.db.auctions[a].winnerId.Some? {
      var d :| OfAuction(y.db, a, d) && y.db.auctions[a].winnerId == Some(y.db.deposits[d].user);
      assert OfAuction(x.db, a, d);
    }
  }

  /** Whether the report will pass can be told as soon as the auction is over, before settlement begins:
      for any way the run goes on to settle it, the report passes iff at that earlier moment the winner,
      if any, had a deposit worth at least the final price. */
  lemma VerdictKnownAtTheEnd(
    init: Db, events: seq<Event>, more: seq<Event>, retryEdge: bool, a: AuctionId, ids: seq<DepositId>)
    requires CleanStart(init) && FullyEnrolled(init, a) && !SettledByHand(init, events + more, retryEdge, a)
    requires var x := After(init, events, retryEdge).world.db; a in x.auctions && Over(x.auctions[a].status)
    requires var db := After(init, events + more, retryEdge).world.db;
             a in db.auctions && db.auctions[a].status == Settled && Lists(db, a, ids)
    ensures var x, db := After(init, events, retryEdge).world.db, After(init, events + more, retryEdge).world.db;
            (forall c :: c in Names(db, a, ids) ==> Passes(db, a, ids, c))
            <==> WinnerEnrolled(x, a) && DepositCoversPrice(x, a)
  {
    hide Step, SysInv, Evolves, Names, Passes, Lists, FullyEnrolled, CleanStart, WinnerEnrolled, DepositCoversPrice;
    var s := After(init, events, retryEdge);
    RunInv(init, events, retryEdge);
    RunConcat(Start(init), events, more, retryEdge);
    RunEvolves(init, s, more, retryEdge);
    RunOutcomeKept(s, more, retryEdge, a);
    SameConditions(s.world, After(init, events + more, retryEdge).world, a);
    ReconciliationVerdict(init, events + more, retryEdge, a, ids);
  }
}
