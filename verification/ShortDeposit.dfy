/**
 Whole runs of an auction whose winner's deposit is worth less than the final price.  In one
 every transaction of settlement succeeds, and the reconciliation report still fails; with one
 more deposit, of a participant who is not eligible, it does not balance either.  In the last the
 auction is settled by hand and the money does not add up.
 */
module ShortDeposit {
  import opened Wrappers
  import opened Auctions
  import opened Settlement
  import opened SettlementMachine
  import opened SettlementBooks
  import opened SettlementTheorems
  import opened SettlementOutcome
  import opened OneItem
  import opened Reconcile
  import opened SettledReconciles
  import opened Bystanders

  /** One auction, won by user 7 at 5000 with a deposit of 1000. */
  function WonAuction(): Db {
    Db(map[0 := Auction(Ended, 100, 1, Some(5000), 1, Some(0), None, Some(5000), Some(7), Some(3), Some(0), 1)],
       map[0 := [Participant(7, 0, true)]],
       map[0 := Deposit(0, 7, 1000, Held)], [], [], map[], map[])
  }

  /** The same, and user 8, who is not eligible, has 500 held. */
  function CrowdedAuction(): Db {
    WonAuction().(participants := map[0 := [Participant(7, 0, true), Participant(8, 1, false)]],
    deposits := map[0 := Deposit(0, 7, 1000, Held), 1 := Deposit(0, 8, 500, Held)])
  }

  /** Either of them. */
  predicate IsWon(db: Db) {
    db == WonAuction() || db == CrowdedAuction()
  }

  function WinnersItem(): Item {
    Item(0, 7, Capture, 1000, Pending, Key(0, 0, Capture), 0)
  }

  function WinnersManifest(): Manifest {
    Manifest(0, [WinnersItem()], Active, 1, 0, MANIFEST_EXPIRY_MS)
  }

  function HappyPath(): seq<Work> {
    [Initiate(0, 0, Committed)] + ChargingMoves() + [Commit(Committed), Take(true, 0)]
  }

  lemma Planning(db: Db)
    requires IsWon(db)
    ensures NewManifest(db, 0, 0) == WinnersManifest()
    ensures CanInitiate(db, 0)
  {
    var p, q := Participant(7, 0, true), Participant(8, 1, false);
    assert [p][..0] == [] && [p, q][..1] == [p];
    assert PlanItems(db, 0, [p]) == PlanItems(db, 0, []) + [NewItem(db, 0, p)];
    assert PlanItems(db, 0, [p, q]) == PlanItems(db, 0, [p]) + [];
  }

  /** The auction is settled at its price, and the winner's deposit alone has moved. */
  predicate SettledOn(db: Db, db0: Db) {
    && db.auctions.Keys == {0} && db.auctions[0].status == Settled
    && db.auctions[0].finalPrice == Some(5000) && db.auctions[0].winnerId == Some(7)
    && db.deposits == db0.deposits[0 := Deposit(0, 7, 1000, Captured)]
  }

  lemma Finale(db0: Db, acked: Manifest)
    requires IsWon(db0) && CanInitiate(db0, 0) && acked == Saved(WinnersManifest(), Ack(WinnersItem()))
    ensures SettledOn(FinalizeTx(SaveTx(CaptureTx(InitiateTx(db0, 0, 0), WinnersItem()), acked), acked), db0)
  {
    assert Judge(acked.items) == AllAcknowledged;
  }

  lemma Prepared(db0: Db, retryEdge: bool)
    requires IsWon(db0)
    ensures Drive(Scene(db0, Idle), [Initiate(0, 0, Committed)], retryEdge) == Scene(InitiateTx(db0, 0, 0), Idle)
    ensures Waiting(InitiateTx(db0, 0, 0), WinnersManifest(), WinnersItem())
  {
    hide Drive, NewManifest;
    Planning(db0);
    One(Scene(db0, Idle), Initiate(0, 0, Committed), retryEdge);
  }

  lemma WholePath(db0: Db)
    requires IsWon(db0)
    ensures SettledOn(After(db0, AsEvents(HappyPath()), false).world.db, db0)
  {
    hide Drive, SettledOn, IsWon, Waiting, CaptureTx, SaveTx, FinalizeTx, InitiateTx, Counted, Run;
    var x0, db1, acked := Scene(db0, Idle), InitiateTx(db0, 0, 0), Saved(WinnersManifest(), Ack(WinnersItem()));
    Planning(db0);
    Prepared(db0, false);
    ChargingLeads(db1, WinnersManifest(), WinnersItem(), false);
    Ends(SaveTx(CaptureTx(db1, WinnersItem()), acked), acked, false);
    Then(x0, [Initiate(0, 0, Committed)], ChargingMoves(), false);
    Then(x0, [Initiate(0, 0, Committed)] + ChargingMoves(), [Commit(Committed), Take(true, 0)], false);
    DriveIsRun(Start(db0), HappyPath(), false);
    Finale(db0, acked);
  }

  lemma EitherIsWon()
    ensures IsWon(WonAuction()) && IsWon(CrowdedAuction())
  {
  }

  lemma Enrolment()
    ensures CleanStart(WonAuction()) && FullyEnrolled(WonAuction(), 0)
  {
    var ps := ParticipantsOf(WonAuction(), 0);
    assert ps[0].eligible && ps[0].deposit == 0;
  }

  /** The claim that a settled auction reconciles is false: here every step of settlement succeeds and
      the one check about the price fails. */
  lemma SettledButShort()
    ensures CleanStart(WonAuction()) && FullyEnrolled(WonAuction(), 0)
    ensures !SettledByHand(WonAuction(), AsEvents(HappyPath()), false, 0)
    ensures var db := After(WonAuction(), AsEvents(HappyPath()), false).world.db;
            && 0 in db.auctions && db.auctions[0].status == Settled && Lists(db, 0, [0])
            && CapturedAmountSufficient in Names(db, 0, [0])
            && !Passes(db, 0, [0], CapturedAmountSufficient)
  {
    hide IsWon, CleanStart, FullyEnrolled, Lists, Names, Passes, Run, HappyPath;
    var db0, ev := WonAuction(), AsEvents(HappyPath());
    Enrolment();
    EitherIsWon();
    NobodyMovesNobodySettles(db0, ev, false, 0);
    WholePath(db0);
    ShortVerdict(After(db0, ev, false).world.db);
  }

  lemma ShortVerdict(db: Db)
    requires db.auctions.Keys == {0}
    requires db.auctions[0].finalPrice == Some(5000) && db.auctions[0].winnerId == Some(7)
    requires db.deposits == map[0 := Deposit(0, 7, 1000, Captured)]
    ensures Lists(db, 0, [0])
    ensures CapturedAmountSufficient in Names(db, 0, [0])
    ensures !Passes(db, 0, [0], CapturedAmountSufficient)
  {
    assert OfAuction(db, 0, 0);
    assert WinnersCaptured(db, 0, 0);
  }

  // ---- A deposit passed over ------------------------------------------

  lemma CrowdedStart()
    ensures CleanStart(CrowdedAuction())
    ensures Tracked(CrowdedAuction(), 1) && !Enrolled(CrowdedAuction(), 0, 1)
  {
    assert ParticipantsOf(CrowdedAuction(), 0) == [Participant(7, 0, true), Participant(8, 1, false)];
  }

  /** The claim that every settled auction balances is false, also of one settled by the code: here each step
      of settlement succeeds, and the 500 of the participant who is not eligible stay held. */
  lemma SettledButUnbalanced()
    ensures CleanStart(CrowdedAuction()) && !SettledByHand(CrowdedAuction(), AsEvents(HappyPath()), false, 0)
    ensures var db := After(CrowdedAuction(), AsEvents(HappyPath()), false).world.db;
            && 0 in db.auctions && db.auctions[0].status == Settled && Lists(db, 0, [0, 1])
            && StatusOf(db, 1) == Some(Held)
            && SumAll(db, [0, 1]) - (SumDeposits(db, [0, 1], Captured) + SumDeposits(db, [0, 1], Refunded)) == 500
  {
    hide IsWon, CleanStart, Lists, SumAll, SumDeposits, Run, HappyPath;
    var db0, ev := CrowdedAuction(), AsEvents(HappyPath());
    CrowdedStart();
    EitherIsWon();
    NobodyMovesNobodySettles(db0, ev, false, 0);
    WholePath(db0);
    CrowdedSums(After(db0, ev, false).world.db);
  }

  lemma OneMore(db: Db, ids: seq<DepositId>, d: DepositId)
    requires d in db.deposits
    ensures SumAll(db, ids + [d]) == SumAll(db, ids) + db.deposits[d].amount
    ensures forall st :: SumDeposits(db, ids + [d], st)
                      == SumDeposits(db, ids, st) + if db.deposits[d].status == st then db.deposits[d].amount else 0
  {
    assert (ids + [d])[..|ids|] == ids;
  }

  lemma NobodySums(db: Db)
    ensures SumAll(db, []) == 0 && forall st :: SumDeposits(db, [], st) == 0
  {
  }

  lemma CrowdedSums(db: Db)
    requires SettledOn(db, CrowdedAuction())
    ensures Lists(db, 0, [0, 1]) && StatusOf(db, 1) == Some(Held)
    ensures SumAll(db, [0, 1]) - (SumDeposits(db, [0, 1], Captured) + SumDeposits(db, [0, 1], Refunded)) == 500
  {
    hide SumAll, SumDeposits;
    OneMore(db, [], 0);
    OneMore(db, [0], 1);
    assert [0] == [] + [0] && [0, 1] == [0] + [1];
    NobodySums(db);
    assert forall d :: OfAuction(db, 0, d) <==> d in [0, 1];
  }

  // ---- Settled by hand ------------------------------------------------

  function HandPath(): seq<Event> {
    [Worker(1, Initiate(0, 0, Committed)), Manual(0, Settled, 0)]
  }

  lemma TwoMoves(s: Sys, t: Sys)
    requires s == Step(Start(WonAuction()), Worker(1, Initiate(0, 0, Committed)), false)
    requires t == Step(s, Manual(0, Settled, 0), false)
    ensures s.world.db.auctions.Keys == {0} && s.world.db.auctions[0].status == Settling
    ensures t.world.db.auctions.Keys == {0} && t.world.db.auctions[0].status == Settled
    ensures t.world.db.manifests == map[0 := WinnersManifest()] && t.world.db.deposits == WonAuction().deposits
  {
    Planning(WonAuction());
  }

  lemma HandTrace(events: seq<Event>)
    requires events == HandPath()
    ensures events[..1][..0] == [] && events[..2] == events
    ensures After(WonAuction(), events[..1], false) == Step(Start(WonAuction()), events[0], false)
    ensures After(WonAuction(), events, false) == Step(After(WonAuction(), events[..1], false), events[1], false)
  {
    hide Step;
    RunSplit(Start(WonAuction()), events, 0, false);
    RunSplit(Start(WonAuction()), events, 1, false);
    assert events[..0] == [];
  }

  /** Settled by hand, an auction need not add up: here the winner's deposit is still held. */
  lemma SettledByHandDoesNotAddUp()
    ensures SettledByHand(WonAuction(), HandPath(), false, 0)
    ensures var db := After(WonAuction(), HandPath(), false).world.db;
            && 0 in db.auctions && db.auctions[0].status == Settled && 0 in db.manifests
            && var items := db.manifests[0].items;
               DepositsTotal(db, items, Captured) + DepositsTotal(db, items, Refunded) != ItemsTotal(items)
  {
    var ev := HandPath();
    HandTrace(ev);
    TwoMoves(After(WonAuction(), ev[..1], false), After(WonAuction(), ev, false));
    HeldAddsNothing(After(WonAuction(), ev, false).world.db);
    HandVerdict(ev);
  }

  lemma HandVerdict(ev: seq<Event>)
    requires |ev| == 2 && ev[1] == Manual(0, Settled, 0)
    requires StatusAfterRun(WonAuction(), ev[..1], false, 0) == Some(Settling)
    requires StatusAfterRun(WonAuction(), ev, false, 0) == Some(Settled)
    ensures SettledByHand(WonAuction(), ev, false, 0)
  {
  }

  lemma HeldAddsNothing(db: Db)
    requires db.deposits == WonAuction().deposits
    ensures var items := [WinnersItem()];
            DepositsTotal(db, items, Captured) + DepositsTotal(db, items, Refunded) == 0 && ItemsTotal(items) == 1000
  {
    assert [WinnersItem()][..0] == [];
  }
}
