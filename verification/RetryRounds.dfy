/**
 Runs through the administrator's retry endpoint, with the trigger admitting the way back: rounds of
 escalation and retry without end, and a retry of a copy that is out of date.
 */
module RetryRounds {
  import opened Wrappers
  import opened Auctions
  import opened Settlement
  import opened SettlementMachine
  import opened SettlementBooks
  import opened SettlementTheorems
  import opened OneItem
  import opened ShortDeposit
  import opened Reconcile

  // ---- Escalation and retry -------------------------------------------

  /** The winner's item after `r` failures. */
  function FailedTimes(r: nat): Item {
    WinnersItem().(status := if r == 0 then Pending else Failed, retries := r)
  }

  function CopyAfter(r: nat): Manifest {
    WinnersManifest().(items := [FailedTimes(r)], status := if r >= MAX_RETRIES then Escalated else Active)
  }

  /** The tables with the winner's item failed `r` times and `v` saves of the auction made. */
  function Tables(v: nat, r: nat): Db {
    WonAuction().(
    auctions := map[0 := WonAuction().auctions[0].(
      status := if r >= MAX_RETRIES then SettlementFailed else Settling, version := v)],
    manifests := map[0 := CopyAfter(r)])
  }

  lemma Initiated()
    ensures InitiateTx(WonAuction(), 0, 0) == Tables(2, 0)
  {
    Planning(WonAuction());
  }

  lemma FailedOnce(v: nat, r: nat)
    requires r < MAX_RETRIES
    ensures Waiting(Tables(v, r), CopyAfter(r), FailedTimes(r))
    ensures var failed := Saved(CopyAfter(r), Fail(FailedTimes(r)));
            FinalizeTx(SaveTx(Tables(v, r), failed), failed) == Tables(if r + 1 == MAX_RETRIES then v + 1 else v, r + 1)
  {
    var it := Fail(FailedTimes(r));
    assert it == FailedTimes(r + 1);
    assert AckCount([it]) == 0 by { assert [it][..0] == []; }
    assert r + 1 == MAX_RETRIES ==> Exhausted([it][0]);
  }

  /** One more failing tick; the third escalates. */
  lemma OneFailure(v: nat, r: nat)
    requires r < MAX_RETRIES
    ensures Drive(Scene(Tables(v, r), Idle), FailingTick(), true)
         == Scene(Tables(if r + 1 == MAX_RETRIES then v + 1 else v, r + 1), Idle)
  {
    hide Drive, FailingTick, FinalizeTx, SaveTx, Waiting, Tables, CopyAfter, FailedTimes;
    FailedOnce(v, r);
    FailingTickLeads(Tables(v, r), CopyAfter(r), FailedTimes(r), true);
  }

  function ThreeFailures(): seq<Work> {
    FailingTick() + FailingTick() + FailingTick()
  }

  lemma Escalation(v: nat)
    ensures Drive(Scene(Tables(v, 0), Idle), ThreeFailures(), true) == Scene(Tables(v + 1, 3), Idle)
  {
    hide Drive, FailingTick, Tables;
    OneFailure(v, 0);
    OneFailure(v, 1);
    OneFailure(v, 2);
    Then(Scene(Tables(v, 0), Idle), FailingTick(), FailingTick(), true);
    Then(Scene(Tables(v, 0), Idle), FailingTick() + FailingTick(), FailingTick(), true);
  }

  lemma ResetOne()
    ensures ResetItems(CopyAfter(3).items) == CopyAfter(0).items
  {
    assert ResetItems(CopyAfter(3).items)[0] == ResetItem(FailedTimes(3));
  }

  lemma Retriable(v: nat)
    ensures CanRetry(Tables(v, 3), CopyAfter(3), true)
  {
    assert CopyAfter(3).items[0].status == Failed;
  }

  lemma Retried(v: nat)
    ensures CanRetry(Tables(v, 3), CopyAfter(3), true)
    ensures RetryTx(Tables(v, 3), CopyAfter(3), true) == Tables(v + 1, 0)
  {
    hide CanRetry, ResetItems, AnyFailed;
    Retriable(v);
    ResetOne();
    assert CopyAfter(3).(items := CopyAfter(0).items, status := Active) == CopyAfter(0);
  }

  // ---- Rounds without end ---------------------------------------------

  /** Initiation, and `n` times three failing ticks and the endpoint's read and commit. */
  function Rounds(n: nat): seq<Event> {
    if n == 0 then AsEvents([Initiate(0, 0, Committed)])
    else Rounds(n - 1) + AsEvents(ThreeFailures()) + [AdminRead(1, 0), AdminCommit(1, Committed)]
  }

  /** The endpoint called by somebody who reads and commits at once. */
  lemma EndpointCall(s: Sys, v: nat)
    requires SceneOf(s) == Scene(Tables(v, 3), Idle) && s.admins == map[]
    ensures var t := Run(s, [AdminRead(1, 0), AdminCommit(1, Committed)], true);
            SceneOf(t) == Scene(Tables(v + 1, 0), Idle) && t.admins == map[]
  {
    hide RetryTx, CanRetry;
    Retried(v);
    TwoEvents(s, AdminRead(1, 0), AdminCommit(1, Committed), true);
  }

  lemma FirstRound()
    ensures var s := After(WonAuction(), Rounds(0), true);
            SceneOf(s) == Scene(Tables(2, 0), Idle) && s.admins == map[]
  {
    hide Run, Drive, InitiateTx, Tables;
    Initiated();
    Prepared(WonAuction(), true);
    DriveIsRun(Start(WonAuction()), [Initiate(0, 0, Committed)], true);
  }

  /** Where `n` rounds lead, and where three more failing ticks lead from there. */
  lemma {:induction false} RoundsLead(n: nat)
    ensures var s := After(WonAuction(), Rounds(n), true);
            SceneOf(s) == Scene(Tables(2 + 2 * n, 0), Idle) && s.admins == map[]
    ensures var s := After(WonAuction(), Rounds(n) + AsEvents(ThreeFailures()), true);
            SceneOf(s) == Scene(Tables(3 + 2 * n, 3), Idle) && s.admins == map[]
  {
    hide Run, Drive, Tables, ThreeFailures;
    var s0, failing := Start(WonAuction()), AsEvents(ThreeFailures());
    if n == 0 {
      FirstRound();
    } else {
      RoundsLead(n - 1);
      EndpointCall(Run(s0, Rounds(n - 1) + failing, true), 3 + 2 * (n - 1));
      RunConcat(s0, Rounds(n - 1) + failing, [AdminRead(1, 0), AdminCommit(1, Committed)], true);
    }
    RunConcat(s0, Rounds(n), failing, true);
    DriveIsRun(Run(s0, Rounds(n), true), ThreeFailures(), true);
    Escalation(2 + 2 * n);
  }

  /** How often in the run the endpoint's commit brought auction `a` back from failure. */
  function Retries(init: Db, events: seq<Event>, a: AuctionId): nat {
    if events == [] then 0
    else
      var k := |events| - 1;
      var x, y := After(init, events[..k], true).world.db, After(init, events, true).world.db;
      Retries(init, events[..k], a)
      + if events[k].AdminCommit? && Failing(x, a) && AuctionSettling(y, a) then 1 else 0
  }

  predicate Failing(db: Db, a: AuctionId) {
    a in db.auctions && db.auctions[a].status == SettlementFailed
  }

  lemma {:induction false} WorkersDoNotRetry(init: Db, before: seq<Event>, works: seq<Work>, a: AuctionId)
    ensures Retries(init, before + AsEvents(works), a) == Retries(init, before, a)
  {
    hide Run;
    var events := before + AsEvents(works);
    if works == [] {
      assert events == before;
    } else {
      var k := |works| - 1;
      WorkersDoNotRetry(init, before, works[..k], a);
      assert events[..|events| - 1] == before + AsEvents(works[..k]);
    }
  }

  lemma OneRetry(init: Db, before: seq<Event>, a: AuctionId, k: AdminId)
    requires var x := After(init, before, true).world.db; Failing(x, a)
    requires AuctionSettling(After(init, before + [AdminRead(k, a), AdminCommit(k, Committed)], true).world.db, a)
    ensures Retries(init, before + [AdminRead(k, a), AdminCommit(k, Committed)], a) == Retries(init, before, a) + 1
  {
    var events := before + [AdminRead(k, a), AdminCommit(k, Committed)];
    assert events[..|events| - 1] == before + [AdminRead(k, a)];
    assert (before + [AdminRead(k, a)])[..|before|] == before;
    ReadingChangesNothing(After(init, before, true), k, a);
  }

  lemma ReadingChangesNothing(s: Sys, k: AdminId, a: AuctionId)
    ensures Step(s, AdminRead(k, a), true).world == s.world
  {
  }

  lemma {:induction false} CountRounds(n: nat)
    ensures Retries(WonAuction(), Rounds(n), 0) == n
  {
    hide Run, Retries, ThreeFailures, AsEvents;
    if n == 0 {
      WorkersDoNotRetry(WonAuction(), [], [Initiate(0, 0, Committed)], 0);
      NoRetryYet();
      assert [] + AsEvents([Initiate(0, 0, Committed)]) == Rounds(0);
    } else {
      CountRounds(n - 1);
      RoundsLead(n - 1);
      RoundsLead(n);
      StatusOfTables(3 + 2 * (n - 1), 3);
      StatusOfTables(2 + 2 * n, 0);
      WorkersDoNotRetry(WonAuction(), Rounds(n - 1), ThreeFailures(), 0);
      OneRetry(WonAuction(), Rounds(n - 1) + AsEvents(ThreeFailures()), 0, 1);
    }
  }

  lemma StatusOfTables(v: nat, r: nat)
    ensures Failing(Tables(v, r), 0) <==> r >= MAX_RETRIES
    ensures AuctionSettling(Tables(v, r), 0) <==> r < MAX_RETRIES
    ensures Tables(v, r).manifests == map[0 := CopyAfter(r)]
    ensures AnyExhausted(CopyAfter(r).items) <==> r >= MAX_RETRIES
  {
    assert CopyAfter(r).items[0] == FailedTimes(r);
  }

  /** With the edge there is no bound on the rounds of escalation and retry: for every n a run brings the
      auction back n times through the endpoint, each time from an escalated manifest whose failed item has
      used up its attempts, to an active one; after three more failing ticks it can be retried again. */
  lemma RoundsWithoutEnd(n: nat)
    ensures CleanStart(WonAuction())
    ensures Retries(WonAuction(), Rounds(n), 0) == n
    ensures var db := After(WonAuction(), Rounds(n), true).world.db;
            AuctionSettling(db, 0) && db.manifests == map[0 := WinnersManifest()]
    ensures var db := After(WonAuction(), Rounds(n) + AsEvents(ThreeFailures()), true).world.db;
            Failing(db, 0) && 0 in db.manifests && db.manifests[0].status == Escalated
            && AnyExhausted(db.manifests[0].items) && CanRetry(db, db.manifests[0], true)
  {
    hide Run, Retries, ThreeFailures, AsEvents, CanRetry, Tables, Failing, AuctionSettling, AnyExhausted, Rounds,
         CleanStart;
    Enrolment();
    CountRounds(n);
    RoundsLead(n);
    StatusOfTables(2 + 2 * n, 0);
    StatusOfTables(3 + 2 * n, 3);
    Retried(3 + 2 * n);
  }

  lemma NoRetryYet()
    ensures Retries(WonAuction(), [], 0) == 0
  {
  }

  /** In one of those states, escalated and failed, the winner's deposit of 1000 is still held, and the report's
      balance is false. */
  lemma FailedDoesNotBalance(n: nat)
    ensures var db := After(WonAuction(), Rounds(n) + AsEvents(ThreeFailures()), true).world.db;
            && Failing(db, 0) && Lists(db, 0, [0]) && Unaccounted(db, [0]) == 1000
            && !Passes(db, 0, [0], RefundBalance)
  {
    hide Run, ThreeFailures, AsEvents, Rounds;
    RoundsLead(n);
    var db := After(WonAuction(), Rounds(n) + AsEvents(ThreeFailures()), true).world.db;
    StatusOfTables(3 + 2 * n, 3);
    assert [0][..0] == [];
    GapIsUnaccounted(db, [0]);
  }

  // ---- A copy out of date ---------------------------------------------

  /** Up to the escalation. */
  function UpToRead(): seq<Event> {
    Rounds(0) + AsEvents(ThreeFailures())
  }

  function AckedCopy(): Manifest {
    Saved(WinnersManifest(), Ack(WinnersItem()))
  }

  /** Another administrator retries; the worker captures the deposit, saves the item acknowledged, and stops;
      when it is back the manifest has expired. */
  function SinceRead(): seq<Event> {
    [AdminRead(2, 0), AdminCommit(2, Committed)] + AsEvents(ChargingMoves() + ExpiringMoves(AckedCopy()))
  }

  lemma ChargedAndExpired(v: nat)
    ensures Drive(Scene(Tables(v, 0), Idle), ChargingMoves() + ExpiringMoves(AckedCopy()), true)
         == Scene(Expired(v), Tick([], 1))
  {
    hide Drive, ChargingMoves, ExpiringMoves, SaveTx, ForceCloseTx, Waiting, Tables, AckCount;
    FailedOnce(v, 0);
    assert CopyAfter(0) == WinnersManifest() && FailedTimes(0) == WinnersItem();
    ChargingLeads(Tables(v, 0), WinnersManifest(), WinnersItem(), true);
    SavedRow(CaptureTx(Tables(v, 0), WinnersItem()), AckedCopy());
    ExpiringLeads(Charged(v), At(JobAfter(AckedCopy()), Finalize), AckedCopy(), true);
    Then(Scene(Tables(v, 0), Idle), ChargingMoves(), ExpiringMoves(AckedCopy()), true);
  }

  lemma SavedRow(db: Db, m: Manifest)
    ensures m.auction in SaveTx(db, m).manifests && SaveTx(db, m).manifests[m.auction] == m
  {
  }

  function Charged(v: nat): Db {
    SaveTx(CaptureTx(Tables(v, 0), WinnersItem()), AckedCopy())
  }

  function Expired(v: nat): Db {
    ForceCloseTx(Charged(v), ExpiredCopy(AckedCopy()))
  }

  lemma ExpiredTables(v: nat)
    ensures var db := Expired(v);
            && db.manifests == map[0 := ExpiredCopy(AckedCopy())]
            && Failing(db, 0) && StatusOf(db, 0) == Some(Captured)
  {
  }

  lemma StaleCopyRetries(db: Db)
    requires Failing(db, 0)
    ensures CanRetry(db, CopyAfter(3), true)
    ensures RetryTx(db, CopyAfter(3), true).manifests == db.manifests[0 := WinnersManifest()]
    ensures AuctionSettling(RetryTx(db, CopyAfter(3), true), 0)
    ensures RetryTx(db, CopyAfter(3), true).deposits == db.deposits
  {
    hide ResetItems;
    assert CopyAfter(3).items[0].status == Failed;
    ResetOne();
    assert CopyAfter(3).(items := CopyAfter(0).items, status := Active) == WinnersManifest();
  }

  lemma OtherRetries(s: Sys, v: nat)
    requires SceneOf(s) == Scene(Tables(v, 3), Idle) && s.admins == map[1 := CopyAfter(3)]
    ensures var t := Run(s, [AdminRead(2, 0), AdminCommit(2, Committed)], true);
            SceneOf(t) == Scene(Tables(v + 1, 0), Idle) && t.admins == map[1 := CopyAfter(3)]
  {
    hide RetryTx, CanRetry;
    Retried(v);
    TwoEvents(s, AdminRead(2, 0), AdminCommit(2, Committed), true);
  }

  /** The state just before the stale commit. */
  lemma BeforeTheCommit()
    ensures var s := After(WonAuction(), UpToRead() + [AdminRead(1, 0)] + SinceRead(), true);
            s.world.db == Expired(4) && s.admins == map[1 := CopyAfter(3)]
  {
    hide Run, Drive, Tables, ThreeFailures, ChargingMoves, ExpiringMoves, Expired;
    var s0, reading := Start(WonAuction()), [AdminRead(1, 0)];
    var first, works := [AdminRead(2, 0), AdminCommit(2, Committed)], ChargingMoves() + ExpiringMoves(AckedCopy());
    RoundsLead(0);
    RunConcat(s0, UpToRead(), reading, true);
    RunConcat(s0, UpToRead() + reading, SinceRead(), true);
    var s1 := Run(s0, UpToRead() + reading, true);
    Reads(Run(s0, UpToRead(), true));
    RunConcat(s1, first, AsEvents(works), true);
    OtherRetries(s1, 3);
    DriveIsRun(Run(s1, first, true), works, true);
    ChargedAndExpired(4);
  }

  lemma Reads(s: Sys)
    requires SceneOf(s) == Scene(Tables(3, 3), Idle) && s.admins == map[]
    ensures var t := Run(s, [AdminRead(1, 0)], true);
            SceneOf(t) == Scene(Tables(3, 3), Idle) && t.admins == map[1 := CopyAfter(3)]
  {
    assert [AdminRead(1, 0)][..0] == [];
  }

  /** The claim that a retry never resets an acknowledged item is false: the administrator's copy was read
      before another one's retry, and committing it sets the item, by then captured and acknowledged, back to
      pending. */
  lemma StaleRetryResetsAnAck()
    ensures CleanStart(WonAuction()) && Waits(SinceRead(), 1)
    ensures var upto := UpToRead() + [AdminRead(1, 0)] + SinceRead();
            var x := After(WonAuction(), upto, true).world.db;
            var y := After(WonAuction(), upto + [AdminCommit(1, Committed)], true).world.db;
            && 0 in x.manifests && x.manifests[0].items == [Ack(WinnersItem())] && x.manifests[0].acked == 1
            && y.manifests == map[0 := WinnersManifest()] && AuctionSettling(y, 0)
            && StatusOf(x, 0) == StatusOf(y, 0) == Some(Captured)
  {
    hide Run, UpToRead, SinceRead, Expired, CanRetry, RetryTx, CleanStart, Failing, AuctionSettling;
    Enrolment();
    SinceReadWaits();
    BeforeTheCommit();
    ExpiredTables(4);
    StaleCopyRetries(Expired(4));
    CommitsStale(UpToRead() + [AdminRead(1, 0)] + SinceRead());
    assert AckCount([Ack(WinnersItem())]) == 1;
  }

  lemma CommitsStale(upto: seq<Event>)
    requires var s := After(WonAuction(), upto, true); 1 in s.admins && s.admins[1] == CopyAfter(3)
    ensures After(WonAuction(), upto + [AdminCommit(1, Committed)], true).world.db
         == RetryTx(After(WonAuction(), upto, true).world.db, CopyAfter(3), true)
  {
    hide RetryTx;
    assert (upto + [AdminCommit(1, Committed)])[..|upto|] == upto;
  }

  lemma SinceReadWaits()
    ensures Waits(SinceRead(), 1)
  {
    var works := ChargingMoves() + ExpiringMoves(AckedCopy());
    forall i | 0 <= i < |SinceRead()| ensures !(SinceRead()[i].AdminRead? && SinceRead()[i].k == 1)
                                              && !(SinceRead()[i].AdminCommit? && SinceRead()[i].k == 1)
    {
      if i >= 2 { assert SinceRead()[i] == AsEvents(works)[i - 2]; }
    }
  }
}
