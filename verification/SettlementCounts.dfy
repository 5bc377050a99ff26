/**
 The acknowledged count in the manifest's row: in every stored row of every run it is the number of
 items the row has acknowledged, although copies of any age are written over it.
 */
module SettlementCounts {
  import opened Wrappers
  import opened Auctions
  import opened Settlement
  import opened SettlementMachine
  import opened SettlementBooks
  import opened SettlementRuns
  import opened SettlementTheorems

  predicate Exact(m: Manifest) {
    m.acked == AckCount(m.items)
  }

  predicate AllExact(q: seq<Manifest>) {
    forall i :: 0 <= i < |q| ==> Exact(q[i])
  }

  /** While an item is being processed the copy's count may lag; it is recounted when the copy is saved. */
  predicate PcExact(pc: Pc) {
    match pc
    case Idle => true
    case Tick(q, _) => AllExact(q)
    case At(j, p) =>
      AllExact(j.queue) && (p == Loop || p == Finalize || p == Expire || p == Oversize ==> Exact(j.m))
  }

  ghost predicate StoredExact(db: Db) {
    forall a :: a in db.manifests ==> Exact(db.manifests[a])
  }

  ghost predicate EveryCopyExact(s: Sys) {
    && StoredExact(s.world.db)
    && (forall w :: w in s.workers ==> PcExact(s.workers[w]))
    && (forall k :: k in s.admins ==> Exact(s.admins[k]))
  }

  lemma {:induction false} PlanCountsNone(db: Db, a: AuctionId, ps: seq<Participant>)
    requires a in db.auctions
    ensures AckCount(PlanItems(db, a, ps)) == 0
  {
    if ps != [] {
      var k := |ps| - 1;
      PlanCountsNone(db, a, ps[..k]);
      if Qualifies(db, ps[k]) {
        var items := PlanItems(db, a, ps);
        assert items[..|items| - 1] == PlanItems(db, a, ps[..k]);
      } else {
        assert PlanItems(db, a, ps) == PlanItems(db, a, ps[..k]);
      }
    }
  }

  lemma {:induction false} ResetCountsSame(items: seq<Item>)
    ensures AckCount(ResetItems(items)) == AckCount(items)
  {
    if items != [] {
      var k := |items| - 1;
      ResetCountsSame(items[..k]);
      var r := ResetItems(items);
      assert r == ResetItems(items[..k]) + [ResetItem(items[k])];
      assert r[..|r| - 1] == ResetItems(items[..k]);
    }
  }

  lemma NewExact(db: Db, a: AuctionId, now: int)
    requires a in db.auctions
    ensures Exact(NewManifest(db, a, now))
  {
    PlanCountsNone(db, a, ParticipantsOf(db, a));
  }

  predicate WritesExact(e: Effect) {
    match e
    case Saves(m) => Exact(m)
    case ForceCloses(m) => Exact(m)
    case Retries(m) => Exact(m)
    case _ => true
  }

  lemma RowExact(db: Db, db': Db, m: Manifest)
    requires StoredExact(db) && Exact(m)
    requires db'.manifests == db.manifests || db'.manifests == db.manifests[m.auction := m]
    ensures StoredExact(db')
  {
  }

  lemma FinalizeExact(db: Db, m: Manifest)
    requires StoredExact(db)
    ensures StoredExact(FinalizeTx(db, m))
  {
    hide AckCount, AnyExhausted, StoredExact;
    var n := AckCount(m.items);
    match Judge(m.items)
    case AllAcknowledged => RowExact(db, FinalizeTx(db, m), m.(status := Completed, acked := n));
    case RetriesExhausted => RowExact(db, FinalizeTx(db, m), m.(status := Escalated, acked := n));
    case InProgress => RowExact(db, FinalizeTx(db, m), m.(acked := n));
  }

  lemma EffectExact(db: Db, e: Effect, retryEdge: bool)
    requires StoredExact(db) && WritesExact(e)
    ensures StoredExact(PerformDb(db, e, retryEdge))
  {
    hide FinalizeTx, CanRetry, ManualMove, NewManifest, ResetItems, StoredExact, AckCount;
    var db' := PerformDb(db, e, retryEdge);
    match e
    case Saves(m) => RowExact(db, db', m);
    case Finalizes(m) => FinalizeExact(db, m);
    case ForceCloses(m) => RowExact(db, db', m);
    case Retries(m) =>
      ResetCountsSame(m.items);
      RowExact(db, db', m.(items := ResetItems(m.items), status := Active));
    case Initiates(a, now) =>
      if CanInitiate(db, a) {
        NewExact(db, a, now);
        CreatedExact(db, a, now);
      }
    case _ => SameRowsExact(db, db');
  }

  lemma SameRowsExact(db: Db, db': Db)
    requires StoredExact(db) && db'.manifests == db.manifests
    ensures StoredExact(db')
  {
  }

  lemma CreatedExact(db: Db, a: AuctionId, now: int)
    requires StoredExact(db) && CanInitiate(db, a) && Exact(NewManifest(db, a, now))
    ensures StoredExact(InitiateTx(db, a, now))
  {
    hide AckCount, PlanItems;
  }

  lemma LoadedExact(db: Db, order: seq<AuctionId>)
    requires StoredExact(db)
    ensures AllExact(ActiveManifests(db, order))
  {
    hide AckCount;
  }

  lemma MoveExact(db: Db, pc: Pc, work: Work)
    requires StoredExact(db) && PcExact(pc)
    ensures PcExact(Goto(db, pc, work))
  {
    hide StoredExact, StatusOf, ActiveManifests, NewManifest, AckCount, Processable;
    match work
    case Initiate(a, now, _) => if CanInitiate(db, a) { NewExact(db, a, now); }
    case Load(order) => LoadedExact(db, order);
    case _ =>
  }

  lemma EmitExact(pc: Pc, work: Work)
    requires PcExact(pc)
    ensures WritesExact(Emit(pc, work))
  {
    hide AckCount, AllExact;
  }

  lemma StepExact(s: Sys, e: Event, retryEdge: bool)
    requires EveryCopyExact(s)
    ensures EveryCopyExact(Step(s, e, retryEdge))
  {
    hide Goto, Emit, PerformDb, Exact;
    if e.Worker? {
      assert PcExact(PcOf(s, e.w));
      EmitExact(PcOf(s, e.w), e.work);
      MoveExact(s.world.db, PcOf(s, e.w), e.work);
    }
    EffectExact(s.world.db, EffectOf(s, e), retryEdge);
  }

  lemma {:induction false} RunExact(init: Db, events: seq<Event>, retryEdge: bool)
    requires CleanStart(init)
    ensures EveryCopyExact(After(init, events, retryEdge))
  {
    hide Step;
    if events != [] {
      RunExact(init, events[..|events| - 1], retryEdge);
      StepExact(After(init, events[..|events| - 1], retryEdge), events[|events| - 1], retryEdge);
    }
  }

  /** The items that are acknowledged, by their position. */
  function AckedItems(items: seq<Item>): set<nat> {
    set i | 0 <= i < |items| && items[i].status == Acknowledged
  }

  lemma OneItemMore(items: seq<Item>)
    requires items != []
    ensures var k := |items| - 1;
            |AckedItems(items)| == |AckedItems(items[..k])| + if items[k].status == Acknowledged then 1 else 0
  {
    var k := |items| - 1;
    var before, all := AckedItems(items[..k]), AckedItems(items);
    forall i ensures i in before <==> i in all && i != k {
      if 0 <= i < k { assert items[..k][i] == items[i]; }
    }
    if items[k].status == Acknowledged { assert all == before + {k}; } else { assert all == before; }
  }

  lemma {:induction false} AckCountIsSize(items: seq<Item>)
    ensures AckCount(items) == |AckedItems(items)|
  {
    hide AckedItems;
    if items != [] {
      AckCountIsSize(items[..|items| - 1]);
      OneItemMore(items);
    } else {
      NoneAcked();
    }
  }

  lemma NoneAcked()
    ensures AckedItems([]) == {}
  {
  }

  /** In every state of every run the stored count is the number of items that the row has acknowledged, and it is
      the total iff that is all of them. */
  lemma CountIsExact(init: Db, events: seq<Event>, retryEdge: bool, a: AuctionId)
    requires CleanStart(init) && a in After(init, events, retryEdge).world.db.manifests
    ensures var m := After(init, events, retryEdge).world.db.manifests[a];
            && m.total == |m.items| && m.acked == |AckedItems(m.items)|
            && (m.acked == m.total <==> forall i :: 0 <= i < |m.items| ==> m.items[i].status == Acknowledged)
  {
    hide Step, Run, AckedItems;
    RunExact(init, events, retryEdge);
    RunInv(init, events, retryEdge);
    assert Stored(init, After(init, events, retryEdge).world.db, a);
    AckCountIsSize(After(init, events, retryEdge).world.db.manifests[a].items);
  }
}
