/**
 The attempts recorded in copies of manifests: in every copy, in every run, nothing pending is
 out of attempts.  So the termination bound applies to every manifest that is ever stored.
 */
module SettlementAttempts {
  import opened Wrappers
  import opened Auctions
  import opened Settlement
  import opened SettlementMachine
  import opened SettlementBooks
  import opened SettlementRuns
  import opened SettlementTheorems
  import opened SettlementTicks

  predicate Unspent(items: seq<Item>) {
    forall i :: 0 <= i < |items| && items[i].status == Pending ==> items[i].retries < MAX_RETRIES
  }

  predicate AllUnspent(q: seq<Manifest>) {
    forall i :: 0 <= i < |q| ==> Unspent(q[i].items)
  }

  predicate PcUnspent(pc: Pc) {
    match pc
    case Idle => true
    case Tick(q, _) => AllUnspent(q)
    case At(j, _) => Unspent(j.m.items) && AllUnspent(j.queue)
  }

  ghost predicate StoredUnspent(db: Db) {
    forall a :: a in db.manifests ==> Unspent(db.manifests[a].items)
  }

  ghost predicate EveryCopyUnspent(s: Sys) {
    && StoredUnspent(s.world.db)
    && (forall w :: w in s.workers ==> PcUnspent(s.workers[w]))
    && (forall k :: k in s.admins ==> Unspent(s.admins[k].items))
  }

  // ---- Copies are made with attempts left -----------------------------

  lemma {:induction false} PlanUnspent(db: Db, a: AuctionId, ps: seq<Participant>)
    requires a in db.auctions
    ensures Unspent(PlanItems(db, a, ps))
  {
    if ps != [] { PlanUnspent(db, a, ps[..|ps| - 1]); }
  }

  lemma ResetUnspent(items: seq<Item>)
    requires Unspent(items)
    ensures Unspent(ResetItems(items))
  {
    forall i | 0 <= i < |items| && ResetItems(items)[i].status == Pending
      ensures ResetItems(items)[i].retries < MAX_RETRIES
    {
      assert ResetItems(items)[i] == ResetItem(items[i]);
    }
  }

  lemma LoadedUnspent(db: Db, order: seq<AuctionId>)
    requires StoredUnspent(db)
    ensures AllUnspent(ActiveManifests(db, order))
  {
  }

  /** An item put back by the worker is never pending. */
  lemma PutUnspent(j: Job, it: Item)
    requires HasItem(j) && Unspent(j.m.items) && it.status != Pending
    ensures Unspent(Put(j, it).m.items)
  {
  }

  lemma ReadUnspent(j: Job, status: Option<DepositStatus>)
    requires HasItem(j) && Unspent(j.m.items) && AllUnspent(j.queue)
    ensures PcUnspent(AfterRead(j, status)) && PcUnspent(AfterRecheck(j, status))
    ensures PcUnspent(AfterInitRecheck(j, status))
    ensures PcUnspent(FailItem(j)) && PcUnspent(AckItem(j)) && PcUnspent(SendItem(j))
  {
    hide Unspent, AllUnspent, Put;
    PutUnspent(j, Fail(Current(j)));
    PutUnspent(j, Ack(Current(j)));
    PutUnspent(j, Current(j).(status := Sent));
    QueueOfPut(j, Fail(Current(j)));
    QueueOfPut(j, Ack(Current(j)));
    QueueOfPut(j, Current(j).(status := Sent));
  }

  lemma QueueOfPut(j: Job, it: Item)
    requires HasItem(j)
    ensures Put(j, it).queue == j.queue
  {
  }

  lemma CommitUnspent(db: Db, j: Job, p: Point, fate: Fate)
    requires PcUnspent(At(j, p))
    ensures PcUnspent(AfterCommit(db, j, p, fate))
  {
    hide Unspent, AllUnspent, FailItem, AckItem, SendItem, StatusOf, RefundInitRaises;
    if HasItem(j) { ReadUnspent(j, None); }
  }

  lemma TakeUnspent(q: seq<Manifest>, served: nat, granted: bool, now: int)
    requires AllUnspent(q)
    ensures PcUnspent(AfterTake(q, served, granted, now))
  {
  }

  lemma MoveUnspent(db: Db, pc: Pc, work: Work)
    requires StoredUnspent(db) && PcUnspent(pc)
    ensures PcUnspent(Goto(db, pc, work))
  {
    hide StoredUnspent, Unspent, AllUnspent, AfterCommit, AfterTake, AfterRead, AfterRecheck, AfterInitRecheck,
         FailItem, StatusOf, ActiveManifests, NewManifest;
    NothingUnspent();
    match work
    case Initiate(a, now, fate) => if CanInitiate(db, a) { InitiatedUnspent(db, a, now); }
    case Load(order) => LoadedUnspent(db, order);
    case Take(granted, now) => if pc.Tick? { TakeUnspent(pc.queue, pc.served, granted, now); }
    case Read(_) => if pc.At? && HasItem(pc.job) { ReadUnspent(pc.job, StatusOf(db, Current(pc.job).deposit)); }
    case Call(_) => if pc.At? && HasItem(pc.job) { ReadUnspent(pc.job, None); }
    case Receive(_) => if pc.At? && HasItem(pc.job) { ReadUnspent(pc.job, None); }
    case Commit(fate) => if pc.At? { CommitUnspent(db, pc.job, pc.point, fate); }
    case _ =>
  }

  lemma NothingUnspent()
    ensures Unspent([]) && AllUnspent([])
  {
  }

  lemma InitiatedUnspent(db: Db, a: AuctionId, now: int)
    requires a in db.auctions
    ensures Unspent(NewManifest(db, a, now).items)
  {
    PlanUnspent(db, a, ParticipantsOf(db, a));
  }

  // ---- What is stored -------------------------------------------------

  /** The copy that an effect writes, if any, has attempts left wherever it is pending. */
  predicate WritesUnspent(e: Effect) {
    match e
    case Saves(m) => Unspent(m.items)
    case Finalizes(m) => Unspent(m.items)
    case ForceCloses(m) => Unspent(m.items)
    case Retries(m) => Unspent(m.items)
    case _ => true
  }

  lemma EmitUnspent(pc: Pc, work: Work)
    requires PcUnspent(pc)
    ensures WritesUnspent(Emit(pc, work))
  {
    hide Unspent, AllUnspent;
  }

  lemma FinalizeUnspent(db: Db, m: Manifest)
    requires StoredUnspent(db) && Unspent(m.items)
    ensures StoredUnspent(FinalizeTx(db, m))
  {
    hide AckCount, AnyExhausted, Unspent;
  }

  lemma EffectUnspent(db: Db, e: Effect, retryEdge: bool)
    requires StoredUnspent(db) && WritesUnspent(e)
    ensures StoredUnspent(PerformDb(db, e, retryEdge))
  {
    hide Unspent, FinalizeTx, ManualMove, NewManifest, ResetItems, TriggerAdmits, AnyFailed;
    match e
    case Finalizes(m) => FinalizeUnspent(db, m);
    case Initiates(a, now) => if CanInitiate(db, a) { InitiatedUnspent(db, a, now); }
    case Retries(m) => ResetUnspent(m.items);
    case _ =>
  }

  lemma StepUnspent(s: Sys, e: Event, retryEdge: bool)
    requires EveryCopyUnspent(s)
    ensures EveryCopyUnspent(Step(s, e, retryEdge))
  {
    hide Goto, Emit, PerformDb, Unspent;
    if e.Worker? {
      assert PcUnspent(PcOf(s, e.w));
      EmitUnspent(PcOf(s, e.w), e.work);
      MoveUnspent(s.world.db, PcOf(s, e.w), e.work);
    }
    EffectUnspent(s.world.db, EffectOf(s, e), retryEdge);
  }

  /** In every state of every run, every copy of a manifest, stored or in anybody's memory, has attempts
      left for whatever it holds as pending. */
  lemma {:induction false} RunUnspent(init: Db, events: seq<Event>, retryEdge: bool)
    requires CleanStart(init)
    ensures EveryCopyUnspent(After(init, events, retryEdge))
  {
    hide Step;
    if events != [] {
      RunUnspent(init, events[..|events| - 1], retryEdge);
      StepUnspent(After(init, events[..|events| - 1], retryEdge), events[|events| - 1], retryEdge);
    }
  }

  // ---- What follows for the bound -------------------------------------

  lemma CleanUnspentServable(items: seq<Item>)
    requires NoSent(items) && Unspent(items)
    ensures Servable(items)
  {
    forall i | 0 <= i < |items| ensures ServableItem(items[i]) {}
  }

  /** Whatever is stored, however it got there, is a list of items that the bound applies to: freshly
      planned, saved by a worker that then crashed, or reset by a retry. */
  lemma StoredServable(init: Db, events: seq<Event>, retryEdge: bool, a: AuctionId)
    requires CleanStart(init) && a in After(init, events, retryEdge).world.db.manifests
    ensures Servable(After(init, events, retryEdge).world.db.manifests[a].items)
  {
    hide Unspent, NoSent, Servable;
    RunInv(init, events, retryEdge);
    RunUnspent(init, events, retryEdge);
    assert Stored(init, After(init, events, retryEdge).world.db, a);
    CleanUnspentServable(After(init, events, retryEdge).world.db.manifests[a].items);
  }

  lemma ResetAlive(items: seq<Item>)
    requires Servable(items) && AnyFailed(items)
    ensures Alive(ResetItems(items)) && TotalRemaining(ResetItems(items), 0) > 0
  {
    var r := ResetItems(items);
    forall i | 0 <= i < |r| ensures AliveItem(r[i]) {
      assert ServableItem(items[i]) && r[i] == ResetItem(items[i]);
    }
    var k :| 0 <= k < |items| && items[k].status == Failed;
    assert r[k] == ResetItem(items[k]);
    SomethingRemains(r, 0, k);
  }

  /** In every run, whatever copy an administrator retries, the retry restores a positive number of
      attempts and leaves nothing without one but what is acknowledged. */
  lemma RetryRestoresMeasure(init: Db, events: seq<Event>, k: AdminId)
    requires CleanStart(init)
    requires var s := After(init, events, true); k in s.admins && CanRetry(s.world.db, s.admins[k], true)
    ensures var s := After(init, events, true);
            var items := RetryTx(s.world.db, s.admins[k], true).manifests[s.admins[k].auction].items;
            Alive(items) && TotalRemaining(items, 0) > 0
  {
    hide Unspent, NoSent, Servable, Alive, TotalRemaining, ResetItems;
    RunInv(init, events, true);
    RunUnspent(init, events, true);
    var m := After(init, events, true).admins[k];
    CleanUnspentServable(m.items);
    ResetAlive(m.items);
  }
}
