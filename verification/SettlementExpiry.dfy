/**
 When a manifest expires: every copy of it carries the deadline it was created with, and a worker
 closes it as expired exactly when its clock is past that deadline.
 */
module SettlementExpiry {
  import opened Wrappers
  import opened Auctions
  import opened Settlement
  import opened SettlementMachine
  import opened SettlementBooks
  import opened SettlementRuns
  import opened SettlementTheorems
  import opened SettlementLockstep

  // ---- Every copy has the stored deadline -----------------------------

  predicate Dated(db: Db, m: Manifest) {
    m.auction in db.manifests && m.expiresAt == db.manifests[m.auction].expiresAt
  }

  predicate AllDated(db: Db, q: seq<Manifest>) {
    forall i :: 0 <= i < |q| ==> Dated(db, q[i])
  }

  predicate PcDated(db: Db, pc: Pc) {
    match pc
    case Idle => true
    case Tick(q, _) => AllDated(db, q)
    case At(j, _) => Dated(db, j.m) && AllDated(db, j.queue)
  }

  ghost predicate Keyed(db: Db) {
    forall a :: a in db.manifests ==> db.manifests[a].auction == a
  }

  ghost predicate EveryCopyDated(s: Sys) {
    && Keyed(s.world.db)
    && (forall w :: w in s.workers ==> PcDated(s.world.db, s.workers[w]))
    && (forall k :: k in s.admins ==> Dated(s.world.db, s.admins[k]))
  }

  /** No deadline moves. */
  ghost predicate KeepsDates(db: Db, db': Db) {
    Keyed(db') && forall a :: a in db.manifests ==>
                       a in db'.manifests && db'.manifests[a].expiresAt == db.manifests[a].expiresAt
  }

  predicate WritesDated(db: Db, e: Effect) {
    match e
    case Saves(m) => Dated(db, m)
    case Finalizes(m) => Dated(db, m)
    case ForceCloses(m) => Dated(db, m)
    case Retries(m) => Dated(db, m)
    case _ => true
  }

  lemma SaveKeepsDates(db: Db, db': Db, m: Manifest)
    requires Keyed(db) && Dated(db, m)
    requires db'.manifests == db.manifests || db'.manifests == db.manifests[m.auction := m]
    ensures KeepsDates(db, db')
  {
  }

  lemma FinalizeKeepsDates(db: Db, m: Manifest)
    requires Keyed(db) && Dated(db, m)
    ensures KeepsDates(db, FinalizeTx(db, m))
  {
    hide AckCount, AnyExhausted, KeepsDates, Keyed;
    var n := AckCount(m.items);
    match Judge(m.items)
    case AllAcknowledged => SaveKeepsDates(db, FinalizeTx(db, m), m.(status := Completed, acked := n));
    case RetriesExhausted => SaveKeepsDates(db, FinalizeTx(db, m), m.(status := Escalated, acked := n));
    case InProgress => SaveKeepsDates(db, FinalizeTx(db, m), m.(acked := n));
  }

  lemma EffectKeepsDates(db: Db, e: Effect, retryEdge: bool)
    requires Keyed(db) && WritesDated(db, e)
    ensures KeepsDates(db, PerformDb(db, e, retryEdge))
  {
    hide FinalizeTx, CanRetry, ManualMove, PlanItems, ResetItems, KeepsDates, Keyed;
    var db' := PerformDb(db, e, retryEdge);
    match e
    case Saves(m) => SaveKeepsDates(db, db', m);
    case Finalizes(m) => FinalizeKeepsDates(db, m);
    case ForceCloses(m) => SaveKeepsDates(db, db', m);
    case Retries(m) => SaveKeepsDates(db, db', m.(items := ResetItems(m.items), status := Active));
    case Initiates(a, now) => InitiateKeepsDates(db, a, now);
    case _ => SameDates(db, db');
  }

  lemma SameDates(db: Db, db': Db)
    requires Keyed(db) && db'.manifests == db.manifests
    ensures KeepsDates(db, db')
  {
  }

  lemma InitiateKeepsDates(db: Db, a: AuctionId, now: int)
    requires Keyed(db)
    ensures KeepsDates(db, InitiateTx(db, a, now))
  {
    hide PlanItems;
  }

  lemma QueueStays(db: Db, db': Db, q: seq<Manifest>)
    requires KeepsDates(db, db') && AllDated(db, q)
    ensures AllDated(db', q)
  {
  }

  lemma PcStays(db: Db, db': Db, pc: Pc)
    requires KeepsDates(db, db') && PcDated(db, pc)
    ensures PcDated(db', pc)
  {
    hide KeepsDates, AllDated;
    match pc
    case Idle =>
    case Tick(q, _) => QueueStays(db, db', q);
    case At(j, _) =>
      QueueStays(db, db', j.queue);
      CopyStays(db, db', j.m);
  }

  lemma CopyStays(db: Db, db': Db, m: Manifest)
    requires KeepsDates(db, db') && Dated(db, m)
    ensures Dated(db', m)
  {
  }

  lemma LoadedDated(db: Db, order: seq<AuctionId>)
    requires Keyed(db)
    ensures AllDated(db, ActiveManifests(db, order))
  {
  }

  /** A move keeps the copies, as far as their deadline goes. */
  lemma MoveDated(db: Db, pc: Pc, work: Work)
    requires Keyed(db) && PcDated(db, pc) && !work.Initiate?
    ensures PcDated(db, Goto(db, pc, work))
  {
    hide Keyed, ActiveManifests, StatusOf, AckCount, Processable;
    if work.Load? { LoadedDated(db, work.order); }
  }

  lemma InitiateDated(db: Db, a: AuctionId, now: int, fate: Fate, retryEdge: bool)
    ensures PcDated(PerformDb(db, Emit(Idle, Initiate(a, now, fate)), retryEdge), AfterInitiate(db, a, now, fate))
  {
    hide PlanItems;
  }

  lemma EmitDated(db: Db, pc: Pc, work: Work)
    requires PcDated(db, pc)
    ensures WritesDated(db, Emit(pc, work))
  {
    hide AllDated, AckCount;
  }

  lemma StepDated(s: Sys, e: Event, retryEdge: bool)
    requires EveryCopyDated(s)
    ensures EveryCopyDated(Step(s, e, retryEdge)) && KeepsDates(s.world.db, Step(s, e, retryEdge).world.db)
  {
    hide Goto, Emit, PerformDb, PcDated, Dated, KeepsDates, Keyed;
    IdleDated(s.world.db);
    if e.Worker? { EmitDated(s.world.db, PcOf(s, e.w), e.work); }
    EffectKeepsDates(s.world.db, EffectOf(s, e), retryEdge);
    var t := Step(s, e, retryEdge);
    NowKeyed(s.world.db, t.world.db);
    forall w | w in t.workers ensures PcDated(t.world.db, t.workers[w]) {
      if e.Worker? && e.w == w {
        WorkerDated(s, w, e.work, retryEdge);
      } else {
        PcStays(s.world.db, t.world.db, s.workers[w]);
      }
    }
    forall k | k in t.admins ensures Dated(t.world.db, t.admins[k]) {
      if e.AdminRead? && e.k == k && e.a in s.world.db.manifests { StoredDated(s.world.db, e.a); }
      CopyStays(s.world.db, t.world.db, t.admins[k]);
    }
  }

  lemma NowKeyed(db: Db, db': Db)
    requires KeepsDates(db, db')
    ensures Keyed(db')
  {
  }

  lemma StoredDated(db: Db, a: AuctionId)
    requires Keyed(db) && a in db.manifests
    ensures Dated(db, db.manifests[a])
  {
  }

  lemma IdleDated(db: Db)
    ensures PcDated(db, Idle)
  {
  }

  lemma WorkerDated(s: Sys, w: WorkerId, work: Work, retryEdge: bool)
    requires EveryCopyDated(s) && PcDated(s.world.db, PcOf(s, w))
    requires KeepsDates(s.world.db, Step(s, Worker(w, work), retryEdge).world.db)
    ensures PcDated(Step(s, Worker(w, work), retryEdge).world.db, Goto(s.world.db, PcOf(s, w), work))
  {
    hide Goto, Emit, PerformDb, PcDated, KeepsDates;
    var t := Step(s, Worker(w, work), retryEdge);
    if work.Initiate? {
      InitiatesOrStays(s.world.db, PcOf(s, w), work);
      if PcOf(s, w) == Idle { InitiateDated(s.world.db, work.a, work.now, work.fate, retryEdge); }
      else { PcStays(s.world.db, t.world.db, PcOf(s, w)); }
    } else {
      MoveDated(s.world.db, PcOf(s, w), work);
      PcStays(s.world.db, t.world.db, Goto(s.world.db, PcOf(s, w), work));
    }
  }

  lemma InitiatesOrStays(db: Db, pc: Pc, work: Work)
    requires work.Initiate?
    ensures Goto(db, pc, work) == if pc == Idle then AfterInitiate(db, work.a, work.now, work.fate) else pc
  {
  }

  lemma {:induction false} RunDated(init: Db, events: seq<Event>, retryEdge: bool)
    requires CleanStart(init)
    ensures EveryCopyDated(After(init, events, retryEdge))
  {
    hide Step;
    if events != [] {
      RunDated(init, events[..|events| - 1], retryEdge);
      StepDated(After(init, events[..|events| - 1], retryEdge), events[|events| - 1], retryEdge);
    }
  }

  // ---- The deadline ---------------------------------------------------

  /** Event `n` of the run is the initiation, with the clock at `t`, that gave auction `a` its manifest. */
  ghost predicate InitiatedAt(init: Db, events: seq<Event>, retryEdge: bool, n: nat, a: AuctionId, t: int) {
    && n < |events| && events[n].Worker? && events[n].work.Initiate?
    && events[n].work.a == a && events[n].work.now == t
    && a !in After(init, events[..n], retryEdge).world.db.manifests
    && a in After(init, events[..n + 1], retryEdge).world.db.manifests
  }

  lemma CreatedWithDeadline(s: Sys, w: WorkerId, a: AuctionId, t: int, fate: Fate, retryEdge: bool)
    requires a !in s.world.db.manifests
    requires a in Step(s, Worker(w, Initiate(a, t, fate)), retryEdge).world.db.manifests
    ensures Step(s, Worker(w, Initiate(a, t, fate)), retryEdge).world.db.manifests[a].expiresAt == t + 172_800_000
    ensures Step(s, Worker(w, Initiate(a, t, fate)), retryEdge).world.db.manifests[a].status == Active
  {
    hide PlanItems, Goto;
  }

  lemma {:induction false} DeadlineStored(
    init: Db, events: seq<Event>, retryEdge: bool, n: nat, a: AuctionId, t: int)
    requires CleanStart(init) && InitiatedAt(init, events, retryEdge, n, a, t)
    ensures var db := After(init, events, retryEdge).world.db;
            a in db.manifests && db.manifests[a].expiresAt == t + 172_800_000
  {
    hide Step, CleanStart, EveryCopyDated;
    var k := |events| - 1;
    var s := After(init, events[..k], retryEdge);
    assert events[..|events|] == events;
    if n == k {
      CreatedWithDeadline(s, events[k].w, a, t, events[k].work.fate, retryEdge);
    } else {
      assert events[..k][..n] == events[..n] && events[..k][..n + 1] == events[..n + 1];
      DeadlineStored(init, events[..k], retryEdge, n, a, t);
      RunDated(init, events[..k], retryEdge);
      StepDated(s, events[k], retryEdge);
    }
  }

  /** Initiated at t, a manifest expires 48 hours later, in milliseconds: so says the stored row and every copy
      of it, in anybody's memory, in every state after that. */
  lemma DeadlineEverywhere(
    init: Db, events: seq<Event>, retryEdge: bool, n: nat, a: AuctionId, t: int, m: Manifest)
    requires CleanStart(init) && InitiatedAt(init, events, retryEdge, n, a, t)
    requires SomeCopy(After(init, events, retryEdge), m) && m.auction == a
    ensures m.expiresAt == t + 172_800_000
  {
    hide Run, CleanStart, InitiatedAt;
    DeadlineStored(init, events, retryEdge, n, a, t);
    RunDated(init, events, retryEdge);
    CopiesDated(After(init, events, retryEdge), m);
  }

  lemma CopiesDated(s: Sys, m: Manifest)
    requires EveryCopyDated(s) && SomeCopy(s, m)
    ensures Dated(s.world.db, m)
  {
    if w :| w in s.workers && InPc(s.workers[w], m) { assert PcDated(s.world.db, s.workers[w]); }
  }

  /** Worker `v` is granted the lock on the copy of auction `a` it comes to next, and its clock is past `end`. */
  predicate TakesOverdue(s: Sys, e: Event, v: WorkerId, a: AuctionId, end: int) {
    && e.Worker? && e.w == v && e.work.Take? && e.work.granted && e.work.now > end
    && PcOf(s, v).Tick? && PcOf(s, v).queue != [] && PcOf(s, v).queue[0].auction == a && PcOf(s, v).served < 3
  }

  /** Worker `v` is about to close the manifest of auction `a` as expired. */
  predicate Expiring(s: Sys, v: WorkerId, a: AuctionId) {
    PcOf(s, v).At? && PcOf(s, v).point == Expire && PcOf(s, v).job.m.auction == a
  }

  lemma TakeExpires(s: Sys, e: Event, v: WorkerId, a: AuctionId, end: int, retryEdge: bool)
    requires !Expiring(s, v, a)
    requires PcOf(s, v).Tick? && PcOf(s, v).queue != [] && PcOf(s, v).queue[0].auction == a ==>
               PcOf(s, v).queue[0].expiresAt == end
    ensures Expiring(Step(s, e, retryEdge), v, a) <==> TakesOverdue(s, e, v, a, end)
  {
    hide Perform, EffectOf, StatusOf, AfterRead, AfterRecheck, AfterInitRecheck, ActiveManifests, NewManifest,
         AfterInitiate;
    if e.Worker? && e.w == v {
      if e.work.Initiate? && PcOf(s, v) == Idle { InitiateNeverExpires(s.world.db, PcOf(s, v), e.work); }
      if e.work.Read? && PcOf(s, v).At? && PcOf(s, v).point != Expire {
        ReadNeverExpires(s.world.db, PcOf(s, v), e.work);
      }
    }
  }

  lemma InitiateNeverExpires(db: Db, pc: Pc, work: Work)
    requires work.Initiate? && pc == Idle
    ensures Goto(db, pc, work).At? ==> Goto(db, pc, work).point != Expire
  {
  }

  lemma ReadNeverExpires(db: Db, pc: Pc, work: Work)
    requires work.Read? && pc.At? && pc.point != Expire
    ensures Goto(db, pc, work).At? ==> Goto(db, pc, work).point != Expire
  {
    hide StatusOf, Put;
  }

  /** In any state since the initiation at t, a worker comes to close the manifest as expired exactly by being
      granted the lock on its copy with a clock past t + 172800000, whatever copy that is. */
  lemma ExpiresIffOverdue(
    init: Db, events: seq<Event>, retryEdge: bool, n: nat, a: AuctionId, t: int, e: Event, v: WorkerId)
    requires CleanStart(init) && InitiatedAt(init, events, retryEdge, n, a, t)
    requires !Expiring(After(init, events, retryEdge), v, a)
    ensures Expiring(After(init, events + [e], retryEdge), v, a)
            <==> TakesOverdue(After(init, events, retryEdge), e, v, a, t + 172_800_000)
  {
    hide Step, CleanStart, InitiatedAt, Expiring;
    var s := After(init, events, retryEdge);
    if PcOf(s, v).Tick? && PcOf(s, v).queue != [] && PcOf(s, v).queue[0].auction == a {
      FirstIsCopy(s, v);
      DeadlineEverywhere(init, events, retryEdge, n, a, t, PcOf(s, v).queue[0]);
    }
    TakeExpires(s, e, v, a, t + 172_800_000, retryEdge);
    assert (events + [e])[..|events|] == events;
  }

  lemma FirstIsCopy(s: Sys, v: WorkerId)
    requires PcOf(s, v).Tick? && PcOf(s, v).queue != []
    ensures SomeCopy(s, PcOf(s, v).queue[0])
  {
    assert v in s.workers && InPc(s.workers[v], PcOf(s, v).queue[0]);
  }

  predicate StoredExpired(db: Db, a: AuctionId) {
    a in db.manifests && db.manifests[a].status == ManifestExpired
  }

  /** Only an effect that closes an expired copy stores one. */
  lemma OnlyForceCloseExpires(db: Db, e: Effect, retryEdge: bool, a: AuctionId)
    requires CopyReady(db, e) && !StoredExpired(db, a) && StoredExpired(PerformDb(db, e, retryEdge), a)
    ensures e.ForceCloses? && e.m.auction == a && e.m.status == ManifestExpired
  {
    hide AckCount, AnyExhausted, CanRetry, ManualMove, PlanItems, ResetItems;
  }

  lemma EmitsExpired(pc: Pc, work: Work, a: AuctionId)
    requires PcActive(pc)
    requires var e := Emit(pc, work); e.ForceCloses? && e.m.auction == a && e.m.status == ManifestExpired
    ensures pc.At? && pc.point == Expire && pc.job.m.auction == a && work.Commit?
  {
    hide AckCount;
  }

  /** The stored row turns expired only by the commit of a worker that had come to close it. */
  lemma ClosedOnlyByExpiring(init: Db, events: seq<Event>, retryEdge: bool, a: AuctionId, e: Event)
    requires CleanStart(init)
    requires !StoredExpired(After(init, events, retryEdge).world.db, a)
    requires StoredExpired(After(init, events + [e], retryEdge).world.db, a)
    ensures e.Worker? && e.work.Commit? && Expiring(After(init, events, retryEdge), e.w, a)
  {
    hide Goto, Emit, PerformDb, SysInv, CleanStart, StoredExpired, CopyReady;
    var s := After(init, events, retryEdge);
    assert (events + [e])[..|events|] == events;
    RunInv(init, events, retryEdge);
    RunActive(init, events, retryEdge);
    EffectReady(init, s, e, retryEdge);
    OnlyForceCloseExpires(s.world.db, EffectOf(s, e), retryEdge, a);
    EmitsExpired(PcOf(s, e.w), e.work, a);
  }

  /** No worker was granted a lock with a clock past `end` since event `n`. */
  predicate ClocksWithin(events: seq<Event>, n: nat, end: int) {
    forall i :: n < i < |events| ==>
      (events[i].Worker? && events[i].work.Take? && events[i].work.granted ==> events[i].work.now <= end)
  }

  /** While no worker's clock has passed t + 172800000, a manifest initiated at t is not expired, nor is anybody
      about to close it as expired. */
  lemma {:induction false} NeverExpiredEarly(
    init: Db, events: seq<Event>, retryEdge: bool, n: nat, a: AuctionId, t: int, v: WorkerId)
    requires CleanStart(init) && InitiatedAt(init, events, retryEdge, n, a, t)
    requires ClocksWithin(events, n, t + 172_800_000)
    ensures !StoredExpired(After(init, events, retryEdge).world.db, a)
    ensures !Expiring(After(init, events, retryEdge), v, a)
  {
    hide Step, CleanStart, Expiring, StoredExpired, SysInv, WorkersActive;
    var k := |events| - 1;
    var before, e := events[..k], events[k];
    assert events == before + [e];
    if n == k {
      JustCreated(init, before, e, retryEdge, a, t, v);
    } else {
      assert before[..n] == events[..n] && before[..n + 1] == events[..n + 1];
      assert ClocksWithin(before, n, t + 172_800_000);
      NeverExpiredEarly(init, before, retryEdge, n, a, t, v);
      ExpiresIffOverdue(init, before, retryEdge, n, a, t, e, v);
      if StoredExpired(After(init, events, retryEdge).world.db, a) {
        ClosedOnlyByExpiring(init, before, retryEdge, a, e);
        NeverExpiredEarly(init, before, retryEdge, n, a, t, e.w);
      }
    }
  }

  lemma JustCreated(
    init: Db, before: seq<Event>, e: Event, retryEdge: bool, a: AuctionId, t: int, v: WorkerId)
    requires CleanStart(init) && InitiatedAt(init, before + [e], retryEdge, |before|, a, t)
    ensures !StoredExpired(After(init, before + [e], retryEdge).world.db, a)
    ensures !Expiring(After(init, before + [e], retryEdge), v, a)
  {
    hide CleanStart, Goto, PerformDb, EveryCopyDated, Emit;
    var events, s := before + [e], After(init, before, retryEdge);
    assert events[..|before|] == before && events[..|before| + 1] == events;
    CreatedWithDeadline(s, e.w, a, t, e.work.fate, retryEdge);
    RunDated(init, before, retryEdge);
    NoCopyYet(s, v, a);
    if v == e.w {
      InitiatesOrStays(s.world.db, PcOf(s, v), e.work);
      if PcOf(s, v) == Idle { InitiateNeverExpires(s.world.db, Idle, e.work); }
    }
  }

  lemma NoCopyYet(s: Sys, v: WorkerId, a: AuctionId)
    requires EveryCopyDated(s) && a !in s.world.db.manifests
    ensures !Expiring(s, v, a)
  {
    if v in s.workers { assert PcDated(s.world.db, s.workers[v]); }
  }

  /** And afterwards: a worker granted the lock on its copy with a clock past t + 172800000 closes it, and fails
      the auction if that is settling. */
  lemma OverdueCloses(
    init: Db, events: seq<Event>, retryEdge: bool, n: nat, a: AuctionId, t: int, v: WorkerId, now: int)
    requires CleanStart(init) && InitiatedAt(init, events, retryEdge, n, a, t)
    requires TakesOverdue(After(init, events, retryEdge), Worker(v, Take(true, now)), v, a, t + 172_800_000)
    ensures var s := After(init, events, retryEdge);
            var z := After(init, events + [Worker(v, Take(true, now)), Worker(v, Commit(Committed))], retryEdge);
            var m := PcOf(s, v).queue[0];
            && z.world.db.manifests == s.world.db.manifests[a := m.(status := ManifestExpired)]
            && PcOf(z, v) == Tick(PcOf(s, v).queue[1..], PcOf(s, v).served + 1)
            && (a in s.world.db.auctions && s.world.db.auctions[a].status == Settling ==>
                  a in z.world.db.auctions && z.world.db.auctions[a].status == SettlementFailed)
  {
    hide CleanStart, InitiatedAt, Run, AckCount;
    var s, m := After(init, events, retryEdge), PcOf(After(init, events, retryEdge), v).queue[0];
    FirstIsCopy(s, v);
    DeadlineEverywhere(init, events, retryEdge, n, a, t, m);
    RunConcat(Start(init), events, [Worker(v, Take(true, now)), Worker(v, Commit(Committed))], retryEdge);
    TwoEvents(s, Worker(v, Take(true, now)), Worker(v, Commit(Committed)), retryEdge);
  }
}
