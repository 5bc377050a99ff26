/**
 Whether the manifest and its auction move together: exactly when every commit finds the
 auction where an unconditional save takes it to be.  With a single live instance, which may
 crash and restart anywhere, that is always so; with two it need not be.
 */
module SettlementLockstep {
  import opened Wrappers
  import opened Auctions
  import opened Settlement
  import opened SettlementMachine
  import opened SettlementBooks
  import opened SettlementRuns
  import opened SettlementTheorems

  predicate LockstepAt(db: Db, a: AuctionId)
    requires a in db.auctions
  {
    match db.auctions[a].status
    case Settling => a in db.manifests && db.manifests[a].status == Active
    case Settled => a in db.manifests && db.manifests[a].status == Completed
    case SettlementFailed =>
      a in db.manifests && (db.manifests[a].status == ManifestExpired || db.manifests[a].status == Escalated)
    case _ => a !in db.manifests
  }

  predicate Lockstep(db: Db) {
    && (forall a :: a in db.auctions ==> LockstepAt(db, a))
    && (forall a :: a in db.manifests ==> a in db.auctions && db.manifests[a].auction == a)
  }

  // ---- Exactly when a commit keeps step -------------------------------

  /** What is known of the copy a worker commits: its manifest is stored, and it was loaded active. */
  predicate CopyReady(db: Db, e: Effect) {
    match e
    case Saves(m) => m.auction in db.manifests && m.status == Active
    case Finalizes(m) => m.auction in db.manifests && m.status == Active
    case ForceCloses(m) => m.auction in db.manifests && (m.status == ManifestExpired || m.status == Escalated)
    case _ => true
  }

  /** The check that the unconditional saves leave out, and that manual moves into settlement fail: what a
      caller would have to ask of the auction's row before the commit. */
  predicate InStep(db: Db, e: Effect) {
    match e
    case Saves(m) => AuctionSettling(db, m.auction)
    case Finalizes(m) => Judge(m.items) == InProgress ==> AuctionSettling(db, m.auction)
    case ForceCloses(m) => m.auction in db.auctions && db.auctions[m.auction].status != Settled
    case Moves(a, to, _) => a in db.auctions && ManualMove(db.auctions[a].status, to) ==> !InSettlement(to)
    case _ => true
  }

  /** `db'` differs from `db` at most in auction `a`'s row and manifest. */
  ghost predicate OnlyAt(db: Db, db': Db, a: AuctionId) {
    && db'.auctions.Keys == db.auctions.Keys
    && (forall b :: b in db.auctions && b != a ==> db'.auctions[b] == db.auctions[b])
    && (forall b :: b != a ==> (b in db'.manifests <==> b in db.manifests))
    && (forall b :: b in db.manifests && b != a ==> db'.manifests[b] == db.manifests[b])
  }

  lemma OnlyAtLockstep(db: Db, db': Db, a: AuctionId)
    requires Lockstep(db) && OnlyAt(db, db', a) && a in db.auctions
    requires a in db'.manifests ==> db'.manifests[a].auction == a
    ensures Lockstep(db') <==> LockstepAt(db', a)
  {
    if LockstepAt(db', a) {
      forall b | b in db'.auctions ensures LockstepAt(db', b) { assert LockstepAt(db, b); }
    }
  }

  lemma SaveExact(db: Db, m: Manifest)
    requires Lockstep(db) && m.auction in db.manifests
    ensures Lockstep(SaveTx(db, m))
            <==> (match db.auctions[m.auction].status
                  case Settling => m.status == Active
                  case Settled => m.status == Completed
                  case _ => m.status == ManifestExpired || m.status == Escalated)
  {
    assert LockstepAt(db, m.auction);
    OnlyAtLockstep(db, SaveTx(db, m), m.auction);
  }

  lemma CloseKeepsStep(db: Db, m: Manifest, to: AuctionStatus)
    requires Lockstep(db)
    requires (to == Settled && m.status == Completed)
             || (to == SettlementFailed && (m.status == Escalated || m.status == ManifestExpired))
    ensures Lockstep(CloseTx(db, m, to))
  {
    if AuctionSettling(db, m.auction) { OnlyAtLockstep(db, CloseTx(db, m, to), m.auction); }
  }

  lemma FinalizeExact(db: Db, m: Manifest)
    requires Lockstep(db) && CopyReady(db, Finalizes(m))
    ensures Lockstep(FinalizeTx(db, m)) <==> InStep(db, Finalizes(m))
  {
    hide Lockstep, LockstepAt, CloseTx, SaveTx;
    var n := AckCount(m.items);
    match Judge(m.items)
    case AllAcknowledged => CloseKeepsStep(db, m.(status := Completed, acked := n), Settled);
    case RetriesExhausted => CloseKeepsStep(db, m.(status := Escalated, acked := n), SettlementFailed);
    case InProgress => ActiveSaveExact(db, m.(acked := n));
  }

  lemma ActiveSaveExact(db: Db, m: Manifest)
    requires Lockstep(db) && CopyReady(db, Saves(m))
    ensures Lockstep(SaveTx(db, m)) <==> AuctionSettling(db, m.auction)
  {
    assert m.auction in db.auctions && LockstepAt(db, m.auction);
    SaveExact(db, m);
  }

  lemma ForceCloseExact(db: Db, m: Manifest)
    requires Lockstep(db) && CopyReady(db, ForceCloses(m))
    ensures Lockstep(ForceCloseTx(db, m)) <==> InStep(db, ForceCloses(m))
  {
    assert m.auction in db.auctions && LockstepAt(db, m.auction);
    if AuctionSettling(db, m.auction) { CloseKeepsStep(db, m, SettlementFailed); } else { SaveExact(db, m); }
  }

  lemma RowExact(db: Db, a: AuctionId, row: Auction)
    requires Lockstep(db) && a in db.auctions
    ensures var db' := db.(auctions := db.auctions[a := row]);
            LockstepAt(db, a) && (Lockstep(db') <==> LockstepAt(db', a))
  {
    OnlyAtLockstep(db, db.(auctions := db.auctions[a := row]), a);
  }

  lemma MoveExact(db: Db, a: AuctionId, to: AuctionStatus, now: int)
    requires Lockstep(db)
    ensures Lockstep(ManualTx(db, a, to, now)) <==> InStep(db, Moves(a, to, now))
  {
    hide Lockstep;
    if a in db.auctions && ManualMove(db.auctions[a].status, to) {
      RowExact(db, a, ManualRow(db.auctions[a], to, now));
    }
  }

  lemma OthersKeepStep(db: Db, e: Effect, retryEdge: bool)
    requires Lockstep(db) && (e.Initiates? || e.Retries? || e.Concludes?)
    ensures Lockstep(PerformDb(db, e, retryEdge))
  {
    hide Lockstep, ResetItems, AnyFailed, TriggerAdmits, PlanItems;
    match e
    case Initiates(a, now) => if CanInitiate(db, a) { OnlyAtLockstep(db, InitiateTx(db, a, now), a); }
    case Retries(m) =>
      if CanRetry(db, m, retryEdge) { OnlyAtLockstep(db, RetryTx(db, m, retryEdge), m.auction); }
    case Concludes(a, winner, now) =>
      if a in db.auctions && db.auctions[a].status == Ending { RowExact(db, a, EndedRow(db.auctions[a], winner, now)); }
  }

  lemma MoneyRows(db: Db, e: Effect, retryEdge: bool)
    requires e.Captures? || e.InitiatesRefund? || e.CompletesRefund? || e.Nop? || e.Requests? || e.Approves? || e.Acts?
    ensures PerformDb(db, e, retryEdge).auctions == db.auctions
    ensures PerformDb(db, e, retryEdge).manifests == db.manifests
  {
  }

  lemma SameRows(db: Db, db': Db)
    requires Lockstep(db) && db'.auctions == db.auctions && db'.manifests == db.manifests
    ensures Lockstep(db')
  {
    forall a | a in db'.auctions ensures LockstepAt(db', a) { assert LockstepAt(db, a); }
  }

  /** In any state in lockstep, with any number of instances, the next commit keeps lockstep iff it is
      in step. */
  lemma StepExact(db: Db, e: Effect, retryEdge: bool)
    requires Lockstep(db) && CopyReady(db, e)
    ensures Lockstep(PerformDb(db, e, retryEdge)) <==> InStep(db, e)
  {
    hide Lockstep, SaveTx, FinalizeTx, ForceCloseTx, ManualTx, InitiateTx, RetryTx, ConcludeTx, CaptureTx, RefundInitTx,
         RefundDoneTx, AuctionSettling, Judge;
    match e
    case Saves(m) => ActiveSaveExact(db, m);
    case Finalizes(m) => FinalizeExact(db, m);
    case ForceCloses(m) => ForceCloseExact(db, m);
    case Moves(a, to, now) => MoveExact(db, a, to, now);
    case Initiates(_, _) => OthersKeepStep(db, e, retryEdge);
    case Retries(_) => OthersKeepStep(db, e, retryEdge);
    case Concludes(_, _, _) => OthersKeepStep(db, e, retryEdge);
    case _ =>
      MoneyRows(db, e, retryEdge);
      SameRows(db, PerformDb(db, e, retryEdge));
  }

  // ---- Copies in memory were loaded active ----------------------------

  predicate AllActive(q: seq<Manifest>) {
    forall i :: 0 <= i < |q| ==> q[i].status == Active
  }

  predicate PcActive(pc: Pc) {
    match pc
    case Idle => true
    case Tick(q, _) => AllActive(q)
    case At(j, _) => j.m.status == Active && AllActive(j.queue)
  }

  lemma LoadedActive(db: Db, order: seq<AuctionId>)
    ensures AllActive(ActiveManifests(db, order))
  {
  }

  lemma ActiveMove(db: Db, pc: Pc, work: Work)
    requires PcActive(pc)
    ensures PcActive(Goto(db, pc, work))
  {
    hide StatusOf, PlanItems, ActiveManifests, Processable, AckCount;
    if work.Load? { LoadedActive(db, work.order); }
  }

  ghost predicate WorkersActive(s: Sys) {
    forall w :: w in s.workers ==> PcActive(s.workers[w])
  }

  lemma {:induction false} RunActive(init: Db, events: seq<Event>, retryEdge: bool)
    ensures WorkersActive(After(init, events, retryEdge))
  {
    if events != [] {
      var k := |events| - 1;
      var s, e := After(init, events[..k], retryEdge), events[k];
      RunActive(init, events[..k], retryEdge);
      StepActive(s, e, retryEdge);
    }
  }

  lemma StepActive(s: Sys, e: Event, retryEdge: bool)
    requires WorkersActive(s)
    ensures WorkersActive(Step(s, e, retryEdge))
  {
    hide Goto, Perform, EffectOf;
    if e.Worker? { ActiveMove(s.world.db, PcOf(s, e.w), e.work); }
  }

  lemma EmitsReady(init: Db, x: World, pc: Pc, work: Work)
    requires PcActive(pc) && EffectOk(init, x, Emit(pc, work))
    ensures CopyReady(x.db, Emit(pc, work))
  {
    hide WorldInv, NoSent, Truthful, SamePlan, ItemOk;
  }

  lemma EffectReady(init: Db, s: Sys, e: Event, retryEdge: bool)
    requires SysInv(init, s) && WorkersActive(s)
    ensures CopyReady(s.world.db, EffectOf(s, e))
  {
    hide SysInv, Emit, Goto, EffectOk;
    StepJustified(init, s, e, retryEdge);
    if e.Worker? { EmitsReady(init, s.world, PcOf(s, e.w), e.work); }
  }

  // ---- Whole runs -----------------------------------------------------

  ghost predicate InStepAt(init: Db, events: seq<Event>, retryEdge: bool, n: nat)
    requires n < |events|
  {
    var s := After(init, events[..n], retryEdge);
    InStep(s.world.db, EffectOf(s, events[n]))
  }

  ghost predicate LockstepAfter(init: Db, events: seq<Event>, retryEdge: bool, n: nat)
    requires n <= |events|
  {
    Lockstep(After(init, events[..n], retryEdge).world.db)
  }

  /** Every commit of the run is in step. */
  ghost predicate InStepThroughout(init: Db, events: seq<Event>, retryEdge: bool) {
    forall n :: 0 <= n < |events| ==> InStepAt(init, events, retryEdge, n)
  }

  /** Every state of the run is in lockstep. */
  ghost predicate LockstepThroughout(init: Db, events: seq<Event>, retryEdge: bool) {
    forall n :: 0 <= n <= |events| ==> LockstepAfter(init, events, retryEdge, n)
  }

  lemma StartLockstep(init: Db)
    requires CleanStart(init)
    ensures Lockstep(init)
  {
  }

  /** One event further. */
  lemma LockstepNext(init: Db, events: seq<Event>, retryEdge: bool, n: nat)
    requires CleanStart(init) && n < |events| && LockstepAfter(init, events, retryEdge, n)
    ensures LockstepAfter(init, events, retryEdge, n + 1) <==> InStepAt(init, events, retryEdge, n)
  {
    hide Lockstep, EffectOf, SysInv, CleanStart, CopyReady, InStep;
    var s := After(init, events[..n], retryEdge);
    RunInv(init, events[..n], retryEdge);
    RunActive(init, events[..n], retryEdge);
    EffectReady(init, s, events[n], retryEdge);
    StepExact(s.world.db, EffectOf(s, events[n]), retryEdge);
    assert events[..n + 1][..n] == events[..n];
  }

  lemma {:induction false} InStepReaches(init: Db, events: seq<Event>, retryEdge: bool, n: nat)
    requires CleanStart(init) && InStepThroughout(init, events, retryEdge) && n <= |events|
    ensures LockstepAfter(init, events, retryEdge, n)
  {
    hide InStepAt, Lockstep, CleanStart;
    if n == 0 {
      StartLockstep(init);
      assert After(init, events[..0], retryEdge).world.db == init;
    } else {
      InStepReaches(init, events, retryEdge, n - 1);
      LockstepNext(init, events, retryEdge, n - 1);
    }
  }

  /** For any number of instances, with crashes, stale copies and moves by hand: a run is in lockstep
      throughout iff every one of its commits is in step. */
  lemma LockstepIffInStep(init: Db, events: seq<Event>, retryEdge: bool)
    requires CleanStart(init)
    ensures LockstepThroughout(init, events, retryEdge) <==> InStepThroughout(init, events, retryEdge)
  {
    hide InStepAt, LockstepAfter, CleanStart;
    if InStepThroughout(init, events, retryEdge) {
      forall n | 0 <= n <= |events| ensures LockstepAfter(init, events, retryEdge, n) {
        InStepReaches(init, events, retryEdge, n);
      }
    }
    if LockstepThroughout(init, events, retryEdge) {
      forall n | 0 <= n < |events| ensures InStepAt(init, events, retryEdge, n) {
        assert LockstepAfter(init, events, retryEdge, n) && LockstepAfter(init, events, retryEdge, n + 1);
        LockstepNext(init, events, retryEdge, n);
      }
    }
  }

  // ---- One instance is always in step ---------------------------------

  /** Only worker `w` runs, and no administrator moves an auction within settlement by hand. */
  predicate OneInstance(events: seq<Event>, w: WorkerId) {
    forall i :: 0 <= i < |events| ==> OneInstanceEvent(events[i], w)
  }

  predicate OneInstanceEvent(e: Event, w: WorkerId) {
    (e.Worker? ==> e.w == w) && (e.Manual? ==> !InSettlement(e.to))
  }

  /** A copy the sole worker still has to serve: active here, active in the table, settling. */
  predicate LiveCopy(db: Db, m: Manifest) {
    && m.auction in db.manifests && db.manifests[m.auction].status == Active
    && m.status == Active && AuctionSettling(db, m.auction)
  }

  predicate LiveQueue(db: Db, q: seq<Manifest>) {
    && (forall i :: 0 <= i < |q| ==> LiveCopy(db, q[i]))
    && (forall i, j :: 0 <= i < j < |q| ==> q[i].auction != q[j].auction)
  }

  predicate SolePc(db: Db, pc: Pc) {
    match pc
    case Idle => true
    case Tick(q, _) => LiveQueue(db, q)
    case At(j, _) =>
      && LiveCopy(db, j.m) && LiveQueue(db, j.queue)
      && forall i :: 0 <= i < |j.queue| ==> j.queue[i].auction != j.m.auction
  }

  lemma LoadedLive(db: Db, order: seq<AuctionId>)
    requires Lockstep(db) && Distinct(order)
    ensures LiveQueue(db, ActiveManifests(db, order))
    ensures forall i :: 0 <= i < |ActiveManifests(db, order)| ==> ActiveManifests(db, order)[i].auction in order
  {
    if order != [] {
      LoadedLive(db, order[..|order| - 1]);
      var a := order[|order| - 1];
      assert a in db.manifests ==> LockstepAt(db, a);
      assert a !in order[..|order| - 1];
    }
  }

  /** A step that leaves auction `a`'s row and manifest status alone keeps copies of it live. */
  predicate Untouched(db: Db, db': Db, a: AuctionId) {
    && (a in db.manifests ==> a in db'.manifests && db'.manifests[a].status == db.manifests[a].status)
    && (a in db.auctions ==> a in db'.auctions && db'.auctions[a].status == db.auctions[a].status)
  }

  lemma LiveQueueKept(db: Db, db': Db, q: seq<Manifest>)
    requires LiveQueue(db, q)
    requires forall i :: 0 <= i < |q| ==> Untouched(db, db', q[i].auction)
    ensures LiveQueue(db', q)
  {
    forall i | 0 <= i < |q| ensures LiveCopy(db', q[i]) { assert LiveCopy(db, q[i]); }
  }

  lemma OnlyAtUntouched(db: Db, db': Db, a: AuctionId)
    requires OnlyAt(db, db', a)
    ensures forall b :: b != a ==> Untouched(db, db', b)
  {
  }

  lemma SoleUntouched(db: Db, db': Db, pc: Pc, a: AuctionId)
    requires SolePc(db, pc) && !AuctionSettling(db, a)
    requires forall b :: b != a ==> Untouched(db, db', b)
    ensures SolePc(db', pc)
  {
    match pc
    case Idle =>
    case Tick(q, _) => LiveQueueKept(db, db', q);
    case At(j, _) =>
      assert Untouched(db, db', j.m.auction);
      LiveQueueKept(db, db', j.queue);
  }

  /** Anybody else's effects: they never touch an auction that is settling. */
  lemma OutsideStep(db: Db, pc: Pc, e: Effect, retryEdge: bool)
    requires SolePc(db, pc)
    requires e.Retries? || e.Concludes? || (e.Moves? && !InSettlement(e.to)) || e.Acts? || e.Nop?
    ensures InStep(db, e) && SolePc(PerformDb(db, e, retryEdge), pc)
  {
    hide SolePc, ResetItems, AnyFailed, TriggerAdmits;
    var db' := PerformDb(db, e, retryEdge);
    match e
    case Retries(m) =>
      if CanRetry(db, m, retryEdge) { OnlyAtUntouched(db, db', m.auction); SoleUntouched(db, db', pc, m.auction); }
    case Concludes(a, winner, now) =>
      if a in db.auctions && db.auctions[a].status == Ending {
        OnlyAtUntouched(db, db', a);
        SoleUntouched(db, db', pc, a);
      }
    case Moves(a, to, now) =>
      if a in db.auctions && ManualMove(db.auctions[a].status, to) {
        OnlyAtUntouched(db, db', a);
        SoleUntouched(db, db', pc, a);
      }
    case _ =>
  }

  predicate Closes(p: Point) {
    p == Finalize || p == Expire || p == Oversize
  }

  lemma FinalizeOnlyAt(db: Db, m: Manifest)
    requires AuctionSettling(db, m.auction)
    ensures OnlyAt(db, FinalizeTx(db, m), m.auction)
  {
    hide AckCount, AnyExhausted;
  }

  /** The sole worker's commit is in step, and what it leaves alone. */
  lemma SoleCommitDb(db: Db, j: Job, p: Point, retryEdge: bool)
    requires LiveCopy(db, j.m)
    ensures InStep(db, CommitEffect(j, p)) && CopyReady(db, CommitEffect(j, p))
    ensures var db' := PerformDb(db, CommitEffect(j, p), retryEdge);
            && (forall b :: b != j.m.auction ==> Untouched(db, db', b))
            && (!Closes(p) ==> LiveCopy(db', j.m))
  {
    hide FinalizeTx, AckCount, Judge;
    var db' := PerformDb(db, CommitEffect(j, p), retryEdge);
    if p == Finalize { FinalizeOnlyAt(db, j.m); }
    if Closes(p) || p == SaveItem { OnlyAtUntouched(db, db', j.m.auction); }
    else { MoneyRows(db, CommitEffect(j, p), retryEdge); }
  }

  lemma SoleAfter(db: Db, db': Db, j: Job, p: Point, fate: Fate)
    requires LiveQueue(db', j.queue)
    requires forall i :: 0 <= i < |j.queue| ==> j.queue[i].auction != j.m.auction
    requires !Closes(p) ==> LiveCopy(db', j.m)
    ensures SolePc(db', AfterCommit(db, j, p, fate))
  {
  }

  lemma SoleCommit(db: Db, j: Job, p: Point, fate: Fate, retryEdge: bool)
    requires SolePc(db, At(j, p))
    ensures var e := Emit(At(j, p), Commit(fate));
            && InStep(db, e) && CopyReady(db, e)
            && SolePc(PerformDb(db, e, retryEdge), AfterCommit(db, j, p, fate))
  {
    hide AfterCommit, LiveCopy, CommitEffect, Untouched;
    var db' := PerformDb(db, Emit(At(j, p), Commit(fate)), retryEdge);
    if Lands(fate) {
      SoleCommitDb(db, j, p, retryEdge);
      LiveQueueKept(db, db', j.queue);
    }
    SoleAfter(db, db', j, p, fate);
  }

  lemma SoleInitiate(db: Db, a: AuctionId, now: int, fate: Fate, retryEdge: bool)
    ensures var e := Emit(Idle, Initiate(a, now, fate));
            InStep(db, e) && CopyReady(db, e) && SolePc(PerformDb(db, e, retryEdge), AfterInitiate(db, a, now, fate))
  {
  }

  /** Moves that do not commit leave the rows alone and keep the same copies. */
  lemma SoleLocal(db: Db, pc: Pc, work: Work, retryEdge: bool)
    requires SolePc(db, pc) && !work.Initiate? && !work.Load? && !work.Commit?
    ensures SolePc(db, Goto(db, pc, work)) && PerformDb(db, Emit(pc, work), retryEdge) == db
    ensures InStep(db, Emit(pc, work)) && CopyReady(db, Emit(pc, work))
  {
    hide AuctionSettling, StatusOf;
  }

  lemma SoleWork(db: Db, pc: Pc, work: Work, retryEdge: bool)
    requires Lockstep(db) && SolePc(db, pc)
    ensures InStep(db, Emit(pc, work)) && CopyReady(db, Emit(pc, work))
    ensures SolePc(PerformDb(db, Emit(pc, work), retryEdge), Goto(db, pc, work))
  {
    hide Lockstep, LiveCopy, LiveQueue, AfterCommit, AfterRead, ActiveManifests, InStep, CopyReady;
    IdleSteps(db, retryEdge);
    match work
    case Initiate(a, now, fate) => if pc == Idle { SoleInitiate(db, a, now, fate, retryEdge); }
    case Load(order) => if pc == Idle && Distinct(order) { LoadedLive(db, order); }
    case Commit(fate) => if pc.At? { SoleCommit(db, pc.job, pc.point, fate, retryEdge); }
    case _ => SoleLocal(db, pc, work, retryEdge);
  }

  lemma IdleSteps(db: Db, retryEdge: bool)
    ensures InStep(db, Nop) && CopyReady(db, Nop) && PerformDb(db, Nop, retryEdge) == db
  {
  }

  ghost predicate SoleInv(s: Sys, w: WorkerId) {
    Lockstep(s.world.db) && SolePc(s.world.db, PcOf(s, w))
  }

  /** The sole worker's step, and anybody else's, is in step and leaves it with live copies. */
  lemma SoleStep(s: Sys, e: Event, w: WorkerId, retryEdge: bool)
    requires SoleInv(s, w) && OneInstanceEvent(e, w)
    ensures InStep(s.world.db, EffectOf(s, e)) && CopyReady(s.world.db, EffectOf(s, e))
    ensures SolePc(Step(s, e, retryEdge).world.db, PcOf(Step(s, e, retryEdge), w))
  {
    hide Lockstep, SolePc, Goto, Emit, InStep;
    if e.Worker? { SoleWork(s.world.db, PcOf(s, w), e.work, retryEdge); }
    else { OutsideStep(s.world.db, PcOf(s, w), EffectOf(s, e), retryEdge); }
  }

  lemma {:induction false} SoleRun(init: Db, events: seq<Event>, w: WorkerId, retryEdge: bool, n: nat)
    requires CleanStart(init) && OneInstance(events, w) && n <= |events|
    ensures SoleInv(After(init, events[..n], retryEdge), w)
    ensures n > 0 ==> InStepAt(init, events, retryEdge, n - 1)
  {
    hide Lockstep, SolePc, Goto, Emit, CleanStart, EffectOf, InStep, CopyReady;
    if n == 0 {
      StartLockstep(init);
      assert After(init, events[..0], retryEdge) == Start(init);
      IdleLive(init);
    } else {
      SoleRun(init, events, w, retryEdge, n - 1);
      var s, e := After(init, events[..n - 1], retryEdge), events[n - 1];
      assert OneInstanceEvent(e, w);
      SoleStep(s, e, w, retryEdge);
      StepExact(s.world.db, EffectOf(s, e), retryEdge);
      assert events[..n][..n - 1] == events[..n - 1];
    }
  }

  lemma IdleLive(db: Db)
    ensures SolePc(db, Idle)
  {
  }

  /** With one live instance, which may crash and restart anywhere, every commit is in step. */
  lemma OneInstanceInStep(init: Db, events: seq<Event>, w: WorkerId, retryEdge: bool)
    requires CleanStart(init) && OneInstance(events, w)
    ensures InStepThroughout(init, events, retryEdge)
  {
    hide CleanStart, OneInstance, InStepAt, SoleInv;
    forall n | 0 <= n < |events| ensures InStepAt(init, events, retryEdge, n) {
      SoleRun(init, events, w, retryEdge, n + 1);
    }
  }

  /** So in every committed state of one live instance: no manifest until settling, active iff settling,
      completed iff settled, expired or escalated iff failed; and the copies it still has to serve are
      live. */
  lemma LockstepForOneInstance(init: Db, events: seq<Event>, w: WorkerId, retryEdge: bool)
    requires CleanStart(init) && OneInstance(events, w)
    ensures LockstepThroughout(init, events, retryEdge)
    ensures SoleInv(After(init, events, retryEdge), w)
  {
    hide CleanStart, OneInstance, InStepThroughout, LockstepThroughout, SoleInv;
    OneInstanceInStep(init, events, w, retryEdge);
    LockstepIffInStep(init, events, retryEdge);
    SoleRun(init, events, w, retryEdge, |events|);
    assert events[..|events|] == events;
  }

  // ---- Two instances --------------------------------------------------

  /** One auction, ended without bids or participants. */
  function LonelyAuction(): Db {
    Db(map[0 := Auction(Ended, 100, 1, None, 0, Some(0), None, None, None, None, Some(0), 1)],
       map[], map[], [], [], map[], map[])
  }

  /** Worker 1 settles the auction while worker 2 holds a copy loaded earlier, which it then
      finds expired and saves. */
  function StaleExpiry(): seq<Event> {
    [Worker(1, Initiate(0, 0, Ambiguous(false))),
     Worker(1, Load([0])),
     Worker(2, Load([0])),
     Worker(1, Take(true, 0)),
     Worker(1, Scan),
     Worker(1, Commit(Committed)),
     Worker(2, Take(true, MANIFEST_EXPIRY_MS + 1)),
     Worker(2, Commit(Committed))]
  }

  predicate InState(s: Sys, db: Db, pc1: Pc, pc2: Pc) {
    s.world.db == db && PcOf(s, 1) == pc1 && PcOf(s, 2) == pc2
  }

  lemma FirstMoves(s: Sys, t: Sys, work: Work, db: Db, db': Db, pc1: Pc, pc1': Pc, pc2: Pc)
    requires InState(s, db, pc1, pc2) && t == Step(s, Worker(1, work), false)
    requires db' == PerformDb(db, Emit(pc1, work), false) && pc1' == Goto(db, pc1, work)
    ensures InState(t, db', pc1', pc2)
  {
  }

  lemma SecondMoves(s: Sys, t: Sys, work: Work, db: Db, db': Db, pc1: Pc, pc2: Pc, pc2': Pc)
    requires InState(s, db, pc1, pc2) && t == Step(s, Worker(2, work), false)
    requires db' == PerformDb(db, Emit(pc2, work), false) && pc2' == Goto(db, pc2, work)
    ensures InState(t, db', pc1, pc2')
  {
  }

  lemma StaleTables()
    ensures var db0, m := LonelyAuction(), LonelyManifest();
            var db1 := InitiateTx(db0, 0, 0);
            var db2 := FinalizeTx(db1, m);
            && NewManifest(db0, 0, 0) == m
            && db1.manifests == map[0 := m] && db1.auctions.Keys == {0} && db1.auctions[0].status == Settling
            && ActiveManifests(db1, [0]) == [m]
            && db2.manifests == map[0 := m.(status := Completed)]
            && db2.auctions.Keys == {0} && db2.auctions[0].status == Settled
  {
    assert [0][..0] == [];
  }

  function LonelyManifest(): Manifest {
    Manifest(0, [], Active, 0, 0, MANIFEST_EXPIRY_MS)
  }

  predicate Follows(t: seq<Sys>) {
    |t| == 9 && forall n :: 0 <= n < 8 ==> t[n + 1] == Step(t[n], StaleExpiry()[n], false)
  }

  /** Both workers load the active manifest. */
  lemma StaleLoads(t: seq<Sys>, db0: Db, db1: Db, m: Manifest)
    requires Follows(t) && InState(t[0], db0, Idle, Idle)
    requires InitiateTx(db0, 0, 0) == db1 && ActiveManifests(db1, [0]) == [m]
    ensures InState(t[3], db1, Tick([m], 0), Tick([m], 0))
  {
    var ev := StaleExpiry();
    FirstMoves(t[0], t[1], ev[0].work, db0, db1, Idle, Idle, Idle);
    FirstMoves(t[1], t[2], ev[1].work, db1, db1, Idle, Tick([m], 0), Idle);
    SecondMoves(t[2], t[3], ev[2].work, db1, db1, Tick([m], 0), Idle, Tick([m], 0));
  }

  /** Worker 1 serves its copy, which has no items, and settles the auction. */
  lemma StaleSettles(t: seq<Sys>, db1: Db, db2: Db, m: Manifest)
    requires Follows(t) && InState(t[3], db1, Tick([m], 0), Tick([m], 0))
    requires FinalizeTx(db1, m) == db2 && m.items == [] && m.expiresAt == MANIFEST_EXPIRY_MS
    ensures InState(t[6], db2, Tick([], 1), Tick([m], 0))
  {
    var ev, j, q := StaleExpiry(), Job(m, 0, 0, [], 0), Tick([m], 0);
    FirstMoves(t[3], t[4], ev[3].work, db1, db1, q, At(j, Loop), q);
    FirstMoves(t[4], t[5], ev[4].work, db1, db1, At(j, Loop), At(j, Finalize), q);
    FirstMoves(t[5], t[6], ev[5].work, db1, db2, At(j, Finalize), Tick([], 1), q);
  }

  /** Worker 2 finds its own copy expired and saves it. */
  lemma StaleSaves(t: seq<Sys>, db2: Db, m: Manifest)
    requires Follows(t) && InState(t[6], db2, Tick([], 1), Tick([m], 0))
    requires m.items == [] && m.expiresAt == MANIFEST_EXPIRY_MS
    ensures t[8].world.db == ForceCloseTx(db2, ExpiredCopy(m))
  {
    var ev, j := StaleExpiry(), Job(m, 0, 0, [], 0);
    SecondMoves(t[6], t[7], ev[6].work, db2, db2, Tick([], 1), Tick([m], 0), At(j, Expire));
    var db3 := ForceCloseTx(db2, ExpiredCopy(m));
    SecondMoves(t[7], t[8], ev[7].work, db2, db3, Tick([], 1), At(j, Expire), Tick([], 1));
  }

  lemma StaleTrace(t: seq<Sys>, db0: Db, db1: Db, db2: Db, m: Manifest)
    requires Follows(t) && InState(t[0], db0, Idle, Idle)
    requires InitiateTx(db0, 0, 0) == db1 && ActiveManifests(db1, [0]) == [m] && FinalizeTx(db1, m) == db2
    requires m.items == [] && m.expiresAt == MANIFEST_EXPIRY_MS
    ensures t[8].world.db == ForceCloseTx(db2, ExpiredCopy(m))
  {
    hide InState, InitiateTx, FinalizeTx, ForceCloseTx, ActiveManifests;
    StaleLoads(t, db0, db1, m);
    StaleSettles(t, db1, db2, m);
    StaleSaves(t, db2, m);
  }

  lemma StaleRun(db0: Db, db1: Db, db2: Db, m: Manifest)
    requires InitiateTx(db0, 0, 0) == db1 && ActiveManifests(db1, [0]) == [m] && FinalizeTx(db1, m) == db2
    requires m.items == [] && m.expiresAt == MANIFEST_EXPIRY_MS
    ensures After(db0, StaleExpiry(), false).world.db == ForceCloseTx(db2, ExpiredCopy(m))
  {
    hide Step, InitiateTx, FinalizeTx, ForceCloseTx, ActiveManifests;
    var ev := StaleExpiry();
    var t := seq(9, n requires 0 <= n <= 8 => Run(Start(db0), ev[..n], false));
    forall n | 0 <= n < 8 ensures t[n + 1] == Step(t[n], ev[n], false) {
      RunSplit(Start(db0), ev, n, false);
    }
    StaleTrace(t, db0, db1, db2, m);
    assert ev[..8] == ev;
  }

  lemma NotInStep(init: Db, events: seq<Event>, retryEdge: bool)
    requires CleanStart(init) && !Lockstep(After(init, events, retryEdge).world.db)
    ensures !InStepThroughout(init, events, retryEdge)
  {
    hide Lockstep, InStepThroughout, CleanStart;
    LockstepIffInStep(init, events, retryEdge);
    assert events[..|events|] == events;
    assert !LockstepAfter(init, events, retryEdge, |events|);
  }

  /** With two instances a commit can be out of step: the stale copy marks a settled auction's manifest
      expired.  The money theorems hold all the same. */
  lemma LockstepFailsForTwo()
    ensures CleanStart(LonelyAuction())
    ensures var db := After(LonelyAuction(), StaleExpiry(), false).world.db;
            && 0 in db.auctions && db.auctions[0].status == Settled
            && 0 in db.manifests && db.manifests[0].status == ManifestExpired
    ensures !InStepThroughout(LonelyAuction(), StaleExpiry(), false)
  {
    var db0, m := LonelyAuction(), LonelyManifest();
    StaleTables();
    StaleRun(db0, InitiateTx(db0, 0, 0), FinalizeTx(InitiateTx(db0, 0, 0), m), m);
    var db := After(LonelyAuction(), StaleExpiry(), false).world.db;
    assert !LockstepAt(db, 0);
    NotInStep(db0, StaleExpiry(), false);
  }
}
