/**
 What each worker knows at each program point, why every move it makes meets its guarantee,
 and the invariant of whole runs.
 */
module SettlementRuns {
  import opened Wrappers
  import opened Auctions
  import opened Settlement
  import opened SettlementMachine
  import opened SettlementBooks

  predicate CleanCopy(db: Db, m: Manifest) {
    CopyOf(db, m) && NoSent(m.items)
  }

  predicate QueueOk(db: Db, q: seq<Manifest>) {
    forall i :: 0 <= i < |q| ==> CleanCopy(db, q[i])
  }

  predicate OthersNotSent(j: Job) {
    forall k :: 0 <= k < |j.m.items| && k != j.i ==> j.m.items[k].status != Sent
  }

  /** The current item is marked `sent` in place, and no other item is. */
  predicate InFlight(j: Job) {
    HasItem(j) && Current(j).status == Sent && OthersNotSent(j)
  }

  /** A refund is under way only after its initiation was committed. */
  predicate RefundUnderWay(db: Db, it: Item) {
    it.action == Refund ==>
      it.deposit in db.deposits && InRefund(db.deposits[it.deposit].status)
  }

  /** The assertion at each program point. */
  predicate PointInv(x: World, j: Job, p: Point) {
    match p
    case Loop => NoSent(j.m.items)
    case Finalize => NoSent(j.m.items)
    case Expire => NoSent(j.m.items)
    case Oversize => NoSent(j.m.items)
    case SaveItem => HasItem(j) && NoSent(j.m.items)
    case ReadDeposit => HasItem(j) && NoSent(j.m.items)
    case CallPos => InFlight(j) && RefundUnderWay(x.db, Current(j))
    case AwaitPos =>
      InFlight(j) && RefundUnderWay(x.db, Current(j)) && WasRequested(x.pos, Current(j).key)
    case CaptureDb(_) => InFlight(j) && Current(j).action == Capture && Current(j).key in x.pos.approved
    case RefundDoneDb(_) =>
      && InFlight(j) && Current(j).action == Refund && RefundUnderWay(x.db, Current(j))
      && Current(j).key in x.pos.approved
    case Recheck => InFlight(j)
    case RefundInitDb(_) => HasItem(j) && NoSent(j.m.items) && Current(j).action == Refund
    case InitRecheck => HasItem(j) && NoSent(j.m.items) && Current(j).action == Refund
  }

  predicate PcInv(x: World, pc: Pc) {
    match pc
    case Idle => true
    case Tick(q, _) => QueueOk(x.db, q)
    case At(j, p) => QueueOk(x.db, j.queue) && CopyOf(x.db, j.m) && PointInv(x, j, p)
  }

  // ---- Stability under everybody else's steps --------------------------

  lemma GoalStable(x: World, y: World, it: Item)
    requires Evolves(x, y) && TruthfulItem(x.db, it)
    ensures TruthfulItem(y.db, it)
  {
  }

  lemma CopyStable(x: World, y: World, m: Manifest)
    requires Evolves(x, y) && CopyOf(x.db, m)
    ensures CopyOf(y.db, m)
  {
    var a := m.auction;
    forall i | 0 <= i < |m.items|
      ensures Static(m.items[i]) == Static(y.db.manifests[a].items[i]) && TruthfulItem(y.db, m.items[i])
    {
      assert Static(m.items[i]) == Static(x.db.manifests[a].items[i]);
      GoalStable(x, y, m.items[i]);
    }
  }

  lemma QueueStable(x: World, y: World, q: seq<Manifest>)
    requires Evolves(x, y) && QueueOk(x.db, q)
    ensures QueueOk(y.db, q)
  {
    forall i | 0 <= i < |q| ensures CleanCopy(y.db, q[i]) { CopyStable(x, y, q[i]); }
  }

  lemma RequestStable(p: Pos, q: Pos, k: Key)
    requires p.requests <= q.requests && WasRequested(p, k)
    ensures WasRequested(q, k)
  {
    var i :| 0 <= i < |p.requests| && p.requests[i].key == k;
    assert q.requests[i].key == k;
  }

  lemma PcStable(x: World, y: World, pc: Pc)
    requires Evolves(x, y) && PcInv(x, pc)
    ensures PcInv(y, pc)
  {
    match pc
    case Idle =>
    case Tick(q, _) => QueueStable(x, y, q);
    case At(j, p) =>
      QueueStable(x, y, j.queue);
      CopyStable(x, y, j.m);
      if p == AwaitPos { RequestStable(x.pos, y.pos, Current(j).key); }
  }

  // ---- The current item -----------------------------------------------

  /** A worker's copy of an item is the planned item for its deposit. */
  lemma CurrentOk(init: Db, x: World, j: Job)
    requires WorldInv(init, x) && CopyOf(x.db, j.m) && HasItem(j)
    ensures ItemOk(init, x, Current(j))
    ensures x.db.deposits[Current(j).deposit].auction == j.m.auction
  {
    var a := j.m.auction;
    assert Stored(init, x.db, a);
    SamePlanPlan(init, x.db, a, x.db.manifests[a].items, j.m.items);
    assert Planned(init, x.db, a, j.m.items[j.i]);
  }

  lemma PutOk(db: Db, j: Job, it: Item)
    requires CopyOf(db, j.m) && HasItem(j)
    requires Static(it) == Static(Current(j)) && TruthfulItem(db, it)
    ensures CopyOf(db, Put(j, it).m)
    ensures OthersNotSent(j) && it.status != Sent ==> NoSent(Put(j, it).m.items)
    ensures OthersNotSent(j) && it.status == Sent ==> InFlight(Put(j, it))
  {
    var r, items := Put(j, it).m.items, db.manifests[j.m.auction].items;
    forall i | 0 <= i < |r| ensures Static(r[i]) == Static(items[i]) && TruthfulItem(db, r[i]) {
      assert Static(j.m.items[i]) == Static(items[i]) && TruthfulItem(db, j.m.items[i]);
    }
  }

  lemma FailOk(x: World, j: Job)
    requires QueueOk(x.db, j.queue) && CopyOf(x.db, j.m) && HasItem(j) && OthersNotSent(j)
    ensures PcInv(x, FailItem(j))
  {
    PutOk(x.db, j, Fail(Current(j)));
  }

  lemma AckOk(x: World, j: Job)
    requires QueueOk(x.db, j.queue) && CopyOf(x.db, j.m) && HasItem(j) && OthersNotSent(j)
    requires StatusOf(x.db, Current(j).deposit) == Some(Goal(Current(j).action))
    ensures PcInv(x, AckItem(j))
  {
    PutOk(x.db, j, Ack(Current(j)));
  }

  lemma SendOk(x: World, j: Job)
    requires QueueOk(x.db, j.queue) && CopyOf(x.db, j.m) && HasItem(j) && OthersNotSent(j)
    requires RefundUnderWay(x.db, Current(j))
    ensures PcInv(x, SendItem(j))
  {
    PutOk(x.db, j, Current(j).(status := Sent));
  }

  /** A planned capture never meets a refunded deposit, nor a planned refund a captured one. */
  lemma NoCrossing(init: Db, x: World, it: Item)
    requires WorldInv(init, x) && ItemOk(init, x, it)
    ensures var st := x.db.deposits[it.deposit].status;
            st == Held || st == Goal(it.action) || (it.action == Refund && st == RefundPending)
  {
    assert Books(init, x.db, it.deposit);
  }

  // ---- Each move meets its guarantee ----------------------------------

  /** The three re-reads.  They need only the worker's own copy, not the invariant. */
  lemma ReadMove(x: World, j: Job)
    requires PcInv(x, At(j, ReadDeposit))
    ensures PcInv(x, AfterRead(j, StatusOf(x.db, Current(j).deposit)))
  {
    var st, act := StatusOf(x.db, Current(j).deposit), Current(j).action;
    if st == Some(Goal(act)) { AckOk(x, j); }
    else if act == Refund && st == Some(RefundPending) { SendOk(x, j); }
    else if act == Capture && st == Some(Held) { SendOk(x, j); }
    else { FailOk(x, j); }
  }

  lemma RecheckMove(x: World, j: Job)
    requires PcInv(x, At(j, Recheck))
    ensures PcInv(x, AfterRecheck(j, StatusOf(x.db, Current(j).deposit)))
  {
    if StatusOf(x.db, Current(j).deposit) == Some(Goal(Current(j).action)) { AckOk(x, j); }
    else { FailOk(x, j); }
  }

  lemma InitRecheckMove(x: World, j: Job)
    requires PcInv(x, At(j, InitRecheck))
    ensures PcInv(x, AfterInitRecheck(j, StatusOf(x.db, Current(j).deposit)))
  {
    var st := StatusOf(x.db, Current(j).deposit);
    if st == Some(Refunded) { AckOk(x, j); }
    else if st == Some(RefundPending) { SendOk(x, j); }
    else { FailOk(x, j); }
  }

  lemma CaptureLands(init: Db, x: World, j: Job, k: nat)
    requires WorldInv(init, x) && PcInv(x, At(j, CaptureDb(k)))
    ensures StatusOf(CaptureTx(x.db, Current(j)), Current(j).deposit) == Some(Captured)
  {
    CurrentOk(init, x, j);
    NoCrossing(init, x, Current(j));
  }

  lemma RefundLands(init: Db, x: World, j: Job, k: nat)
    requires WorldInv(init, x) && PcInv(x, At(j, RefundDoneDb(k)))
    ensures StatusOf(RefundDoneTx(x.db, Current(j)), Current(j).deposit) == Some(Refunded)
  {
    CurrentOk(init, x, j);
    NoCrossing(init, x, Current(j));
  }

  lemma CommitOk(init: Db, x: World, j: Job, p: Point, fate: Fate)
    requires WorldInv(init, x) && PcInv(x, At(j, p))
    ensures EffectOk(init, x, Emit(At(j, p), Commit(fate)))
  {
    hide WorldInv, QueueOk;
    if HasItem(j) { CurrentOk(init, x, j); }
  }

  /** `y` is the world after the commit, and `j` still holds there by stability. */
  lemma CommitLeads(db: Db, y: World, j: Job, p: Point, fate: Fate)
    requires PcInv(y, At(j, p))
    requires fate.Committed? && p.CaptureDb? ==> StatusOf(y.db, Current(j).deposit) == Some(Captured)
    requires fate.Committed? && p.RefundDoneDb? ==> StatusOf(y.db, Current(j).deposit) == Some(Refunded)
    requires fate.Committed? && p.RefundInitDb? && StatusOf(db, Current(j).deposit) == Some(Held)
             && !RefundInitRaises(db, Current(j)) ==>
               StatusOf(y.db, Current(j).deposit) == Some(RefundPending)
    ensures PcInv(y, AfterCommit(db, j, p, fate))
  {
    match p
    case CaptureDb(_) => if fate.Committed? { AckOk(y, j); }
    case RefundDoneDb(_) => if fate.Committed? { AckOk(y, j); }
    case RefundInitDb(_) =>
      if fate.Committed? && !RefundInitRaises(db, Current(j))
         && StatusOf(db, Current(j).deposit) == Some(Held) {
        SendOk(y, j);
      }
    case _ =>
  }

  /** The worker's knowledge survives its own commit. */
  lemma CommitStays(init: Db, x: World, j: Job, p: Point, fate: Fate, retryEdge: bool)
    requires WorldInv(init, x) && PcInv(x, At(j, p))
    ensures PcInv(Perform(x, Emit(At(j, p), Commit(fate)), retryEdge), At(j, p))
  {
    var e := Emit(At(j, p), Commit(fate));
    CommitOk(init, x, j, p, fate);
    PerformKeeps(init, x, e, retryEdge);
    PcStable(x, Perform(x, e, retryEdge), At(j, p));
  }

  lemma CommitMove(init: Db, x: World, j: Job, p: Point, fate: Fate, retryEdge: bool)
    requires WorldInv(init, x) && PcInv(x, At(j, p))
    ensures PcInv(Perform(x, Emit(At(j, p), Commit(fate)), retryEdge), AfterCommit(x.db, j, p, fate))
  {
    hide WorldInv, CopyOf, QueueOk, AfterCommit, EffectOk;
    var y := Perform(x, Emit(At(j, p), Commit(fate)), retryEdge);
    CommitStays(init, x, j, p, fate, retryEdge);
    assert fate.Committed? && p.CaptureDb? ==>
        StatusOf(y.db, Current(j).deposit) == Some(Captured) by {
      if fate.Committed? && p.CaptureDb? { CaptureLands(init, x, j, p.attempt); }
    }
    assert fate.Committed? && p.RefundDoneDb? ==>
        StatusOf(y.db, Current(j).deposit) == Some(Refunded) by {
      if fate.Committed? && p.RefundDoneDb? { RefundLands(init, x, j, p.attempt); }
    }
    CommitLeads(x.db, y, j, p, fate);
  }

  lemma InitiateMove(init: Db, x: World, work: Work, retryEdge: bool)
    requires WorldInv(init, x) && work.Initiate?
    ensures PcInv(Perform(x, Emit(Idle, work), retryEdge), Goto(x.db, Idle, work))
  {
    var y := Perform(x, Emit(Idle, work), retryEdge);
    PerformKeeps(init, x, Emit(Idle, work), retryEdge);
    if work.fate.Committed? && CanInitiate(x.db, work.a) {
      assert Stored(init, y.db, work.a);
    }
  }

  lemma LoadedOk(init: Db, x: World, order: seq<AuctionId>)
    requires WorldInv(init, x)
    ensures QueueOk(x.db, ActiveManifests(x.db, order))
  {
    if order != [] {
      LoadedOk(init, x, order[..|order| - 1]);
      var a := order[|order| - 1];
      if a in x.db.manifests { assert Stored(init, x.db, a); }
    }
  }

  lemma CallMove(init: Db, x: World, j: Job, circuitOpen: bool, retryEdge: bool)
    requires WorldInv(init, x) && PcInv(x, At(j, CallPos))
    ensures EffectOk(init, x, Emit(At(j, CallPos), Call(circuitOpen)))
    ensures PcInv(Perform(x, Emit(At(j, CallPos), Call(circuitOpen)), retryEdge),
                  Goto(x.db, At(j, CallPos), Call(circuitOpen)))
  {
    hide WorldInv, CopyOf, QueueOk;
    CurrentOk(init, x, j);
    if circuitOpen {
      FailOk(x, j);
    } else {
      RequestKeeps(init, x, Current(j));
      PcStable(x, Perform(x, Requests(Current(j)), retryEdge), At(j, CallPos));
    }
  }

  lemma ApprovedMove(init: Db, x: World, j: Job, retryEdge: bool)
    requires WorldInv(init, x) && PcInv(x, At(j, AwaitPos))
    ensures PcInv(Perform(x, Approves(Current(j)), retryEdge),
                  Goto(x.db, At(j, AwaitPos), Receive(Approved)))
  {
    hide WorldInv, CopyOf, QueueOk;
    var y := Perform(x, Approves(Current(j)), retryEdge);
    AnswerKeeps(init, x, Approves(Current(j)));
    PcStable(x, y, At(j, AwaitPos));
    assert Current(j).key in y.pos.approved;
  }

  lemma ReceiveMove(init: Db, x: World, j: Job, reply: Reply, retryEdge: bool)
    requires WorldInv(init, x) && PcInv(x, At(j, AwaitPos))
    ensures EffectOk(init, x, Emit(At(j, AwaitPos), Receive(reply)))
    ensures PcInv(Perform(x, Emit(At(j, AwaitPos), Receive(reply)), retryEdge),
                  Goto(x.db, At(j, AwaitPos), Receive(reply)))
  {
    hide WorldInv, CopyOf, QueueOk;
    match reply
    case Approved => ApprovedMove(init, x, j, retryEdge);
    case Declined => FailOk(x, j);
    case Threw =>
  }

  lemma LocalMove(x: World, pc: Pc, work: Work)
    requires PcInv(x, pc) && (work.Take? || work.Scan? || work.Read? || work.Drop?)
    ensures PcInv(x, Goto(x.db, pc, work))
  {
    if pc.At? && work.Read? && work.ok {
      match pc.point
      case ReadDeposit => ReadMove(x, pc.job);
      case Recheck => RecheckMove(x, pc.job);
      case InitRecheck => InitRecheckMove(x, pc.job);
      case _ =>
    }
  }

  /** The heart of the protocol: whatever a worker does next, and however it turns out, its
      effect is one its knowledge justifies and its knowledge at the next point holds. */
  lemma WorkMove(init: Db, x: World, pc: Pc, work: Work, retryEdge: bool)
    requires WorldInv(init, x) && PcInv(x, pc)
    ensures EffectOk(init, x, Emit(pc, work))
    ensures PcInv(Perform(x, Emit(pc, work), retryEdge), Goto(x.db, pc, work))
  {
    hide WorldInv, CopyOf, QueueOk, PointInv;
    match work
    case Initiate(_, _, _) => if pc == Idle { InitiateMove(init, x, work, retryEdge); }
    case Load(order) => if pc == Idle { LoadedOk(init, x, order); }
    case Call(circuitOpen) =>
      if pc.At? && pc.point == CallPos { CallMove(init, x, pc.job, circuitOpen, retryEdge); }
    case Receive(reply) =>
      if pc.At? && pc.point == AwaitPos { ReceiveMove(init, x, pc.job, reply, retryEdge); }
    case Commit(fate) =>
      if pc.At? {
        CommitOk(init, x, pc.job, pc.point, fate);
        CommitMove(init, x, pc.job, pc.point, fate, retryEdge);
      }
    case _ => LocalMove(x, pc, work);
  }

  // ---- Runs -----------------------------------------------------------

  ghost predicate SysInv(init: Db, s: Sys) {
    && WorldInv(init, s.world)
    && (forall w :: w in s.workers ==> PcInv(s.world, s.workers[w]))
    && (forall k :: k in s.admins ==> CleanCopy(s.world.db, s.admins[k]))
  }

  lemma IdleOk(x: World)
    ensures PcInv(x, Idle)
  {
  }

  lemma StoredIsCopy(init: Db, x: World, a: AuctionId)
    requires WorldInv(init, x) && a in x.db.manifests
    ensures CleanCopy(x.db, x.db.manifests[a])
  {
    assert Stored(init, x.db, a);
  }

  /** In every state satisfying the invariant, every possible effect is justified. */
  lemma StepJustified(init: Db, s: Sys, e: Event, retryEdge: bool)
    requires SysInv(init, s)
    ensures EffectOk(init, s.world, EffectOf(s, e))
  {
    hide WorldInv, CopyOf, Goto, Emit, PcInv;
    if e.Worker? {
      IdleOk(s.world);
      WorkMove(init, s.world, PcOf(s, e.w), e.work, retryEdge);
    }
  }

  lemma StepKeeps(init: Db, s: Sys, e: Event, retryEdge: bool)
    requires SysInv(init, s)
    ensures SysInv(init, Step(s, e, retryEdge))
    ensures Evolves(s.world, Step(s, e, retryEdge).world)
  {
    hide WorldInv, CopyOf, PcInv, Goto, Emit, EffectOk, Evolves;
    StepJustified(init, s, e, retryEdge);
    PerformKeeps(init, s.world, EffectOf(s, e), retryEdge);
    var t := Step(s, e, retryEdge);
    if e.Worker? {
      IdleOk(s.world);
      WorkMove(init, s.world, PcOf(s, e.w), e.work, retryEdge);
    }
    forall w | w in t.workers ensures PcInv(t.world, t.workers[w]) {
      if w in s.workers { PcStable(s.world, t.world, s.workers[w]); }
    }
    forall k | k in t.admins ensures CleanCopy(t.world.db, t.admins[k]) {
      if k in s.admins { CopyStable(s.world, t.world, s.admins[k]); }
      if e.AdminRead? && e.a in s.world.db.manifests { StoredIsCopy(init, s.world, e.a); }
    }
  }

  /** The invariant holds at the end of every run, with or without the retry edge. */
  lemma {:induction false} RunInv(init: Db, events: seq<Event>, retryEdge: bool)
    requires CleanStart(init)
    ensures SysInv(init, Run(Start(init), events, retryEdge))
  {
    if events == [] {
      StartInv(init);
    } else {
      RunInv(init, events[..|events| - 1], retryEdge);
      StepKeeps(init, Run(Start(init), events[..|events| - 1], retryEdge), events[|events| - 1], retryEdge);
    }
  }

  lemma {:induction false} RunEvolves(init: Db, s: Sys, events: seq<Event>, retryEdge: bool)
    requires SysInv(init, s)
    ensures SysInv(init, Run(s, events, retryEdge))
    ensures Evolves(s.world, Run(s, events, retryEdge).world)
  {
    if events == [] {
      NothingMoves(init, s.world);
    } else {
      var mid := Run(s, events[..|events| - 1], retryEdge);
      RunEvolves(init, s, events[..|events| - 1], retryEdge);
      StepKeeps(init, mid, events[|events| - 1], retryEdge);
      EvolvesTransitive(s.world, mid.world, Run(s, events, retryEdge).world);
    }
  }
}
