/**
 The settlement service as a state machine.  Any number of worker instances and
 administrators interleave at every await.  A worker is a program counter with its private
 copies of manifests; a database transaction is one atomic effect that commits, aborts, or
 commits while the caller is told it failed; a POS call may take effect without a reply.
 Locks are only a nondeterministic permission, so nothing below relies on mutual exclusion.
 */
module SettlementMachine {
  import opened Wrappers
  import opened Auctions
  import opened Settlement

  type WorkerId = nat
  type AdminId = nat

  datatype PosRequest = PosRequest(key: Key, amount: int)

  /** What the payment gateway has seen: requests in order, keys it has acted on (at most once
      each, by key idempotency), and keys it has answered with success. */
  datatype Pos = Pos(requests: seq<PosRequest>, moved: set<Key>, approved: set<Key>)

  datatype World = World(db: Db, pos: Pos)

  /** The manifest being served, the loop index, the items processed in this tick, and what is
      left of the list loaded at the start of the tick. */
  datatype Job = Job(m: Manifest, i: nat, n: nat, queue: seq<Manifest>, served: nat)

  datatype Point =
    | Loop
    | ReadDeposit
    | CallPos
    | AwaitPos
    | CaptureDb(attempt: nat)
    | RefundInitDb(attempt: nat)
    | RefundDoneDb(attempt: nat)
    | Recheck
    | InitRecheck
    | SaveItem
    | Finalize
    | Expire
    | Oversize

  datatype Pc = Idle | Tick(queue: seq<Manifest>, served: nat) | At(job: Job, point: Point)

  datatype Reply = Approved | Declined | Threw

  /** Each worker action carries the choices the environment makes in that step. */
  datatype Work =
    | Initiate(a: AuctionId, now: int, fate: Fate)
    | Load(order: seq<AuctionId>)
    | Take(granted: bool, now: int)
    | Scan
    | Read(ok: bool)
    | Call(circuitOpen: bool)
    | Receive(reply: Reply)
    | Commit(fate: Fate)
    | Drop

  datatype Event =
    | Worker(w: WorkerId, work: Work)
    | AdminRead(k: AdminId, a: AuctionId)
    | AdminCommit(k: AdminId, fate: Fate)
    | PosActs(key: Key)
    | Conclude(a: AuctionId, winner: Option<(BidId, UserId, int)>, now: int)
    | Manual(a: AuctionId, to: AuctionStatus, now: int)

  datatype Sys = Sys(world: World, workers: map<WorkerId, Pc>, admins: map<AdminId, Manifest>)

  // ---- Effects on the world -------------------------------------------

  datatype Effect =
    | Nop
    | Captures(item: Item)
    | InitiatesRefund(item: Item)
    | CompletesRefund(item: Item)
    | Saves(m: Manifest)
    | Finalizes(m: Manifest)
    | ForceCloses(m: Manifest)
    | Initiates(a: AuctionId, now: int)
    | Retries(m: Manifest)
    | Concludes(a: AuctionId, winner: Option<(BidId, UserId, int)>, now: int)
    | Moves(a: AuctionId, to: AuctionStatus, now: int)
    | Requests(item: Item)
    | Approves(item: Item)
    | Acts(key: Key)

  predicate WasRequested(pos: Pos, k: Key) {
    exists i :: 0 <= i < |pos.requests| && pos.requests[i].key == k
  }

  function PerformDb(db: Db, e: Effect, retryEdge: bool): Db {
    match e
    case Captures(it) => CaptureTx(db, it)
    case InitiatesRefund(it) => RefundInitTx(db, it)
    case CompletesRefund(it) => RefundDoneTx(db, it)
    case Saves(m) => SaveTx(db, m)
    case Finalizes(m) => FinalizeTx(db, m)
    case ForceCloses(m) => ForceCloseTx(db, m)
    case Initiates(a, now) => InitiateTx(db, a, now)
    case Retries(m) => RetryTx(db, m, retryEdge)
    case Concludes(a, winner, now) => ConcludeTx(db, a, winner, now)
    case Moves(a, to, now) => ManualTx(db, a, to, now)
    case _ => db
  }

  function PerformPos(pos: Pos, e: Effect): Pos {
    match e
    case Requests(it) => pos.(requests := pos.requests + [PosRequest(it.key, it.amount)])
    case Approves(it) => pos.(moved := pos.moved + {it.key}, approved := pos.approved + {it.key})
    case Acts(k) => if WasRequested(pos, k) then pos.(moved := pos.moved + {k}) else pos
    case _ => pos
  }

  function Perform(x: World, e: Effect, retryEdge: bool): World {
    World(PerformDb(x.db, e, retryEdge), PerformPos(x.pos, e))
  }

  // ---- A worker's moves -----------------------------------------------

  /** The exception path: the tick moves on to the next manifest and this copy is dropped. */
  function Abandon(j: Job): Pc {
    Tick(j.queue, j.served)
  }

  function Served(j: Job): Pc {
    Tick(j.queue, j.served + 1)
  }

  predicate HasItem(j: Job) {
    j.i < |j.m.items|
  }

  function Current(j: Job): Item
    requires HasItem(j)
  {
    j.m.items[j.i]
  }

  function Put(j: Job, it: Item): Job
    requires HasItem(j)
  {
    j.(m := j.m.(items := j.m.items[j.i := it]))
  }

  /** The item failed: it is returned to the loop to be saved. */
  function FailItem(j: Job): Pc
    requires HasItem(j)
  {
    At(Put(j, Fail(Current(j))), SaveItem)
  }

  function AckItem(j: Job): Pc
    requires HasItem(j)
  {
    At(Put(j, Ack(Current(j))), SaveItem)
  }

  /** The item is marked `sent` in place and the POS is called next. */
  function SendItem(j: Job): Pc
    requires HasItem(j)
  {
    At(Put(j, Current(j).(status := Sent)), CallPos)
  }

  function Goal(act: Action): DepositStatus {
    if act == Capture then Captured else Refunded
  }

  /** First read of the deposit, at the top of `processCaptureItem` and `processRefundItem`. */
  function AfterRead(j: Job, status: Option<DepositStatus>): Pc
    requires HasItem(j)
  {
    var act := Current(j).action;
    match status
    case None => FailItem(j)
    case Some(st) =>
      if st == Goal(act) then AckItem(j)
      else if act == Refund && st == RefundPending then SendItem(j)
      else if st != Held then FailItem(j)
      else if act == Capture then SendItem(j)
      else At(j, RefundInitDb(0))
  }

  /** The re-read after an error: the item is acknowledged iff its deposit got there anyway. */
  function AfterRecheck(j: Job, status: Option<DepositStatus>): Pc
    requires HasItem(j)
  {
    if status == Some(Goal(Current(j).action)) then AckItem(j) else FailItem(j)
  }

  /** The re-read after a refund initiation found its deposit already moved on. */
  function AfterInitRecheck(j: Job, status: Option<DepositStatus>): Pc
    requires HasItem(j)
  {
    if status == Some(Refunded) then AckItem(j)
    else if status == Some(RefundPending) then SendItem(j)
    else FailItem(j)
  }

  /** `updateManifestData` refreshes the acknowledged count before it saves. */
  function Counted(m: Manifest): Manifest {
    m.(acked := AckCount(m.items))
  }

  /** The loop header of `processActiveManifests`. */
  function AfterScan(j: Job): Pc {
    if j.n >= ITEMS_PER_TICK || j.i >= |j.m.items| then At(j, Finalize)
    else if Processable(j.m.items[j.i]) then At(j, ReadDeposit)
    else At(j.(i := j.i + 1), Loop)
  }

  function AfterTake(queue: seq<Manifest>, served: nat, granted: bool, now: int): Pc {
    if queue == [] || served >= MAX_MANIFESTS_PER_TICK then Idle
    else if !granted then Tick(queue[1..], served)
    else
      var j := Job(queue[0], 0, 0, queue[1..], served);
      if now > j.m.expiresAt then At(j, Expire)
      else if |j.m.items| > MEMORY_SAFETY_ITEMS_LIMIT then At(j, Oversize)
      else At(j, Loop)
  }

  /** `executeWithRetry`: retry a retryable error up to the bound, otherwise rethrow. */
  predicate RetriesAfter(fate: Fate, attempt: nat) {
    !fate.Committed? && fate.retryable && attempt < DB_MAX_RETRIES
  }

  /** The next program counter after the pending transaction of `p` ended with `fate`. */
  function AfterCommit(db: Db, j: Job, p: Point, fate: Fate): Pc {
    match p
    case CaptureDb(k) =>
      if !HasItem(j) then Idle
      else if fate.Committed? then AckItem(j)
      else if RetriesAfter(fate, k) then At(j, CaptureDb(k + 1))
      else At(j, Recheck)
    case RefundDoneDb(k) =>
      if !HasItem(j) then Idle
      else if fate.Committed? then AckItem(j)
      else if RetriesAfter(fate, k) then At(j, RefundDoneDb(k + 1))
      else At(j, Recheck)
    case RefundInitDb(k) =>
      if !HasItem(j) then Idle
      else if fate.Committed? then
        if RefundInitRaises(db, Current(j)) then Abandon(j)
        else if StatusOf(db, Current(j).deposit) == Some(Held) then SendItem(j)
        else At(j, InitRecheck)
      else if RetriesAfter(fate, k) then At(j, RefundInitDb(k + 1))
      else Abandon(j)
    case SaveItem =>
      if fate.Committed? then At(j.(m := Counted(j.m), i := j.i + 1, n := j.n + 1), Loop) else Abandon(j)
    case Finalize => if fate.Committed? then Served(j) else Abandon(j)
    case Expire => if fate.Committed? then Served(j) else Abandon(j)
    case Oversize => if fate.Committed? then Served(j) else Abandon(j)
    case _ => At(j, p)
  }

  function ExpiredCopy(m: Manifest): Manifest {
    m.(status := ManifestExpired)
  }

  function OversizedCopy(m: Manifest): Manifest {
    Counted(m).(status := Escalated)
  }

  function CommitEffect(j: Job, p: Point): Effect {
    match p
    case CaptureDb(_) => if HasItem(j) then Captures(Current(j)) else Nop
    case RefundDoneDb(_) => if HasItem(j) then CompletesRefund(Current(j)) else Nop
    case RefundInitDb(_) => if HasItem(j) then InitiatesRefund(Current(j)) else Nop
    case SaveItem => Saves(Counted(j.m))
    case Finalize => Finalizes(j.m)
    case Expire => ForceCloses(ExpiredCopy(j.m))
    case Oversize => ForceCloses(OversizedCopy(j.m))
    case _ => Nop
  }

  predicate Distinct(order: seq<AuctionId>) {
    forall i, j :: 0 <= i < j < |order| ==> order[i] != order[j]
  }

  /** `find({ where: { status: ACTIVE } })`: each active row once, in whatever order. */
  function ActiveManifests(db: Db, order: seq<AuctionId>): seq<Manifest> {
    if order == [] then []
    else
      var k := |order| - 1;
      ActiveManifests(db, order[..k])
      + if order[k] in db.manifests && db.manifests[order[k]].status == Active
      then [db.manifests[order[k]]] else []
  }

  /** A freshly initiated manifest without items is finalized at once. */
  function AfterInitiate(db: Db, a: AuctionId, now: int, fate: Fate): Pc {
    if fate.Committed? && CanInitiate(db, a) && NewManifest(db, a, now).items == []
    then At(Job(NewManifest(db, a, now), 0, 0, [], 0), Finalize)
    else Idle
  }

  function Goto(db: Db, pc: Pc, work: Work): Pc {
    match (pc, work)
    case (Idle, Initiate(a, now, fate)) => AfterInitiate(db, a, now, fate)
    case (Idle, Load(order)) => if Distinct(order) then Tick(ActiveManifests(db, order), 0) else Idle
    case (Tick(q, n), Take(granted, now)) => AfterTake(q, n, granted, now)
    case (At(j, Loop), Scan) => AfterScan(j)
    case (At(j, ReadDeposit), Read(ok)) =>
      if !HasItem(j) then Idle else if !ok then Abandon(j)
      else AfterRead(j, StatusOf(db, Current(j).deposit))
    case (At(j, Recheck), Read(ok)) =>
      if !HasItem(j) then Idle else if !ok then Abandon(j)
      else AfterRecheck(j, StatusOf(db, Current(j).deposit))
    case (At(j, InitRecheck), Read(ok)) =>
      if !HasItem(j) then Idle else if !ok then Abandon(j)
      else AfterInitRecheck(j, StatusOf(db, Current(j).deposit))
    case (At(j, CallPos), Call(circuitOpen)) =>
      if !HasItem(j) then Idle else if circuitOpen then FailItem(j) else At(j, AwaitPos)
    case (At(j, AwaitPos), Receive(reply)) =>
      if !HasItem(j) then Idle
      else (match reply
            case Approved => At(j, if Current(j).action == Capture then CaptureDb(0) else RefundDoneDb(0))
            case Declined => FailItem(j)
            case Threw => At(j, Recheck))
    case (At(j, p), Commit(fate)) => AfterCommit(db, j, p, fate)
    case (_, Drop) => Idle
    case _ => pc
  }

  function Emit(pc: Pc, work: Work): Effect {
    match (pc, work)
    case (Idle, Initiate(a, now, fate)) => if Lands(fate) then Initiates(a, now) else Nop
    case (At(j, CallPos), Call(circuitOpen)) =>
      if HasItem(j) && !circuitOpen then Requests(Current(j)) else Nop
    case (At(j, AwaitPos), Receive(reply)) =>
      if HasItem(j) && reply == Approved then Approves(Current(j)) else Nop
    case (At(j, p), Commit(fate)) => if Lands(fate) then CommitEffect(j, p) else Nop
    case _ => Nop
  }

  // ---- Steps and runs -------------------------------------------------

  function PcOf(s: Sys, w: WorkerId): Pc {
    if w in s.workers then s.workers[w] else Idle
  }

  function EffectOf(s: Sys, e: Event): Effect {
    match e
    case Worker(w, work) => Emit(PcOf(s, w), work)
    case AdminCommit(k, fate) => if k in s.admins && Lands(fate) then Retries(s.admins[k]) else Nop
    case PosActs(key) => Acts(key)
    case Conclude(a, winner, now) => Concludes(a, winner, now)
    case Manual(a, to, now) => Moves(a, to, now)
    case AdminRead(_, _) => Nop
  }

  function Step(s: Sys, e: Event, retryEdge: bool): Sys {
    var world := Perform(s.world, EffectOf(s, e), retryEdge);
    match e
    case Worker(w, work) => Sys(world, s.workers[w := Goto(s.world.db, PcOf(s, w), work)], s.admins)
    case AdminRead(k, a) =>
      if a in s.world.db.manifests
      then Sys(world, s.workers, s.admins[k := s.world.db.manifests[a]])
      else Sys(world, s.workers, s.admins)
    case AdminCommit(k, fate) => Sys(world, s.workers, s.admins - {k})
    case _ => Sys(world, s.workers, s.admins)
  }

  /** A worker's commit touches the tables and the worker alone. */
  lemma CommitStep(s: Sys, w: WorkerId, j: Job, p: Point, fate: Fate, retryEdge: bool)
    requires PcOf(s, w) == At(j, p)
    ensures Goto(s.world.db, At(j, p), Commit(fate)) == AfterCommit(s.world.db, j, p, fate)
    ensures Step(s, Worker(w, Commit(fate)), retryEdge)
         == Sys(World(if Lands(fate) then PerformDb(s.world.db, CommitEffect(j, p), retryEdge) else s.world.db,
                      s.world.pos),
                s.workers[w := AfterCommit(s.world.db, j, p, fate)], s.admins)
  {
  }

  /** A read of the deposit touches nothing. */
  lemma ReadStep(db: Db, j: Job, p: Point, ok: bool)
    requires HasItem(j) && (p == ReadDeposit || p == Recheck || p == InitRecheck)
    ensures Emit(At(j, p), Read(ok)) == Nop
    ensures Goto(db, At(j, p), Read(ok))
         == var found := StatusOf(db, Current(j).deposit);
            if !ok then Abandon(j)
            else if p == ReadDeposit then AfterRead(j, found)
            else if p == Recheck then AfterRecheck(j, found)
            else AfterInitRecheck(j, found)
  {
  }

  /** Calling the POS sends the request unless the circuit is open. */
  lemma CallStep(s: Sys, w: WorkerId, j: Job, circuitOpen: bool, retryEdge: bool)
    requires PcOf(s, w) == At(j, CallPos) && HasItem(j)
    ensures Emit(At(j, CallPos), Call(circuitOpen)) == if circuitOpen then Nop else Requests(Current(j))
    ensures Goto(s.world.db, At(j, CallPos), Call(circuitOpen)) == if circuitOpen then FailItem(j) else At(j, AwaitPos)
    ensures Step(s, Worker(w, Call(circuitOpen)), retryEdge)
         == Sys(World(s.world.db, if circuitOpen then s.world.pos else PerformPos(s.world.pos, Requests(Current(j)))),
                s.workers[w := if circuitOpen then FailItem(j) else At(j, AwaitPos)], s.admins)
  {
  }

  lemma ReceiveStep(s: Sys, w: WorkerId, j: Job, reply: Reply, retryEdge: bool)
    requires PcOf(s, w) == At(j, AwaitPos) && HasItem(j)
    ensures Step(s, Worker(w, Receive(reply)), retryEdge)
         == Sys(World(s.world.db,
                      if reply == Approved then PerformPos(s.world.pos, Approves(Current(j))) else s.world.pos),
                s.workers[w := Goto(s.world.db, At(j, AwaitPos), Receive(reply))], s.admins)
    ensures Goto(s.world.db, At(j, AwaitPos), Receive(reply))
         == match reply
            case Approved => At(j, if Current(j).action == Capture then CaptureDb(0) else RefundDoneDb(0))
            case Declined => FailItem(j)
            case Threw => At(j, Recheck)
  {
  }

  /** Every behaviour of the deployment is a run over some sequence of events. */
  function Run(s: Sys, events: seq<Event>, retryEdge: bool): Sys {
    if events == [] then s
    else Step(Run(s, events[..|events| - 1], retryEdge), events[|events| - 1], retryEdge)
  }

  lemma RunSplit(s: Sys, events: seq<Event>, n: nat, retryEdge: bool)
    requires n < |events|
    ensures Run(s, events[..n + 1], retryEdge) == Step(Run(s, events[..n], retryEdge), events[n], retryEdge)
  {
    assert events[..n + 1][..n] == events[..n];
  }

  lemma TwoEvents(s: Sys, e: Event, f: Event, retryEdge: bool)
    ensures Run(s, [e, f], retryEdge) == Step(Step(s, e, retryEdge), f, retryEdge)
  {
    hide Step;
    var ev := [e, f];
    RunSplit(s, ev, 0, retryEdge);
    RunSplit(s, ev, 1, retryEdge);
    assert ev[..0] == [] && ev[..2] == ev;
  }

  lemma {:induction false} RunConcat(s: Sys, xs: seq<Event>, ys: seq<Event>, retryEdge: bool)
    ensures Run(s, xs + ys, retryEdge) == Run(Run(s, xs, retryEdge), ys, retryEdge)
  {
    hide Step;
    if ys == [] {
      assert xs + ys == xs;
    } else {
      var k := |ys| - 1;
      RunConcat(s, xs, ys[..k], retryEdge);
      assert (xs + ys)[..|xs + ys| - 1] == xs + ys[..k];
    }
  }

  function Start(db: Db): Sys {
    Sys(World(db, Pos([], {}, {})), map[], map[])
  }
}
