/**
 A running deployment: the tables, the gateway and the simulated instances, with the atomic
 operations the service code of one instance performs on them.  Other instances,
 administrators and the bank act between any two operations.  `history` records every event,
 and the deployment is always in the state the machine reaches by it.

 A `calm` deployment is one live instance, `sole`, without infrastructure exceptions: no
 database errors, locks granted, no manifest past its expiry, no admin retry.  The gateway
 may still decline and time out, unless it is `approving`: then it answers and approves every call.
 */
module Deployment {
  import opened Wrappers
  import opened Auctions
  import opened Settlement
  import opened SettlementMachine
  import opened SettlementBooks
  import opened SettlementRuns
  import opened SettlementTheorems
  import opened SettlementLockstep
  import opened Database

  /** Events in a calm deployment that are not the sole worker's. */
  predicate Quiet(e: Event) {
    e.PosActs? || e.AdminRead? || e.Conclude? || (e.Manual? && !InSettlement(e.to))
  }

  /** Manifests are as they were and auctions that were settling still are. */
  ghost predicate SettlementUntouched(x: Db, y: Db) {
    y.manifests == x.manifests && forall a :: AuctionSettling(x, a) ==> AuctionSettling(y, a)
  }

  /** What initiation reads is as it was: deposits, participants, and the rows of ended auctions. */
  ghost predicate InitiationUntouched(x: Db, y: Db) {
    && y.deposits == x.deposits && y.participants == x.participants
    && forall a :: a in x.auctions && x.auctions[a].status == Ended ==>
                     a in y.auctions && y.auctions[a] == x.auctions[a]
  }

  /** Neither settlement nor what initiation reads has been disturbed. */
  ghost predicate Undisturbed(x: Db, y: Db) {
    SettlementUntouched(x, y) && InitiationUntouched(x, y)
  }

  lemma QuietStep(s: Sys, e: Event, retryEdge: bool)
    requires Quiet(e)
    ensures Undisturbed(s.world.db, Step(s, e, retryEdge).world.db)
  {
  }

  datatype GatewayAnswer = CircuitOpen | Answered(reply: Reply)

  /** Where an answer from the gateway leads. */
  function AfterAnswer(j: Job, answer: GatewayAnswer): Pc
    requires HasItem(j)
  {
    match answer
    case CircuitOpen => FailItem(j)
    case Answered(Approved) => At(j, if Current(j).action == Capture then CaptureDb(0) else RefundDoneDb(0))
    case Answered(Declined) => FailItem(j)
    case Answered(Threw) => At(j, Recheck)
  }

  datatype Tx = CaptureRow | RefundInitRow | RefundDoneRow

  function TxPoint(tx: Tx, k: nat): Point {
    match tx
    case CaptureRow => CaptureDb(k)
    case RefundInitRow => RefundInitDb(k)
    case RefundDoneRow => RefundDoneDb(k)
  }

  /** Where one attempt at a transaction leads. */
  function AfterTx(j: Job, tx: Tx, k: nat, fate: Fate, initiated: bool): Pc
    requires HasItem(j)
  {
    if fate.Committed? then AfterReturn(j, tx, initiated)
    else if RetriesAfter(fate, k) then At(j, TxPoint(tx, k + 1))
    else AfterRethrow(j, tx)
  }

  function AfterReturn(j: Job, tx: Tx, initiated: bool): Pc
    requires HasItem(j)
  {
    if tx != RefundInitRow then AckItem(j) else if initiated then SendItem(j) else At(j, InitRecheck)
  }

  function AfterRethrow(j: Job, tx: Tx): Pc {
    if tx != RefundInitRow then At(j, Recheck) else Abandon(j)
  }

  type CleanDb = db: Db | CleanStart(db) witness Db(map[], map[], map[], [], [], map[], map[])

  class Deployment {
    const tables: Database
    const retryEdge: bool
    const calm: bool
    const approving: bool
    const sole: WorkerId
    var pos: Pos
    var workers: map<WorkerId, Pc>
    var admins: map<AdminId, Manifest>
    ghost const init: CleanDb
    ghost var history: seq<Event>

    function State(): Sys
      reads this, tables
    {
      Sys(World(tables.Tables(), pos), workers, admins)
    }

    /** The deployment is where its history leads. */
    ghost predicate Valid()
      reads this, tables
    {
      && State() == After(init, history, retryEdge)
      && (calm ==> OneInstance(history, sole))
    }

    constructor (db: CleanDb, retryEdge: bool, calm: bool, approving: bool, sole: WorkerId)
      ensures Valid() && State() == Start(db) && fresh(tables)
      ensures this.retryEdge == retryEdge && this.calm == calm && this.sole == sole && this.init == db
      ensures this.approving == approving
    {
      tables := new Database(db);
      this.retryEdge, this.calm, this.approving, this.sole, this.init := retryEdge, calm, approving, sole, db;
      pos, workers, admins, history := Pos([], {}, {}), map[], map[], [];
    }

    /** The event just performed becomes part of the history. */
    ghost method Note(s: Sys, e: Event)
      requires s == After(init, history, retryEdge) && State() == Step(s, e, retryEdge)
      requires calm ==> OneInstance(history, sole) && OneInstanceEvent(e, sole)
      modifies this`history
      ensures Valid() && history == old(history) + [e]
    {
      RunAppended(Start(init), history, e);
      assert calm ==> forall i :: 0 <= i < |history| ==> OneInstanceEvent(history[i], sole);
      history := history + [e];
    }

    lemma RunAppended(s: Sys, events: seq<Event>, e: Event)
      ensures Run(s, events + [e], retryEdge) == Step(Run(s, events, retryEdge), e, retryEdge)
    {
      assert (events + [e])[..|events|] == events;
    }

    /** One event by somebody other than worker `w`. */
    method Happens(w: WorkerId, e: Event)
      requires Valid() && (e.Worker? ==> e.w != w) && (calm ==> Quiet(e))
      modifies this, tables
      ensures Valid() && PcOf(State(), w) == old(PcOf(State(), w))
      ensures calm ==> Undisturbed(old(tables.Tables()), tables.Tables())
    {
      hide Goto, EffectOf, Perform, After, OneInstance;
      ghost var s := State();
      var t := Step(State(), e, retryEdge);
      tables.Restore(t.world.db);
      pos, workers, admins := t.world.pos, t.workers, t.admins;
      if calm { QuietStep(s, e, retryEdge); }
      Note(s, e);
    }

    /** Anything the others do while worker `w` waits: any number of events, in any order. */
    method Interleave(w: WorkerId)
      requires Valid()
      modifies this, tables
      ensures Valid() && PcOf(State(), w) == old(PcOf(State(), w))
      ensures calm ==> Undisturbed(old(tables.Tables()), tables.Tables())
    {
      var more: seq<Event> := *;
      for k := 0 to |more|
        invariant Valid() && PcOf(State(), w) == old(PcOf(State(), w))
        invariant calm ==> Undisturbed(old(tables.Tables()), tables.Tables())
      {
        var e := more[k];
        if (e.Worker? ==> e.w != w) && (calm ==> Quiet(e)) { Happens(w, e); }
      }
    }

    /** Worker `w` moves without touching the tables or the gateway. */
    method Move(w: WorkerId, work: Work)
      requires Valid() && (calm ==> w == sole) && Emit(PcOf(State(), w), work) == Nop
      modifies this`workers, this`history
      ensures Valid() && tables.Tables() == old(tables.Tables())
      ensures PcOf(State(), w) == Goto(old(tables.Tables()), old(PcOf(State(), w)), work)
    {
      ghost var s := State();
      workers := workers[w := Goto(tables.Tables(), PcOf(State(), w), work)];
      Note(s, Worker(w, work));
    }

    method ChooseFate() returns (fate: Fate)
      ensures calm ==> fate.Committed?
    {
      fate := *;
      if calm { fate := Committed; }
    }

    // ---- Reads --------------------------------------------------------

    /** What the rows say of the item whose deposit worker `w` is about to read. */
    lemma DepositInPlay(w: WorkerId, j: Job, p: Point)
      requires Valid() && PcOf(State(), w) == At(j, p) && HasItem(j)
      requires p == ReadDeposit || p == Recheck || p == InitRecheck
      ensures Current(j).deposit in tables.deposits
      ensures var st, act := tables.deposits[Current(j).deposit].status, Current(j).action;
              st == Held || Arrived(act, st) || (act == Refund && st == RefundPending)
    {
      hide OneInstance, SysInv, Step;
      RunInv(init, history, retryEdge);
      FoundAtRead(init, State(), w, j, p);
    }

    /** `depositRepo.findOne`, which may throw.  In a calm deployment the deposit is found, held or as far as
        its item's action takes it. */
    method FindOne(w: WorkerId, d: DepositId, ghost j: Job, ghost p: Point)
      returns (ok: bool, found: Option<DepositStatus>)
      requires Valid() && (calm ==> w == sole)
      requires PcOf(State(), w) == At(j, p) && HasItem(j) && d == Current(j).deposit
      requires p == ReadDeposit || p == Recheck || p == InitRecheck
      modifies this, tables
      ensures Valid()
      ensures calm ==> ok && SettlementUntouched(old(tables.Tables()), tables.Tables())
      ensures calm ==> tables.deposits == old(tables.deposits)
      ensures ok ==> found == StatusOf(tables.Tables(), d)
      ensures calm ==> && found.Some?
                       && (found.value == Held || Arrived(Current(j).action, found.value)
                           || (Current(j).action == Refund && found.value == RefundPending))
      ensures PcOf(State(), w)
           == if !ok then Abandon(j)
              else if p == ReadDeposit then AfterRead(j, found)
              else if p == Recheck then AfterRecheck(j, found)
              else AfterInitRecheck(j, found)
    {
      hide Goto, Emit, After, OneInstance, AfterRead, AfterRecheck, AfterInitRecheck;
      Interleave(w);
      ok := *;
      if calm { ok := true; }
      DepositInPlay(w, j, p);
      ReadStep(tables.Tables(), j, p, ok);
      var row := tables.FindDeposit(d);
      found := if row.Some? then Some(row.value.status) else None;
      Move(w, Read(ok));
    }

    // ---- The gateway --------------------------------------------------

    /** `captureDeposit` and `refundDeposit` behind the circuit breaker. */
    method CallGateway(w: WorkerId, it: Item, ghost j: Job) returns (answer: GatewayAnswer)
      requires Valid() && (calm ==> w == sole)
      requires PcOf(State(), w) == At(j, CallPos) && HasItem(j) && it == Current(j)
      modifies this, tables
      ensures Valid()
      ensures calm ==> SettlementUntouched(old(tables.Tables()), tables.Tables())
      ensures approving ==> answer == Answered(Approved)
      ensures PcOf(State(), w) == AfterAnswer(j, answer)
    {
      hide Goto, Emit, Step, After, OneInstance;
      Interleave(w);
      var circuitOpen: bool := *;
      if approving { circuitOpen := false; }
      CallStep(State(), w, j, circuitOpen, retryEdge);
      if circuitOpen {
        Move(w, Call(true));
        answer := CircuitOpen;
      } else {
        Send(w, it, j);
        Interleave(w);
        var reply: Reply := *;
        if approving { reply := Approved; }
        ReplyArrives(w, it, j, reply);
        answer := Answered(reply);
      }
    }

    /** The request leaves. */
    method Send(w: WorkerId, it: Item, ghost j: Job)
      requires Valid() && (calm ==> w == sole)
      requires PcOf(State(), w) == At(j, CallPos) && HasItem(j) && it == Current(j)
      modifies this
      ensures Valid() && tables.Tables() == old(tables.Tables()) && PcOf(State(), w) == At(j, AwaitPos)
    {
      hide Goto, Emit, Step, After, OneInstance;
      ghost var s := State();
      CallStep(s, w, j, false, retryEdge);
      pos := pos.(requests := pos.requests + [PosRequest(it.key, it.amount)]);
      workers := workers[w := At(PcOf(State(), w).job, AwaitPos)];
      Note(s, Worker(w, Call(false)));
    }

    /** The reply arrives, or the call has timed out. */
    method ReplyArrives(w: WorkerId, it: Item, ghost j: Job, reply: Reply)
      requires Valid() && (calm ==> w == sole)
      requires PcOf(State(), w) == At(j, AwaitPos) && HasItem(j) && it == Current(j)
      modifies this
      ensures Valid() && tables.Tables() == old(tables.Tables())
      ensures PcOf(State(), w) == AfterAnswer(j, Answered(reply))
    {
      hide Goto, Emit, Step, After, OneInstance;
      ghost var s := State();
      ReceiveStep(s, w, j, reply, retryEdge);
      if reply == Approved {
        pos := pos.(moved := pos.moved + {it.key}, approved := pos.approved + {it.key});
      }
      workers := workers[w := Goto(tables.Tables(), PcOf(State(), w), Receive(reply))];
      Note(s, Worker(w, Receive(reply)));
    }

    // ---- Transactions -------------------------------------------------

    /** The three transactions, each at one instant. */
    method CommitCapture(w: WorkerId, it: Item, k: nat, fate: Fate, ghost j: Job)
      requires Valid() && (calm ==> w == sole)
      requires PcOf(State(), w) == At(j, CaptureDb(k)) && HasItem(j) && it == Current(j)
      modifies this, tables
      ensures Valid()
      ensures tables.manifests == old(tables.manifests) && tables.auctions == old(tables.auctions)
      ensures PcOf(State(), w) == AfterTx(j, CaptureRow, k, fate, false)
    {
      hide Step, Goto, After, OneInstance;
      ghost var s := State();
      CommitStep(s, w, j, CaptureDb(k), fate, retryEdge);
      var before := tables.Tables();
      tables.RecordCapture(it, fate);
      workers := workers[w := Goto(before, PcOf(State(), w), Commit(fate))];
      Note(s, Worker(w, Commit(fate)));
    }

    lemma FreshKey(w: WorkerId, j: Job, k: nat)
      requires Valid() && PcOf(State(), w) == At(j, RefundInitDb(k)) && HasItem(j)
      ensures !RefundInitRaises(tables.Tables(), Current(j))
    {
      RunInv(init, history, retryEdge);
      NoDuplicateKey(init, State(), w, j, k);
    }

    method CommitRefundInitiation(w: WorkerId, it: Item, k: nat, fate: Fate, ghost j: Job) returns (initiated: bool)
      requires Valid() && (calm ==> w == sole)
      requires PcOf(State(), w) == At(j, RefundInitDb(k)) && HasItem(j) && it == Current(j)
      modifies this, tables
      ensures Valid()
      ensures tables.manifests == old(tables.manifests) && tables.auctions == old(tables.auctions)
      ensures initiated <==> StatusOf(old(tables.Tables()), it.deposit) == Some(Held)
      ensures PcOf(State(), w) == AfterTx(j, RefundInitRow, k, fate, initiated)
    {
      hide Step, Goto, After, OneInstance;
      ghost var s := State();
      CommitStep(s, w, j, RefundInitDb(k), fate, retryEdge);
      var before := tables.Tables();
      FreshKey(w, j, k);
      var raised;
      initiated, raised := tables.RecordRefundInitiation(it, fate);
      workers := workers[w := Goto(before, PcOf(State(), w), Commit(fate))];
      Note(s, Worker(w, Commit(fate)));
    }

    method CommitRefundCompletion(w: WorkerId, it: Item, k: nat, fate: Fate, ghost j: Job)
      requires Valid() && (calm ==> w == sole)
      requires PcOf(State(), w) == At(j, RefundDoneDb(k)) && HasItem(j) && it == Current(j)
      modifies this, tables
      ensures Valid()
      ensures tables.manifests == old(tables.manifests) && tables.auctions == old(tables.auctions)
      ensures PcOf(State(), w) == AfterTx(j, RefundDoneRow, k, fate, false)
    {
      hide Step, Goto, After, OneInstance;
      ghost var s := State();
      CommitStep(s, w, j, RefundDoneDb(k), fate, retryEdge);
      var before := tables.Tables();
      tables.RecordRefundCompletion(it, fate);
      workers := workers[w := Goto(before, PcOf(State(), w), Commit(fate))];
      Note(s, Worker(w, Commit(fate)));
    }

    /** One attempt at one of the three `record…InDb` transactions. */
    method RunTx(w: WorkerId, tx: Tx, it: Item, k: nat, ghost j: Job) returns (fate: Fate, initiated: bool)
      requires Valid() && (calm ==> w == sole)
      requires PcOf(State(), w) == At(j, TxPoint(tx, k)) && HasItem(j) && it == Current(j)
      modifies this, tables
      ensures Valid()
      ensures calm ==> fate.Committed? && SettlementUntouched(old(tables.Tables()), tables.Tables())
      ensures calm && tx == RefundInitRow ==>
                (initiated <==> StatusOf(old(tables.Tables()), it.deposit) == Some(Held))
      ensures PcOf(State(), w) == AfterTx(j, tx, k, fate, initiated)
    {
      Interleave(w);
      fate := ChooseFate();
      initiated := false;
      match tx {
        case CaptureRow => CommitCapture(w, it, k, fate, j);
        case RefundInitRow => initiated := CommitRefundInitiation(w, it, k, fate, j);
        case RefundDoneRow => CommitRefundCompletion(w, it, k, fate, j);
      }
    }

    /** `executeWithRetry` around it: true if an attempt returned, false if the last error was
        rethrown.  Attempts that committed but raised are retried like any other.  `fates` is how the attempts
        ended: at most four, each but the last with an error worth retrying, and the last one returned,
        or was the fourth, or failed with an error not worth retrying. */
    method ExecuteWithRetry(w: WorkerId, tx: Tx, it: Item, ghost j: Job)
      returns (ok: bool, initiated: bool, ghost fates: seq<Fate>)
      requires Valid() && (calm ==> w == sole)
      requires PcOf(State(), w) == At(j, TxPoint(tx, 0)) && HasItem(j) && it == Current(j)
      modifies this, tables
      ensures Valid()
      ensures calm ==> ok && SettlementUntouched(old(tables.Tables()), tables.Tables())
      ensures calm && tx == RefundInitRow ==>
                (initiated <==> StatusOf(old(tables.Tables()), it.deposit) == Some(Held))
      ensures PcOf(State(), w) == if ok then AfterReturn(j, tx, initiated) else AfterRethrow(j, tx)
      ensures Attempts(fates, ok)
    {
      hide After, OneInstance, AfterReturn, AfterRethrow;
      var attempt: nat := 0;
      fates := [];
      while true
        invariant Valid() && attempt <= DB_MAX_RETRIES && PcOf(State(), w) == At(j, TxPoint(tx, attempt))
        invariant calm ==> attempt == 0 && tables.Tables() == old(tables.Tables())
        invariant |fates| == attempt && forall k :: 0 <= k < |fates| ==> !fates[k].Committed? && fates[k].retryable
        decreases DB_MAX_RETRIES - attempt
      {
        var fate, moved := RunTx(w, tx, it, attempt, j);
        fates := fates + [fate];
        if fate.Committed? { return true, moved, fates; }
        if attempt >= DB_MAX_RETRIES || !fate.retryable { return false, false, fates; }
        attempt := attempt + 1;
      }
    }

    // ---- Manifest saves -----------------------------------------------

    /** `manifestRepo.save` after an item, at one instant. */
    method CommitSave(w: WorkerId, m: Manifest, fate: Fate, ghost j: Job)
      requires Valid() && (calm ==> w == sole)
      requires PcOf(State(), w) == At(j, SaveItem) && m == Counted(j.m)
      modifies this, tables
      ensures Valid()
      ensures tables.Tables() == if Lands(fate) then SaveTx(old(tables.Tables()), m) else old(tables.Tables())
      ensures PcOf(State(), w)
           == if fate.Committed? then At(j.(m := m, i := j.i + 1, n := j.n + 1), Loop) else Abandon(j)
    {
      hide Step, Goto, After, OneInstance;
      ghost var s := State();
      CommitStep(s, w, j, SaveItem, fate, retryEdge);
      var before := tables.Tables();
      tables.SaveManifest(m, fate);
      workers := workers[w := Goto(before, PcOf(State(), w), Commit(fate))];
      Note(s, Worker(w, Commit(fate)));
    }

    method SaveCopy(w: WorkerId, m: Manifest, ghost j: Job) returns (ok: bool)
      requires Valid() && (calm ==> w == sole)
      requires PcOf(State(), w) == At(j, SaveItem) && m == Counted(j.m)
      modifies this, tables
      ensures Valid() && (calm ==> ok)
      ensures PcOf(State(), w) == if ok then At(j.(m := m, i := j.i + 1, n := j.n + 1), Loop) else Abandon(j)
      ensures calm ==> SettlementUntouched(SaveTx(old(tables.Tables()), m), tables.Tables())
    {
      ghost var x := tables.Tables();
      Interleave(w);
      ghost var y := tables.Tables();
      var fate := ChooseFate();
      CommitSave(w, m, fate, j);
      if calm { SaveAfterQuiet(x, y, m); }
      ok := fate.Committed?;
    }

    /** `finalizeManifest`, at one instant: complete, escalate or record progress, by the items in
        memory. */
    method CommitFinalize(w: WorkerId, m: Manifest, fate: Fate, ghost j: Job)
      requires Valid() && (calm ==> w == sole)
      requires PcOf(State(), w) == At(j, Finalize) && m == j.m
      modifies this, tables
      ensures Valid()
      ensures tables.Tables() == if Lands(fate) then FinalizeTx(old(tables.Tables()), m) else old(tables.Tables())
      ensures PcOf(State(), w) == if fate.Committed? then Served(j) else Abandon(j)
    {
      hide Step, Goto, After, OneInstance;
      ghost var s := State();
      CommitStep(s, w, j, Finalize, fate, retryEdge);
      var before := tables.Tables();
      tables.FinalizeManifest(m, fate);
      workers := workers[w := Goto(before, PcOf(State(), w), Commit(fate))];
      Note(s, Worker(w, Commit(fate)));
    }

    method FinalizeManifest(w: WorkerId, m: Manifest, ghost j: Job) returns (ok: bool)
      requires Valid() && (calm ==> w == sole)
      requires PcOf(State(), w) == At(j, Finalize) && m == j.m
      modifies this, tables
      ensures Valid() && (calm ==> ok)
      ensures PcOf(State(), w) == if ok then Served(j) else Abandon(j)
      ensures calm && AuctionSettling(old(tables.Tables()), m.auction) ==>
                SettlementUntouched(FinalizeTx(old(tables.Tables()), m), tables.Tables())
      ensures calm ==> InitiationUntouched(old(tables.Tables()), tables.Tables())
    {
      hide FinalizeTx, InitiationUntouched;
      ghost var x := tables.Tables();
      Interleave(w);
      ghost var y := tables.Tables();
      var fate := ChooseFate();
      CommitFinalize(w, m, fate, j);
      if calm && AuctionSettling(x, m.auction) { FinalizeAfterQuiet(x, y, m); }
      if calm { FinalizeLeavesInitiation(x, y, m); }
      ok := fate.Committed?;
    }

    /** `handleManifestExpiry` and `escalateOversizedManifest`, at one instant. */
    method CommitForceClose(w: WorkerId, m: Manifest, p: Point, fate: Fate, ghost j: Job)
      requires Valid() && (calm ==> w == sole)
      requires PcOf(State(), w) == At(j, p) && m == j.m && (p == Expire || p == Oversize)
      modifies this, tables
      ensures Valid()
      ensures tables.Tables()
           == if Lands(fate) then ForceCloseTx(old(tables.Tables()), ClosedCopy(m, p)) else old(tables.Tables())
      ensures PcOf(State(), w) == if fate.Committed? then Served(j) else Abandon(j)
    {
      hide Step, Goto, After, OneInstance, ForceCloseTx, Counted;
      ghost var s := State();
      CommitStep(s, w, j, p, fate, retryEdge);
      var before := tables.Tables();
      tables.ForceClose(ClosedCopy(m, p), fate);
      workers := workers[w := Goto(before, PcOf(State(), w), Commit(fate))];
      Note(s, Worker(w, Commit(fate)));
    }

    method ForceClose(w: WorkerId, m: Manifest, p: Point, ghost j: Job) returns (ok: bool)
      requires Valid() && (calm ==> w == sole)
      requires PcOf(State(), w) == At(j, p) && m == j.m && (p == Expire || p == Oversize)
      modifies this, tables
      ensures Valid() && (calm ==> ok)
      ensures PcOf(State(), w) == if ok then Served(j) else Abandon(j)
      ensures calm ==> OnlyAuction(old(tables.Tables()), tables.Tables(), m.auction)
      ensures calm && AuctionSettling(old(tables.Tables()), m.auction) ==>
                ForceClosed(tables.Tables(), ClosedCopy(m, p))
    {
      hide After, OneInstance, ForceCloseTx, ForceClosed;
      ghost var x := tables.Tables();
      Interleave(w);
      ghost var y := tables.Tables();
      var fate := ChooseFate();
      CommitForceClose(w, m, p, fate, j);
      if calm { ForceAfterQuiet(x, y, ClosedCopy(m, p)); }
      ok := fate.Committed?;
    }

    /** `initiateSettlement`, at one instant. */
    method CommitInitiate(w: WorkerId, a: AuctionId, now: int, fate: Fate) returns (created: Option<Manifest>)
      requires Valid() && (calm ==> w == sole) && PcOf(State(), w) == Idle
      modifies this, tables
      ensures Valid()
      ensures tables.Tables() == if Lands(fate) then InitiateTx(old(tables.Tables()), a, now) else old(tables.Tables())
      ensures created.Some? <==> CanInitiate(old(tables.Tables()), a)
      ensures created.Some? ==> created.value == NewManifest(old(tables.Tables()), a, now)
      ensures PcOf(State(), w) == AfterInitiate(old(tables.Tables()), a, now, fate)
    {
      ghost var s := State();
      var before := tables.Tables();
      created := tables.InitiateSettlement(a, now, fate);
      workers := workers[w := Goto(before, PcOf(State(), w), Initiate(a, now, fate))];
      Note(s, Worker(w, Initiate(a, now, fate)));
    }

    /** The manifest it created and reported, if any.  In a calm deployment an ended auction without a
        manifest gets one, with the items planned for it. */
    method InitiateSettlement(w: WorkerId, a: AuctionId) returns (created: Option<Manifest>)
      requires Valid() && (calm ==> w == sole) && PcOf(State(), w) == Idle
      modifies this, tables
      ensures Valid()
      ensures PcOf(State(), w)
           == if created.Some? && created.value.items == [] then At(Job(created.value, 0, 0, [], 0), Finalize) else Idle
      ensures created.Some? ==> created.value.auction == a
      ensures calm && created.Some? ==> AuctionSettling(tables.Tables(), a) && a !in old(tables.manifests)
      ensures calm ==> OnlyAuction(old(tables.Tables()), tables.Tables(), a)
      ensures calm && a in old(tables.manifests) ==> SettlementUntouched(old(tables.Tables()), tables.Tables())
      ensures calm ==> OthersAwait(old(tables.Tables()), tables.Tables(), a)
      ensures calm && CanInitiate(old(tables.Tables()), a) ==>
                && created.Some? && a in tables.manifests && tables.manifests[a] == created.value
                && created.value.status == Active
                && created.value.items == PlanItems(old(tables.Tables()), a, ParticipantsOf(old(tables.Tables()), a))
    {
      hide After, OneInstance, PlanItems;
      ghost var x := tables.Tables();
      Interleave(w);
      ghost var y := tables.Tables();
      var now: int := *;
      var fate := ChooseFate();
      created := CommitInitiate(w, a, now, fate);
      if !fate.Committed? { created := None; }
      if calm {
        InitiateLeavesOthers(x, y, a, now);
        if CanInitiate(x, a) { SamePlanItems(x, y, a, ParticipantsOf(x, a)); }
      }
    }
  }

  /** Seen from the initiation of auction `a`: the other ended auctions still await theirs. */
  ghost predicate OthersAwait(x: Db, y: Db, a: AuctionId) {
    && y.deposits == x.deposits && y.participants == x.participants
    && (forall b :: b != a && b in x.auctions && x.auctions[b].status == Ended ==>
          b in y.auctions && y.auctions[b] == x.auctions[b])
    && (forall b :: b != a && b !in x.manifests ==> b !in y.manifests)
  }

  lemma InitiateLeavesOthers(x: Db, y: Db, a: AuctionId, now: int)
    requires Undisturbed(x, y)
    ensures OthersAwait(x, InitiateTx(y, a, now), a)
  {
  }

  lemma {:induction false} SamePlanItems(x: Db, y: Db, a: AuctionId, ps: seq<Participant>)
    requires a in x.auctions && a in y.auctions && y.auctions[a] == x.auctions[a] && y.deposits == x.deposits
    ensures PlanItems(y, a, ps) == PlanItems(x, a, ps)
  {
    if ps != [] { SamePlanItems(x, y, a, ps[..|ps| - 1]); }
  }

  lemma FinalizeLeavesInitiation(x: Db, y: Db, m: Manifest)
    requires InitiationUntouched(x, y)
    ensures InitiationUntouched(x, FinalizeTx(y, m))
  {
    hide AckCount, AnyExhausted;
  }

  /** The closed copy is stored and its auction has failed. */
  predicate ForceClosed(db: Db, m: Manifest) {
    && m.auction in db.manifests && db.manifests[m.auction] == m
    && m.auction in db.auctions && db.auctions[m.auction].status == SettlementFailed
  }

  function ClosedCopy(m: Manifest, p: Point): Manifest {
    if p == Expire then ExpiredCopy(m) else OversizedCopy(m)
  }

  /** Other auctions' manifests are as they were, and those that were settling still are. */
  ghost predicate OnlyAuction(x: Db, y: Db, a: AuctionId) {
    && (forall b :: b != a && b in x.manifests ==> b in y.manifests && y.manifests[b] == x.manifests[b])
    && (forall b :: b != a && AuctionSettling(x, b) ==> AuctionSettling(y, b))
  }

  lemma ForceAfterQuiet(x: Db, y: Db, m: Manifest)
    requires SettlementUntouched(x, y)
    ensures OnlyAuction(x, ForceCloseTx(y, m), m.auction)
    ensures AuctionSettling(x, m.auction) ==> ForceClosed(ForceCloseTx(y, m), m)
  {
    forall b | b != m.auction && AuctionSettling(x, b) ensures AuctionSettling(ForceCloseTx(y, m), b) {
      assert AuctionSettling(y, b);
    }
  }

  lemma SaveAfterQuiet(x: Db, y: Db, m: Manifest)
    requires SettlementUntouched(x, y)
    ensures SettlementUntouched(SaveTx(x, m), SaveTx(y, m))
  {
    forall a | AuctionSettling(SaveTx(x, m), a) ensures AuctionSettling(SaveTx(y, m), a) {
      assert AuctionSettling(x, a);
    }
  }

  lemma RowAfterQuiet(x: Db, y: Db, a: AuctionId, to: AuctionStatus)
    requires SettlementUntouched(x, y) && AuctionSettling(x, a) && AuctionSettling(y, a)
    ensures SettlementUntouched(x.(auctions := x.auctions[a := WithStatus(x.auctions[a], to)]),
                                y.(auctions := y.auctions[a := WithStatus(y.auctions[a], to)]))
  {
    var x', y' := x.auctions[a := WithStatus(x.auctions[a], to)], y.auctions[a := WithStatus(y.auctions[a], to)];
    forall b | AuctionSettling(x.(auctions := x'), b) ensures AuctionSettling(y.(auctions := y'), b) {
      if b != a { assert AuctionSettling(x, b); }
    }
  }

  lemma CloseAfterQuiet(x: Db, y: Db, m: Manifest, to: AuctionStatus)
    requires SettlementUntouched(x, y) && AuctionSettling(x, m.auction)
    ensures SettlementUntouched(CloseTx(x, m, to), CloseTx(y, m, to))
  {
    var a := m.auction;
    assert AuctionSettling(y, a);
    RowAfterQuiet(x, y, a, to);
    SaveAfterQuiet(x.(auctions := x.auctions[a := WithStatus(x.auctions[a], to)]),
                   y.(auctions := y.auctions[a := WithStatus(y.auctions[a], to)]), m);
  }

  lemma FinalizeAfterQuiet(x: Db, y: Db, m: Manifest)
    requires SettlementUntouched(x, y) && AuctionSettling(x, m.auction)
    ensures SettlementUntouched(FinalizeTx(x, m), FinalizeTx(y, m))
  {
    var n := AckCount(m.items);
    match Judge(m.items)
    case AllAcknowledged => CloseAfterQuiet(x, y, m.(status := Completed, acked := n), Settled);
    case RetriesExhausted => CloseAfterQuiet(x, y, m.(status := Escalated, acked := n), SettlementFailed);
    case InProgress => SaveAfterQuiet(x, y, m.(acked := n));
  }
}
