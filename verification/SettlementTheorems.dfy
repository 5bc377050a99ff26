/**
 The money theorems: statements about every state of every run, with any number of workers
 and administrators, crashes, ambiguous commits, late POS effects and stale manifest copies,
 and whether or not the trigger admits the retry edge.
 */
module SettlementTheorems {
  import opened Wrappers
  import opened Auctions
  import opened Settlement
  import opened SettlementMachine
  import opened SettlementBooks
  import opened SettlementRuns

  function After(init: Db, events: seq<Event>, retryEdge: bool): Sys {
    Run(Start(init), events, retryEdge)
  }

  // ---- Exactly-once books ---------------------------------------------

  /** Replays the settlement transitions of `d` from held: each row must start where the last
      one ended and follow the deposit trigger. */
  function Replay(rows: seq<TransitionRow>, d: DepositId): Option<DepositStatus> {
    if rows == [] then Some(Held)
    else
      var r, before := rows[|rows| - 1], Replay(rows[..|rows| - 1], d);
      if r.deposit != d || !IsSettlementEvent(r.event) then before
      else if before == None || r.from != before || !DepositTriggerAdmits(before.value, r.to) then None
      else Some(r.to)
  }

  /** The settlement rows of `d` in the payment ledger, in order. */
  function Postings(rows: seq<LedgerRow>, d: DepositId): seq<LedgerRow> {
    if rows == [] then []
    else
      var r := rows[|rows| - 1];
      Postings(rows[..|rows| - 1], d)
      + if r.deposit == d && IsSettlementEvent(r.event) then [r] else []
  }

  lemma ReplayAppend(rows: seq<TransitionRow>, r: TransitionRow, d: DepositId)
    ensures Replay(rows + [r], d)
         == var before := Replay(rows, d);
            if r.deposit != d || !IsSettlementEvent(r.event) then before
            else if before == None || r.from != before || !DepositTriggerAdmits(before.value, r.to) then None
            else Some(r.to)
  {
    assert (rows + [r])[..|rows|] == rows;
  }

  lemma {:induction false} ReplayOwnRows(rows: seq<TransitionRow>, d: DepositId)
    ensures Replay(rows, d) == Replay(TransitionsOf(rows, d), d)
  {
    if rows != [] {
      var k := |rows| - 1;
      ReplayOwnRows(rows[..k], d);
      if rows[k].deposit == d { ReplayAppend(TransitionsOf(rows[..k], d), rows[k], d); }
      else { assert TransitionsOf(rows[..k], d) + [] == TransitionsOf(rows[..k], d); }
    }
  }

  lemma {:induction false} ReplayQuiet(rows: seq<TransitionRow>, d: DepositId)
    requires forall i :: 0 <= i < |rows| && rows[i].deposit == d ==> !IsSettlementEvent(rows[i].event)
    ensures Replay(rows, d) == Some(Held)
  {
    if rows != [] { ReplayQuiet(rows[..|rows| - 1], d); }
  }

  lemma PostingsAppend(rows: seq<LedgerRow>, r: LedgerRow, d: DepositId)
    ensures Postings(rows + [r], d)
         == Postings(rows, d) + if r.deposit == d && IsSettlementEvent(r.event) then [r] else []
  {
    assert (rows + [r])[..|rows|] == rows;
  }

  lemma {:induction false} PostingsOwnRows(rows: seq<LedgerRow>, d: DepositId)
    ensures Postings(rows, d) == Postings(LedgerOf(rows, d), d)
  {
    if rows != [] {
      var k := |rows| - 1;
      PostingsOwnRows(rows[..k], d);
      if rows[k].deposit == d { PostingsAppend(LedgerOf(rows[..k], d), rows[k], d); }
      else { assert LedgerOf(rows[..k], d) + [] == LedgerOf(rows[..k], d); }
    }
  }

  lemma {:induction false} PostingsQuiet(rows: seq<LedgerRow>, d: DepositId)
    requires forall i :: 0 <= i < |rows| && rows[i].deposit == d ==> !IsSettlementEvent(rows[i].event)
    ensures Postings(rows, d) == []
  {
    if rows != [] { PostingsQuiet(rows[..|rows| - 1], d); }
  }

  lemma ReplaySettlement(rows: seq<TransitionRow>, d: DepositId, st: DepositStatus, k: Key)
    requires Replay(rows, d) == Some(Held)
    requires st == Held || st == Captured || st == RefundPending || st == Refunded
    ensures Replay(rows + SettlementTransitions(d, st, k), d) == Some(st)
  {
    var own := SettlementTransitions(d, st, k);
    if |own| >= 1 { ReplayAppend(rows, own[0], d); }
    if |own| == 2 {
      ReplayAppend(rows + [own[0]], own[1], d);
      assert rows + own == rows + [own[0]] + [own[1]];
    }
    if |own| == 0 { assert rows + own == rows; }
  }

  lemma PostingsSettlement(rows: seq<LedgerRow>, d: DepositId, st: DepositStatus, amount: int, k: Key)
    requires Postings(rows, d) == []
    ensures Postings(rows + SettlementLedger(d, st, amount, k), d) == SettlementLedger(d, st, amount, k)
  {
    var own := SettlementLedger(d, st, amount, k);
    if |own| >= 1 { PostingsAppend(rows, own[0], d); }
    if |own| == 2 {
      PostingsAppend(rows + [own[0]], own[1], d);
      assert rows + own == rows + [own[0]] + [own[1]];
    }
    if |own| == 0 { assert rows + own == rows; }
  }

  /** A deposit held at the start has, in every state of every run, the status its append-only
      transitions replay to; its ledger postings are exactly the ones that status calls for (none
      while held, one capture, one initiation, or one initiation and one refund, each for the full
      amount); and it has a refund row, under its one key and with the matching status, iff it is
      on the refund path. */
  lemma ExactlyOnceBooks(init: Db, events: seq<Event>, retryEdge: bool, d: DepositId)
    requires CleanStart(init) && Tracked(init, d)
    ensures var db := After(init, events, retryEdge).world.db;
            && d in db.deposits
            && db.deposits[d].amount == init.deposits[d].amount
            && var st, k := db.deposits[d].status, KeyFor(db, d);
               && Replay(db.transitions, d) == Some(st)
               && Postings(db.ledger, d) == SettlementLedger(d, st, init.deposits[d].amount, k)
               && (k in db.refunds <==> InRefund(st))
               && (forall key :: key in db.refunds && db.refunds[key].deposit == d ==>
                     key == k && db.refunds[key] == OpenRefund(d, init.deposits[d].amount, st))
  {
    RunInv(init, events, retryEdge);
    var db := After(init, events, retryEdge).world.db;
    assert Books(init, db, d);
    ReplayOwnRows(db.transitions, d);
    ReplayOwnRows(init.transitions, d);
    ReplayQuiet(init.transitions, d);
    ReplaySettlement(TransitionsOf(init.transitions, d), d, db.deposits[d].status, KeyFor(db, d));
    PostingsOwnRows(db.ledger, d);
    PostingsOwnRows(init.ledger, d);
    PostingsQuiet(init.ledger, d);
    PostingsSettlement(LedgerOf(init.ledger, d), d, db.deposits[d].status, db.deposits[d].amount, KeyFor(db, d));
  }

  /** Deposits that were not held at the start are never touched. */
  lemma OthersUntouched(init: Db, events: seq<Event>, retryEdge: bool, d: DepositId)
    requires CleanStart(init) && d in init.deposits && !Tracked(init, d)
    ensures StatusOf(After(init, events, retryEdge).world.db, d) == Some(init.deposits[d].status)
  {
    RunInv(init, events, retryEdge);
  }

  // ---- Truthful acknowledgement and no stuck items --------------------

  predicate InPc(pc: Pc, m: Manifest) {
    match pc
    case Idle => false
    case Tick(q, _) => m in q
    case At(j, _) => m == j.m || m in j.queue
  }

  /** `m` is a copy of a manifest somewhere: stored, or in the memory of a worker or an administrator. */
  ghost predicate SomeCopy(s: Sys, m: Manifest) {
    || (exists a :: a in s.world.db.manifests && s.world.db.manifests[a] == m)
    || (exists w :: w in s.workers && InPc(s.workers[w], m))
    || (exists k :: k in s.admins && s.admins[k] == m)
  }

  lemma CopiesAreCopies(init: Db, s: Sys, m: Manifest)
    requires SysInv(init, s) && SomeCopy(s, m)
    ensures CopyOf(s.world.db, m)
  {
    if a :| a in s.world.db.manifests && s.world.db.manifests[a] == m {
      assert Stored(init, s.world.db, a);
    } else if w :| w in s.workers && InPc(s.workers[w], m) {
      assert PcInv(s.world, s.workers[w]);
    } else {
      var k :| k in s.admins && s.admins[k] == m;
    }
  }

  /** In every state, every copy of a manifest marks a capture acknowledged only if the deposit is
      captured and a refund only if it is refunded. */
  lemma TruthfulEverywhere(init: Db, events: seq<Event>, retryEdge: bool, m: Manifest, i: nat)
    requires CleanStart(init)
    requires SomeCopy(After(init, events, retryEdge), m)
    requires i < |m.items| && m.items[i].status == Acknowledged
    ensures StatusOf(After(init, events, retryEdge).world.db, m.items[i].deposit)
         == Some(if m.items[i].action == Capture then Captured else Refunded)
  {
    RunInv(init, events, retryEdge);
    CopiesAreCopies(init, After(init, events, retryEdge), m);
    assert TruthfulItem(After(init, events, retryEdge).world.db, m.items[i]);
  }

  /** No stored manifest ever holds an item marked `sent`, though workers mark items in place
      before calling the POS and may crash there. */
  lemma NoStuckItems(init: Db, events: seq<Event>, retryEdge: bool, a: AuctionId, i: nat)
    requires CleanStart(init)
    requires a in After(init, events, retryEdge).world.db.manifests
    requires i < |After(init, events, retryEdge).world.db.manifests[a].items|
    ensures After(init, events, retryEdge).world.db.manifests[a].items[i].status != Sent
  {
    RunInv(init, events, retryEdge);
    assert Stored(init, After(init, events, retryEdge).world.db, a);
  }

  // ---- POS discipline -------------------------------------------------

  /** Every request for a deposit carries the same key, so it is never sent both a capture and a
      refund: a capture iff it is the winner's, under its auction and for its amount; and money moves at most
      once per deposit. */
  lemma OneKeyPerDeposit(init: Db, events: seq<Event>, retryEdge: bool)
    requires CleanStart(init)
    ensures var x := After(init, events, retryEdge).world;
            && (forall i, j | 0 <= i < |x.pos.requests| && 0 <= j < |x.pos.requests| ::
                  x.pos.requests[i].key.deposit == x.pos.requests[j].key.deposit ==>
                    x.pos.requests[i] == x.pos.requests[j])
            && (forall i :: 0 <= i < |x.pos.requests| ==>
                  var r := x.pos.requests[i];
                  Tracked(init, r.key.deposit) && r.amount == init.deposits[r.key.deposit].amount
                  && r.key.auction == init.deposits[r.key.deposit].auction
                  && (r.key.action == Capture
                      <==> r.key.auction in x.db.auctions
                           && x.db.auctions[r.key.auction].winnerId == Some(init.deposits[r.key.deposit].user)))
            && (forall k, l :: k in x.pos.moved && l in x.pos.moved && k.deposit == l.deposit ==> k == l)
  {
    RunInv(init, events, retryEdge);
    var x := After(init, events, retryEdge).world;
    forall i | 0 <= i < |x.pos.requests| ensures SoundRequest(init, x.db, x.pos.requests[i]) {}
    forall k, l | k in x.pos.moved && l in x.pos.moved && k.deposit == l.deposit ensures k == l {
      var i :| 0 <= i < |x.pos.requests| && x.pos.requests[i].key == k;
      var j :| 0 <= j < |x.pos.requests| && x.pos.requests[j].key == l;
    }
  }

  /** A deposit recorded captured or refunded had a successful POS reply under its key, the POS
      really moved that money, and it never moves the other way. */
  lemma RecordsMatchThePos(init: Db, events: seq<Event>, retryEdge: bool, d: DepositId)
    requires CleanStart(init) && Tracked(init, d)
    ensures var x := After(init, events, retryEdge).world;
            && d in x.db.deposits
            && var st, k := x.db.deposits[d].status, KeyFor(x.db, d);
               && (st == Captured || st == Refunded ==>
                     && k.action == (if st == Captured then Capture else Refund)
                     && k in x.pos.approved && k in x.pos.moved
                     && forall l :: l in x.pos.moved && l.deposit == d ==> l == k)
  {
    RunInv(init, events, retryEdge);
    OneKeyPerDeposit(init, events, retryEdge);
    assert Books(init, After(init, events, retryEdge).world.db, d);
  }

  /** A refund request is sent only from a state where the refund's initiation is already durable. */
  lemma RefundRequestsFollowCommits(init: Db, events: seq<Event>, e: Event, retryEdge: bool)
    requires CleanStart(init)
    ensures var s, t := After(init, events, retryEdge), After(init, events + [e], retryEdge);
            && s.world.pos.requests <= t.world.pos.requests
            && |t.world.pos.requests| <= |s.world.pos.requests| + 1
            && (|t.world.pos.requests| == |s.world.pos.requests| + 1 ==>
                  var k := t.world.pos.requests[|s.world.pos.requests|].key;
                  && (k.action == Refund ==>
                        && k in s.world.db.refunds
                        && (StatusOf(s.world.db, k.deposit) == Some(RefundPending)
                            || StatusOf(s.world.db, k.deposit) == Some(Refunded)))
                  && (k.action == Capture ==> k !in s.world.db.refunds))
  {
    var s := After(init, events, retryEdge);
    assert (events + [e])[..|events|] == events;
    RunInv(init, events, retryEdge);
    StepJustified(init, s, e, retryEdge);
    RequestsGrow(s, e, retryEdge);
    if EffectOf(s, e).Requests? { RequestJustified(init, s.world, EffectOf(s, e).item); }
  }

  lemma RequestsGrow(s: Sys, e: Event, retryEdge: bool)
    ensures Step(s, e, retryEdge).world.pos.requests
         == s.world.pos.requests
            + if EffectOf(s, e).Requests? then [PosRequest(EffectOf(s, e).item.key, EffectOf(s, e).item.amount)] else []
  {
    hide EffectOf, Goto, PerformDb;
  }

  lemma RequestJustified(init: Db, x: World, it: Item)
    requires WorldInv(init, x) && EffectOk(init, x, Requests(it))
    ensures it.key.action == Refund ==>
              && it.key in x.db.refunds
              && (StatusOf(x.db, it.key.deposit) == Some(RefundPending)
                  || StatusOf(x.db, it.key.deposit) == Some(Refunded))
    ensures it.key.action == Capture ==> it.key !in x.db.refunds
  {
    assert Books(init, x.db, it.deposit);
  }

  // ---- What a read decides --------------------------------------------

  /** The worker's job with its current item as given. */
  predicate SameButItem(j: Job, k: Job, it: Item) {
    && j.i < |j.m.items| && |k.m.items| == |j.m.items| && k.m.items[j.i] == it
    && (forall i :: 0 <= i < |j.m.items| && i != j.i ==> k.m.items[i] == j.m.items[i])
    && k.m.(items := []) == j.m.(items := []) && k.i == j.i && k.n == j.n && k.queue == j.queue && k.served == j.served
  }

  /** The item goes back to the loop to be saved, acknowledged or failed once more. */
  predicate SavesAs(j: Job, pc: Pc, status: ItemStatus, retries: nat) {
    && j.i < |j.m.items| && pc.At? && pc.point == SaveItem
    && SameButItem(j, pc.job, j.m.items[j.i].(status := status, retries := retries))
  }

  /** The POS is called next, with the item marked `sent`. */
  predicate CallsNext(j: Job, pc: Pc) {
    && j.i < |j.m.items| && pc.At? && pc.point == CallPos
    && SameButItem(j, pc.job, j.m.items[j.i].(status := Sent))
  }

  /** The deposit is where the action wanted it. */
  predicate Arrived(act: Action, st: DepositStatus) {
    (act == Capture && st == Captured) || (act == Refund && st == Refunded)
  }

  /** What follows from finding the deposit in status `st`, read at point `p`. */
  predicate Decides(j: Job, p: Point, st: DepositStatus, pc: Pc) {
    j.i < |j.m.items| &&
    var it := j.m.items[j.i];
    if Arrived(it.action, st) then SavesAs(j, pc, Acknowledged, it.retries)
    else match p
      case ReadDeposit =>
        if it.action == Refund && st == Held then pc == At(j, RefundInitDb(0)) else CallsNext(j, pc)
      case InitRecheck => if st == RefundPending then CallsNext(j, pc) else SavesAs(j, pc, Failed, it.retries + 1)
      case _ => SavesAs(j, pc, Failed, it.retries + 1)
  }

  lemma PutDecides(j: Job, it: Item)
    requires HasItem(j)
    ensures SameButItem(j, Put(j, it), it)
  {
  }

  lemma ReadLeads(j: Job, p: Point, st: DepositStatus)
    requires HasItem(j) && (p == ReadDeposit || p == Recheck || p == InitRecheck)
    requires p == InitRecheck ==> Current(j).action == Refund
    requires st == Held || st == Goal(Current(j).action) || (Current(j).action == Refund && st == RefundPending)
    ensures Decides(j, p, st, if p == ReadDeposit then AfterRead(j, Some(st))
                              else if p == Recheck then AfterRecheck(j, Some(st))
                              else AfterInitRecheck(j, Some(st)))
  {
    hide SameButItem, Put;
    var it := Current(j);
    PutDecides(j, it.(status := Acknowledged));
    PutDecides(j, it.(status := Failed, retries := it.retries + 1));
    PutDecides(j, it.(status := Sent));
  }

  /** What a worker knows at a read: the deposit is there, and never beyond what its item wants. */
  lemma FoundAtRead(init: Db, s: Sys, w: WorkerId, j: Job, p: Point)
    requires SysInv(init, s) && PcOf(s, w) == At(j, p) && (p == ReadDeposit || p == Recheck || p == InitRecheck)
    ensures HasItem(j) && (p == InitRecheck ==> Current(j).action == Refund)
    ensures Current(j).deposit in s.world.db.deposits
    ensures var st, act := s.world.db.deposits[Current(j).deposit].status, Current(j).action;
            st == Held || Arrived(act, st) || (act == Refund && st == RefundPending)
  {
    hide WorldInv, CopyOf, QueueOk;
    assert PcInv(s.world, At(j, p));
    CurrentOk(init, s.world, j);
    NoCrossing(init, s.world, Current(j));
  }

  /** In any state of any run, what a read of the deposit leads to, with nothing written and no request sent.
      Found captured for a capture, or refunded for a refund, the item is acknowledged and ready to be saved,
      wherever the worker reads it.  A refund under way goes on to the POS without a second initiation, a
      deposit still held to the POS or to the refund's initiation.  A re-read after an error fails the item
      once more iff its deposit has not arrived. */
  lemma ReadDecides(init: Db, events: seq<Event>, w: WorkerId, retryEdge: bool)
    requires CleanStart(init)
    requires var pc := PcOf(After(init, events, retryEdge), w);
             pc.At? && (pc.point == ReadDeposit || pc.point == Recheck || pc.point == InitRecheck)
    ensures var s, t := After(init, events, retryEdge), After(init, events + [Worker(w, Read(true))], retryEdge);
            var j, p := PcOf(s, w).job, PcOf(s, w).point;
            && t.world == s.world && HasItem(j) && Current(j).deposit in s.world.db.deposits
            && var st, act := s.world.db.deposits[Current(j).deposit].status, Current(j).action;
               && (st == Held || Arrived(act, st) || (act == Refund && st == RefundPending))
               && Decides(j, p, st, PcOf(t, w))
  {
    hide SysInv, Decides, Goto, Emit, CleanStart;
    var s := After(init, events, retryEdge);
    var j, p := PcOf(s, w).job, PcOf(s, w).point;
    RunInv(init, events, retryEdge);
    FoundAtRead(init, s, w, j, p);
    ReadStep(s.world.db, j, p, true);
    ReadLeads(j, p, s.world.db.deposits[Current(j).deposit].status);
    assert (events + [Worker(w, Read(true))])[..|events|] == events;
  }

  // ---- What an answer decides -----------------------------------------

  /** The request is the last one the gateway has seen. */
  predicate JustSent(x: World, y: World, it: Item) {
    y.db == x.db && y.pos == x.pos.(requests := x.pos.requests + [PosRequest(it.key, it.amount)])
  }

  /** In any state of any run, what a call to the POS leads to.  With the circuit open the item has failed once
      more and no request was sent; otherwise exactly its request was.  An approval is recorded, a decline fails
      the item once more, and an error leaves it to a second look at the deposit. */
  lemma AnswerDecides(init: Db, events: seq<Event>, w: WorkerId, work: Work, retryEdge: bool)
    requires CleanStart(init) && (work.Call? || work.Receive?)
    requires var pc := PcOf(After(init, events, retryEdge), w);
             pc.At? && pc.point == if work.Call? then CallPos else AwaitPos
    ensures var s, t := After(init, events, retryEdge), After(init, events + [Worker(w, work)], retryEdge);
            var j, pc := PcOf(s, w).job, PcOf(t, w);
            && HasItem(j) && t.world.db == s.world.db
            && var it := Current(j);
               match work
               case Call(circuitOpen) =>
                 if circuitOpen then t.world == s.world && SavesAs(j, pc, Failed, it.retries + 1)
                 else JustSent(s.world, t.world, it) && pc == At(j, AwaitPos)
               case Receive(reply) =>
                 (match reply
                  case Approved =>
                    pc == At(j, if it.action == Capture then CaptureDb(0) else RefundDoneDb(0))
                    && t.world.pos == s.world.pos.(moved := s.world.pos.moved + {it.key},
                                                   approved := s.world.pos.approved + {it.key})
                  case Declined => t.world == s.world && SavesAs(j, pc, Failed, it.retries + 1)
                  case Threw => t.world == s.world && pc == At(j, Recheck))
               case _ => true
  {
    hide SysInv, Goto, Emit, CleanStart, SavesAs, Step;
    var s := After(init, events, retryEdge);
    RunInv(init, events, retryEdge);
    assert (events + [Worker(w, work)])[..|events|] == events;
    var j := PcOf(s, w).job;
    HasItemInFlight(init, s, w, j, PcOf(s, w).point);
    FailsOnceMore(j);
    match work
    case Call(circuitOpen) => CallStep(s, w, j, circuitOpen, retryEdge);
    case Receive(reply) => ReceiveStep(s, w, j, reply, retryEdge);
    case _ =>
  }

  lemma HasItemInFlight(init: Db, s: Sys, w: WorkerId, j: Job, p: Point)
    requires SysInv(init, s) && PcOf(s, w) == At(j, p) && (p == CallPos || p == AwaitPos)
    ensures HasItem(j)
  {
    hide WorldInv, CopyOf, QueueOk;
    assert PcInv(s.world, At(j, p));
  }

  lemma FailsOnceMore(j: Job)
    requires HasItem(j)
    ensures SavesAs(j, FailItem(j), Failed, Current(j).retries + 1)
  {
  }

  // ---- Giving up on the database --------------------------------------

  /** How the attempts of one call of `executeWithRetry` ended. */
  predicate Attempts(fates: seq<Fate>, ok: bool) {
    && 1 <= |fates| <= 4
    && (forall k :: 0 <= k < |fates| - 1 ==> !fates[k].Committed? && fates[k].retryable)
    && var last := fates[|fates| - 1];
       && (ok <==> last.Committed?)
       && (!ok ==> |fates| == 4 || !last.retryable)
  }

  function CommitsBy(w: WorkerId, fates: seq<Fate>): (events: seq<Event>)
    ensures |events| == |fates| && forall k :: 0 <= k < |fates| ==> events[k] == Worker(w, Commit(fates[k]))
  {
    seq(|fates|, k requires 0 <= k < |fates| => Worker(w, Commit(fates[k])))
  }

  /** While its attempts fail with errors worth retrying, and there were at most three, the worker goes on. */
  lemma {:induction false} StillTrying(
    s: Sys, w: WorkerId, j: Job, capture: bool, fates: seq<Fate>, retryEdge: bool)
    requires HasItem(j) && PcOf(s, w) == At(j, if capture then CaptureDb(0) else RefundDoneDb(0)) && |fates| <= 3
    requires forall k :: 0 <= k < |fates| ==> !fates[k].Committed? && fates[k].retryable
    ensures PcOf(Run(s, CommitsBy(w, fates), retryEdge), w)
         == At(j, if capture then CaptureDb(|fates|) else RefundDoneDb(|fates|))
  {
    hide Step, Goto;
    if fates != [] {
      var n := |fates| - 1;
      StillTrying(s, w, j, capture, fates[..n], retryEdge);
      assert CommitsBy(w, fates)[..n] == CommitsBy(w, fates[..n]);
      CommitStep(Run(s, CommitsBy(w, fates[..n]), retryEdge), w, j,
                 if capture then CaptureDb(n) else RefundDoneDb(n), fates[n], retryEdge);
    }
  }

  /** An approved charge or refund is recorded by the first attempt that returns.  The worker gives up, and reads
      the deposit again, exactly at an error not worth retrying or at the fourth attempt. */
  lemma GivesUpAtTheFourth(
    s: Sys, w: WorkerId, j: Job, capture: bool, fates: seq<Fate>, ok: bool, retryEdge: bool)
    requires HasItem(j) && PcOf(s, w) == At(j, if capture then CaptureDb(0) else RefundDoneDb(0))
    requires Attempts(fates, ok)
    ensures PcOf(Run(s, CommitsBy(w, fates), retryEdge), w)
         == if ok then At(j.(m := j.m.(items := j.m.items[j.i := Current(j).(status := Acknowledged)])), SaveItem)
            else At(j, Recheck)
  {
    hide Step, Goto;
    var n := |fates| - 1;
    StillTrying(s, w, j, capture, fates[..n], retryEdge);
    assert CommitsBy(w, fates)[..n] == CommitsBy(w, fates[..n]);
    CommitStep(Run(s, CommitsBy(w, fates[..n]), retryEdge), w, j,
               if capture then CaptureDb(n) else RefundDoneDb(n), fates[n], retryEdge);
  }

  /** In a state the machine can reach, a refund initiation never meets a duplicate key. */
  lemma NoDuplicateKey(init: Db, s: Sys, w: WorkerId, j: Job, k: nat)
    requires SysInv(init, s) && PcOf(s, w) == At(j, RefundInitDb(k))
    ensures HasItem(j) && !RefundInitRaises(s.world.db, Current(j))
  {
    assert PcInv(s.world, At(j, RefundInitDb(k)));
    CurrentOk(init, s.world, j);
    if StatusOf(s.world.db, Current(j).deposit) == Some(Held) {
      RefundInitBooks(init, s.world.db, Current(j));
    }
  }

  /** In any state of any run, how an attempt at the durable initiation of a refund leads on.  If it returns, the
      deposit was held and is now on its way, and the POS is called next, or somebody was first and the deposit is
      looked at again.  If it fails it is tried again, four times at most and while that is worth it; then the
      worker leaves the manifest as it is stored for the next tick. */
  lemma InitiationDecides(init: Db, events: seq<Event>, w: WorkerId, j: Job, k: nat, fate: Fate, retryEdge: bool)
    requires CleanStart(init) && PcOf(After(init, events, retryEdge), w) == At(j, RefundInitDb(k))
    ensures var s, t := After(init, events, retryEdge), After(init, events + [Worker(w, Commit(fate))], retryEdge);
            var pc := PcOf(t, w);
            && HasItem(j) && t.world.db.manifests == s.world.db.manifests && t.world.pos == s.world.pos
            && if !fate.Committed? then pc == if fate.retryable && k < 3 then At(j, RefundInitDb(k + 1))
                                              else Tick(j.queue, j.served)
               else if StatusOf(s.world.db, Current(j).deposit) == Some(Held) then
                 CallsNext(j, pc) && StatusOf(t.world.db, Current(j).deposit) == Some(RefundPending)
               else pc == At(j, InitRecheck) && t.world == s.world
  {
    hide SysInv, Goto, Emit, CleanStart, SameButItem, Step;
    var s := After(init, events, retryEdge);
    RunInv(init, events, retryEdge);
    assert (events + [Worker(w, Commit(fate))])[..|events|] == events;
    NoDuplicateKey(init, s, w, j, k);
    PutDecides(j, Current(j).(status := Sent));
    CommitStep(s, w, j, RefundInitDb(k), fate, retryEdge);
  }

  // ---- The triggers ---------------------------------------------------

  /** The deposit trigger's table. */
  lemma DepositTable(o: DepositStatus, n: DepositStatus)
    ensures DepositTriggerAdmits(o, n)
            <==> n == o || (o, n) in {(Collected, Held), (Held, Captured), (Held, RefundPending),
                                      (Held, DepositExpired), (RefundPending, Refunded)}
  {
  }

  /** Every row the transactions write is one the triggers let through, so none of them is ever rolled
      back by a trigger; the retry consults the trigger itself. */
  ghost predicate PassesTriggers(db: Db, db': Db, retryEdge: bool) {
    && (forall a :: a in db.auctions && a in db'.auctions ==>
          TriggerAdmits(db.auctions[a], db'.auctions[a], retryEdge))
    && (forall d :: d in db.deposits && d in db'.deposits ==>
          DepositTriggerAdmits(db.deposits[d].status, db'.deposits[d].status))
  }

  lemma SameRowPasses(a: Auction, retryEdge: bool)
    ensures TriggerAdmits(a, a, retryEdge)
  {
  }

  lemma SettlementRowPasses(a: Auction, to: AuctionStatus, retryEdge: bool)
    requires (a.status == Ended && to == Settling)
             || (a.status == Settling && (to == Settled || to == SettlementFailed))
    ensures TriggerAdmits(a, WithStatus(a, to), retryEdge)
  {
  }

  lemma ManualRowPasses(a: Auction, to: AuctionStatus, now: int, retryEdge: bool)
    requires ManualMove(a.status, to)
    ensures TriggerAdmits(a, ManualRow(a, to, now), retryEdge)
  {
  }

  lemma EndedRowPasses(a: Auction, winner: Option<(BidId, UserId, int)>, now: int, retryEdge: bool)
    requires a.status == Ending
    ensures TriggerAdmits(a, EndedRow(a, winner, now), retryEdge)
  {
  }

  lemma ClosePasses(db: Db, m: Manifest, to: AuctionStatus, retryEdge: bool)
    requires to == Settled || to == SettlementFailed
    ensures PassesTriggers(db, CloseTx(db, m, to), retryEdge)
  {
    hide TriggerAdmits, WithStatus;
    forall a: Auction { SameRowPasses(a, retryEdge); }
    if AuctionSettling(db, m.auction) { SettlementRowPasses(db.auctions[m.auction], to, retryEdge); }
  }

  lemma FinalizePasses(db: Db, m: Manifest, retryEdge: bool)
    ensures PassesTriggers(db, FinalizeTx(db, m), retryEdge)
  {
    hide TriggerAdmits, CloseTx;
    forall a: Auction { SameRowPasses(a, retryEdge); }
    var n := AckCount(m.items);
    ClosePasses(db, m.(status := Completed, acked := n), Settled, retryEdge);
    ClosePasses(db, m.(status := Escalated, acked := n), SettlementFailed, retryEdge);
  }

  lemma DepositPasses(db: Db, db': Db, d: DepositId, st: DepositStatus, retryEdge: bool)
    requires d in db.deposits && DepositTriggerAdmits(db.deposits[d].status, st)
    requires db'.auctions == db.auctions && db'.deposits == db.deposits[d := db.deposits[d].(status := st)]
    ensures PassesTriggers(db, db', retryEdge)
  {
    hide TriggerAdmits;
    forall a: Auction { SameRowPasses(a, retryEdge); }
  }

  lemma MoneyPasses(db: Db, it: Item, retryEdge: bool)
    ensures PassesTriggers(db, CaptureTx(db, it), retryEdge)
    ensures PassesTriggers(db, RefundInitTx(db, it), retryEdge)
    ensures PassesTriggers(db, RefundDoneTx(db, it), retryEdge)
  {
    hide PassesTriggers;
    SameTablesPass(db, db, retryEdge);
    var d := it.deposit;
    if StatusOf(db, d) == Some(Held) {
      DepositPasses(db, CaptureTx(db, it), d, Captured, retryEdge);
      if !RefundInitRaises(db, it) { DepositPasses(db, RefundInitTx(db, it), d, RefundPending, retryEdge); }
    } else if StatusOf(db, d) == Some(RefundPending) {
      DepositPasses(db, RefundDoneTx(db, it), d, Refunded, retryEdge);
    }
  }

  lemma RetryPasses(db: Db, m: Manifest, retryEdge: bool)
    ensures PassesTriggers(db, RetryTx(db, m, retryEdge), retryEdge)
  {
    hide TriggerAdmits, WithStatus, ResetItems, AnyFailed;
    forall a: Auction { SameRowPasses(a, retryEdge); }
  }

  lemma RowPasses(db: Db, a: AuctionId, row: Auction, retryEdge: bool)
    requires a in db.auctions && TriggerAdmits(db.auctions[a], row, retryEdge)
    ensures PassesTriggers(db, db.(auctions := db.auctions[a := row]), retryEdge)
  {
    hide TriggerAdmits;
    forall a: Auction { SameRowPasses(a, retryEdge); }
  }

  lemma CommitsPassTheTriggers(db: Db, e: Effect, retryEdge: bool)
    ensures PassesTriggers(db, PerformDb(db, e, retryEdge), retryEdge)
  {
    hide TriggerAdmits, PassesTriggers, FinalizeTx, CloseTx, RetryTx, CaptureTx, RefundInitTx, RefundDoneTx,
         WithStatus, ManualRow, EndedRow, ManualMove, NewManifest;
    SameTablesPass(db, db, retryEdge);
    match e
    case Captures(it) => MoneyPasses(db, it, retryEdge);
    case InitiatesRefund(it) => MoneyPasses(db, it, retryEdge);
    case CompletesRefund(it) => MoneyPasses(db, it, retryEdge);
    case Saves(m) => SameTablesPass(db, SaveTx(db, m), retryEdge);
    case Finalizes(m) => FinalizePasses(db, m, retryEdge);
    case ForceCloses(m) =>
      SameTablesPass(db, SaveTx(db, m), retryEdge);
      ClosePasses(db, m, SettlementFailed, retryEdge);
    case Initiates(a, now) =>
      if CanInitiate(db, a) {
        SettlementRowPasses(db.auctions[a], Settling, retryEdge);
        InitiatePasses(db, a, now, retryEdge);
      }
    case Retries(m) => RetryPasses(db, m, retryEdge);
    case Concludes(a, winner, now) =>
      if a in db.auctions && db.auctions[a].status == Ending {
        EndedRowPasses(db.auctions[a], winner, now, retryEdge);
        RowPasses(db, a, EndedRow(db.auctions[a], winner, now), retryEdge);
      }
    case Moves(a, to, now) =>
      if a in db.auctions && ManualMove(db.auctions[a].status, to) {
        ManualRowPasses(db.auctions[a], to, now, retryEdge);
        RowPasses(db, a, ManualRow(db.auctions[a], to, now), retryEdge);
      }
    case _ =>
  }

  lemma SameTablesPass(db: Db, db': Db, retryEdge: bool)
    requires db'.auctions == db.auctions && db'.deposits == db.deposits
    ensures PassesTriggers(db, db', retryEdge)
  {
    hide TriggerAdmits;
    forall a: Auction { SameRowPasses(a, retryEdge); }
  }

  lemma InitiatePasses(db: Db, a: AuctionId, now: int, retryEdge: bool)
    requires CanInitiate(db, a) && TriggerAdmits(db.auctions[a], WithStatus(db.auctions[a], Settling), retryEdge)
    ensures PassesTriggers(db, InitiateTx(db, a, now), retryEdge)
  {
    hide TriggerAdmits, WithStatus;
    forall a: Auction { SameRowPasses(a, retryEdge); }
  }

  // ---- Retry ----------------------------------------------------------

  /** With the trigger as shipped every admin retry rolls back and changes nothing. */
  lemma ShippedTriggerBlocksRetry(s: Sys, k: AdminId, fate: Fate)
    ensures Step(s, AdminCommit(k, fate), false).world == s.world
  {
  }

  /** With the retry edge, a retry that commits stores the administrator's copy reactivated: what the copy has
      acknowledged stays so, nothing is left failed or out of attempts, and something is reset.  Only an item that
      was out of attempts starts counting them again. */
  lemma RetryReactivates(db: Db, m: Manifest)
    requires CanRetry(db, m, true)
    ensures var db' := RetryTx(db, m, true);
            && db'.auctions[m.auction].status == Settling
            && db'.manifests[m.auction].status == Active
            && var items := db'.manifests[m.auction].items;
               && |items| == |m.items|
               && (forall i :: 0 <= i < |items| ==>
                     && Static(items[i]) == Static(m.items[i])
                     && (items[i].status == Acknowledged <==> m.items[i].status == Acknowledged)
                     && (m.items[i].status == Failed ==> Processable(items[i]) && items[i].retries < 3)
                     && (items[i].retries == if m.items[i].status == Failed && m.items[i].retries >= 3 then 0
                                             else m.items[i].retries)
                     && items[i].status != Failed)
               && exists i :: 0 <= i < |items| && Processable(items[i])
  {
    var i :| 0 <= i < |m.items| && m.items[i].status == Failed;
    var items := ResetItems(m.items);
    assert items[i] == ResetItem(m.items[i]);
    assert RetryTx(db, m, true).manifests[m.auction].items == items;
    assert Processable(items[i]);
  }

  /** `db'` has acknowledged whatever `db` has acknowledged of auction `a`'s manifest. */
  predicate KeepsAcks(db: Db, db': Db, a: AuctionId)
    requires a in db.manifests && a in db'.manifests
    requires |db'.manifests[a].items| == |db.manifests[a].items|
  {
    forall i :: 0 <= i < |db.manifests[a].items| ==>
      (db.manifests[a].items[i].status == Acknowledged ==> db'.manifests[a].items[i].status == Acknowledged)
  }

  /** Administrator `k` neither reads nor commits. */
  predicate Waits(events: seq<Event>, k: AdminId) {
    forall i :: 0 <= i < |events| ==>
      !(events[i].AdminRead? && events[i].k == k) && !(events[i].AdminCommit? && events[i].k == k)
  }

  lemma {:induction false} CopyWaits(s: Sys, events: seq<Event>, retryEdge: bool, k: AdminId)
    requires Waits(events, k) && k in s.admins
    ensures var t := Run(s, events, retryEdge); k in t.admins && t.admins[k] == s.admins[k]
  {
    hide Goto, EffectOf, Perform;
    if events != [] {
      assert forall i :: 0 <= i < |events| - 1 ==> events[..|events| - 1][i] == events[i];
      CopyWaits(s, events[..|events| - 1], retryEdge, k);
    }
  }

  lemma ResetKeepsAcks(items: seq<Item>, i: nat)
    requires i < |items|
    ensures ResetItems(items)[i].status == Acknowledged <==> items[i].status == Acknowledged
  {
    assert ResetItems(items)[i] == ResetItem(items[i]);
  }

  lemma RetryAcks(init: Db, s: Sys, k: AdminId, fate: Fate, retryEdge: bool)
    requires SysInv(init, s) && k in s.admins && Lands(fate) && CanRetry(s.world.db, s.admins[k], retryEdge)
    ensures var a, m, t := s.admins[k].auction, s.admins[k], Step(s, AdminCommit(k, fate), retryEdge);
            && a in s.world.db.manifests && a in t.world.db.manifests
            && |t.world.db.manifests[a].items| == |s.world.db.manifests[a].items| == |m.items|
            && (KeepsAcks(s.world.db, t.world.db, a)
                <==> forall i :: 0 <= i < |m.items| ==>
                       (s.world.db.manifests[a].items[i].status == Acknowledged ==> m.items[i].status == Acknowledged))
  {
    hide CanRetry, WorldInv, PcInv;
    var m, t := s.admins[k], Step(s, AdminCommit(k, fate), retryEdge);
    assert CopyOf(s.world.db, m);
    assert t.world.db.manifests[m.auction].items == ResetItems(m.items);
    forall i | 0 <= i < |m.items|
      ensures t.world.db.manifests[m.auction].items[i].status == Acknowledged <==> m.items[i].status == Acknowledged
    {
      ResetKeepsAcks(m.items, i);
    }
  }

  lemma NoRetry(s: Sys, k: AdminId, fate: Fate, retryEdge: bool)
    requires k in s.admins && (!Lands(fate) || !CanRetry(s.world.db, s.admins[k], retryEdge))
    ensures Step(s, AdminCommit(k, fate), retryEdge).world == s.world
  {
    hide CanRetry;
  }

  lemma SameAcks(db: Db, a: AuctionId)
    requires a in db.manifests
    ensures KeepsAcks(db, db, a)
  {
  }

  lemma SamePlanStored(x: World, y: World, a: AuctionId)
    requires Evolves(x, y) && a in x.db.manifests
    ensures a in y.db.manifests && |y.db.manifests[a].items| == |x.db.manifests[a].items|
  {
  }

  lemma ItsOwnAuction(init: Db, s: Sys, a: AuctionId)
    requires SysInv(init, s) && a in s.world.db.manifests
    ensures s.world.db.manifests[a].auction == a
  {
    assert Stored(init, s.world.db, a);
  }

  /** The administrator holds the row as it was read. */
  lemma AfterReading(
    init: Db, before: seq<Event>, between: seq<Event>, k: AdminId, a: AuctionId, retryEdge: bool)
    requires CleanStart(init) && Waits(between, k)
    requires a in After(init, before, retryEdge).world.db.manifests
    ensures var read := After(init, before, retryEdge).world.db.manifests[a];
            var s := After(init, before + [AdminRead(k, a)] + between, retryEdge);
            && k in s.admins && s.admins[k] == read && read.auction == a
            && a in s.world.db.manifests && |s.world.db.manifests[a].items| == |read.items|
  {
    hide Goto, SysInv, Evolves, CleanStart;
    var s0, reading := After(init, before, retryEdge), [AdminRead(k, a)];
    RunInv(init, before, retryEdge);
    ItsOwnAuction(init, s0, a);
    RunConcat(Start(init), before, reading, retryEdge);
    RunConcat(Start(init), before + reading, between, retryEdge);
    assert reading[..0] == [];
    var s1 := Run(s0, reading, retryEdge);
    assert s1 == Step(s0, AdminRead(k, a), retryEdge);
    CopyWaits(s1, between, retryEdge, k);
    RunInv(init, before + reading, retryEdge);
    RunEvolves(init, s1, between, retryEdge);
    SamePlanStored(s1.world, Run(s1, between, retryEdge).world, a);
  }

  /** The manifest an administrator has read is not locked until the commit, which writes it back whole.  In
      any run, what is stored as acknowledged before the commit is so after it iff the commit has no
      effect or each such item was acknowledged already in the row that was read; so nothing is lost if the
      row has not changed since. */
  lemma RetryKeepsAcks(
    init: Db, before: seq<Event>, between: seq<Event>, k: AdminId, a: AuctionId, fate: Fate, retryEdge: bool)
    requires CleanStart(init) && Waits(between, k)
    requires a in After(init, before, retryEdge).world.db.manifests
    ensures var read := After(init, before, retryEdge).world.db.manifests[a];
            var x := After(init, before + [AdminRead(k, a)] + between, retryEdge).world.db;
            var y := After(init, before + [AdminRead(k, a)] + between + [AdminCommit(k, fate)], retryEdge).world.db;
            && a in x.manifests && a in y.manifests
            && |y.manifests[a].items| == |x.manifests[a].items| == |read.items|
            && (KeepsAcks(x, y, a)
                <==> || !Lands(fate) || !CanRetry(x, read, retryEdge)
                     || forall i :: 0 <= i < |read.items| ==>
                          (x.manifests[a].items[i].status == Acknowledged ==> read.items[i].status == Acknowledged))
            && (x.manifests[a] == read ==> KeepsAcks(x, y, a))
  {
    hide CanRetry, KeepsAcks, Goto, SysInv;
    var s0, upto := After(init, before, retryEdge), before + [AdminRead(k, a)] + between;
    var s, t := After(init, upto, retryEdge), After(init, upto + [AdminCommit(k, fate)], retryEdge);
    AfterReading(init, before, between, k, a, retryEdge);
    assert (upto + [AdminCommit(k, fate)])[..|upto|] == upto;
    RunInv(init, upto, retryEdge);
    if Lands(fate) && CanRetry(s.world.db, s.admins[k], retryEdge) {
      RetryAcks(init, s, k, fate, retryEdge);
    } else {
      NoRetry(s, k, fate, retryEdge);
      SameAcks(s.world.db, a);
    }
  }

  /** Exactly when a retry goes through: the copy is escalated and has a failed item, its auction has failed, and
      the trigger has been given the edge back to settling; none of these helps without the others. */
  lemma RetryNeedsTheEdge(db: Db, m: Manifest, retryEdge: bool)
    ensures RetryTx(db, m, retryEdge) != db
            <==> && m.status == Escalated && (exists i :: 0 <= i < |m.items| && m.items[i].status == Failed)
                 && m.auction in db.auctions && db.auctions[m.auction].status == SettlementFailed && retryEdge
  {
    if CanRetry(db, m, retryEdge) {
      assert RetryTx(db, m, retryEdge).auctions[m.auction].status == Settling;
    }
  }
}
