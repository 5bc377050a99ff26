/**
 Which held deposits settlement plans, those with an eligible participant, and which it passes over.
 */
module Bystanders {
  import opened Wrappers
  import opened Auctions
  import opened Settlement
  import opened SettlementMachine
  import opened SettlementBooks
  import opened SettlementRuns
  import opened SettlementTheorems
  import opened SettlementOutcome

  predicate Enrolled(db: Db, a: AuctionId, d: DepositId) {
    var ps := ParticipantsOf(db, a);
    exists i :: 0 <= i < |ps| && ps[i].eligible && ps[i].deposit == d
  }

  lemma FinalizeCreatesNone(db: Db, m: Manifest, a: AuctionId)
    requires m.auction in db.manifests && a in FinalizeTx(db, m).manifests
    ensures a in db.manifests
  {
    hide AckCount, AnyExhausted;
  }

  lemma OnlyInitiateCreates(init: Db, x: World, e: Effect, retryEdge: bool, a: AuctionId)
    requires EffectOk(init, x, e) && a !in x.db.manifests
    ensures a in PerformDb(x.db, e, retryEdge).manifests ==>
              e.Initiates? && e.a == a && CanInitiate(x.db, a)
  {
    hide FinalizeTx, CanRetry, ManualMove, NewManifest, ResetItems, Truthful, SamePlan, ItemOk;
    if e.Finalizes? && a in FinalizeTx(x.db, e.m).manifests { FinalizeCreatesNone(x.db, e.m, a); }
  }

  lemma SamePlanMentions(xs: seq<Item>, ys: seq<Item>, d: DepositId)
    requires SamePlan(xs, ys) && Mentions(xs, d)
    ensures Mentions(ys, d)
  {
    var i :| 0 <= i < |xs| && xs[i].deposit == d;
    assert Static(xs[i]) == Static(ys[i]);
    assert ys[i].deposit == Static(ys[i]).deposit;
  }

  // ---- Enrolled deposits are planned ----------------------------------

  /** Held at the start, with an eligible participant of its auction. */
  ghost predicate Entrant(init: Db, d: DepositId) {
    Tracked(init, d) && Enrolled(init, init.deposits[d].auction, d)
  }

  /** Its auction's manifest, once there is one, has an item for `d`. */
  ghost predicate InPlan(db: Db, a: AuctionId, d: DepositId) {
    a in db.manifests ==> Mentions(db.manifests[a].items, d)
  }

  lemma InPlanStable(x: World, y: World, a: AuctionId, d: DepositId)
    requires Evolves(x, y) && a in x.db.manifests && InPlan(x.db, a, d)
    ensures InPlan(y.db, a, d)
  {
    hide Mentions, SamePlan;
    SamePlanMentions(x.db.manifests[a].items, y.db.manifests[a].items, d);
  }

  /** Initiation finds an entrant's deposit still held, and plans it. */
  lemma InitiatePlans(init: Db, x: World, now: int, d: DepositId)
    requires WorldInv(init, x) && Entrant(init, d) && CanInitiate(x.db, init.deposits[d].auction)
    ensures InPlan(InitiateTx(x.db, init.deposits[d].auction, now), init.deposits[d].auction, d)
  {
    hide Stored, GatewaySound, PlanItems;
    var a := init.deposits[d].auction;
    var ps := ParticipantsOf(x.db, a);
    PlanItemsSound(init, x.db, a, ps);
    assert Books(init, x.db, d);
    var i :| 0 <= i < |ps| && ps[i].eligible && ps[i].deposit == d;
    assert Qualifies(x.db, ps[i]);
  }

  lemma StillPlanned(init: Db, x: World, e: Effect, retryEdge: bool, d: DepositId)
    requires WorldInv(init, x) && EffectOk(init, x, e) && Entrant(init, d)
    requires InPlan(x.db, init.deposits[d].auction, d)
    ensures InPlan(PerformDb(x.db, e, retryEdge), init.deposits[d].auction, d)
  {
    hide Evolves, EffectOk, Books, GatewaySound, DepositsKept, Plan, CopyOf, NoSent, Enrolled, Mentions, CleanStart;
    var y, a := Perform(x, e, retryEdge), init.deposits[d].auction;
    PerformKeeps(init, x, e, retryEdge);
    if a in x.db.manifests {
      InPlanStable(x, y, a, d);
    } else if a in y.db.manifests {
      OnlyInitiateCreates(init, x, e, retryEdge, a);
      InitiatePlans(init, x, e.now, d);
    }
  }

  /** In every state, the manifest of a held deposit with an eligible participant has an item for it. */
  lemma {:induction false} EnrolledIsPlanned(init: Db, events: seq<Event>, retryEdge: bool, d: DepositId)
    requires CleanStart(init) && Entrant(init, d)
    ensures InPlan(After(init, events, retryEdge).world.db, init.deposits[d].auction, d)
  {
    hide EffectOk, WorldInv, PcInv, CleanCopy, EffectOf, Entrant, InPlan;
    if events == [] {
      NothingStored(init, d);
    } else {
      var s, e := After(init, events[..|events| - 1], retryEdge), events[|events| - 1];
      EnrolledIsPlanned(init, events[..|events| - 1], retryEdge, d);
      RunInv(init, events[..|events| - 1], retryEdge);
      StepJustified(init, s, e, retryEdge);
      StillPlanned(init, s.world, EffectOf(s, e), retryEdge, d);
    }
  }

  lemma NothingStored(init: Db, d: DepositId)
    requires CleanStart(init) && Entrant(init, d)
    ensures InPlan(init, init.deposits[d].auction, d)
  {
  }

  // ---- The others are passed over -------------------------------------

  /** Held at the start, and no eligible participant of its auction has it. */
  ghost predicate Bystander(init: Db, d: DepositId) {
    Tracked(init, d) && !Enrolled(init, init.deposits[d].auction, d)
  }

  /** No manifest has an item for `d`. */
  ghost predicate Unplanned(db: Db, d: DepositId) {
    forall a :: a in db.manifests ==> !Mentions(db.manifests[a].items, d)
  }

  lemma SamePlanFlips(xs: seq<Item>, ys: seq<Item>)
    requires SamePlan(xs, ys)
    ensures SamePlan(ys, xs)
  {
  }

  /** Initiation passes a bystander over. */
  lemma InitiatePassesOver(init: Db, x: World, a: AuctionId, now: int, d: DepositId)
    requires WorldInv(init, x) && Bystander(init, d) && CanInitiate(x.db, a)
    ensures !Mentions(NewManifest(x.db, a, now).items, d)
  {
    hide Books, Stored, GatewaySound, PlanItems;
    var ps := ParticipantsOf(x.db, a);
    PlanItemsSound(init, x.db, a, ps);
    var items := PlanItems(x.db, a, ps);
    forall j | 0 <= j < |items| ensures items[j].deposit != d {
      assert Planned(init, x.db, a, items[j]) && Behind(x.db, ps, items[j].deposit);
      BehindEnrolled(init, x.db, a, items[j].deposit);
    }
  }

  lemma BehindEnrolled(init: Db, db: Db, a: AuctionId, d: DepositId)
    requires db.participants == init.participants && Behind(db, ParticipantsOf(db, a), d)
    ensures Enrolled(init, a, d)
  {
    var ps := ParticipantsOf(init, a);
    var i :| 0 <= i < |ps| && Qualifies(db, ps[i]) && ps[i].deposit == d;
    assert ps[i].eligible && ps[i].deposit == d;
  }

  lemma StillUnplanned(init: Db, x: World, e: Effect, retryEdge: bool, d: DepositId)
    requires WorldInv(init, x) && EffectOk(init, x, e) && Bystander(init, d) && Unplanned(x.db, d)
    ensures Unplanned(PerformDb(x.db, e, retryEdge), d)
  {
    hide Books, GatewaySound, DepositsKept, Plan, CopyOf, NoSent, SamePlan, Mentions, Bystander;
    var y := Perform(x, e, retryEdge);
    PerformKeeps(init, x, e, retryEdge);
    forall a | a in y.db.manifests ensures !Mentions(y.db.manifests[a].items, d) {
      if a in x.db.manifests {
        if Mentions(y.db.manifests[a].items, d) {
          SamePlanFlips(x.db.manifests[a].items, y.db.manifests[a].items);
          SamePlanMentions(y.db.manifests[a].items, x.db.manifests[a].items, d);
        }
      } else {
        OnlyInitiateCreates(init, x, e, retryEdge, a);
        InitiatePassesOver(init, x, a, e.now, d);
      }
    }
  }

  /** The item whose deposit an effect moves or requests money for, if any. */
  function MoneyItem(e: Effect): Option<Item> {
    match e
    case Captures(it) => Some(it)
    case InitiatesRefund(it) => Some(it)
    case CompletesRefund(it) => Some(it)
    case Requests(it) => Some(it)
    case _ => None
  }

  /** Workers only handle items of stored plans. */
  lemma EmitsPlanned(x: World, pc: Pc, work: Work, d: DepositId)
    requires PcInv(x, pc) && Unplanned(x.db, d)
    ensures MoneyItem(Emit(pc, work)).Some? ==> MoneyItem(Emit(pc, work)).value.deposit != d
  {
    hide PointInv, QueueOk, Mentions, Truthful, SamePlan;
    if MoneyItem(Emit(pc, work)).Some? {
      var j := pc.job;
      assert HasItem(j) && MoneyItem(Emit(pc, work)) == Some(Current(j));
      if Current(j).deposit == d {
        ItsOwnMention(j.m.items, j.i);
        SamePlanMentions(j.m.items, x.db.manifests[j.m.auction].items, d);
      }
    }
  }

  lemma ItsOwnMention(items: seq<Item>, i: nat)
    requires i < |items|
    ensures Mentions(items, items[i].deposit)
  {
  }

  /** `d` is held and was never the subject of a request. */
  ghost predicate LeftAlone(x: World, d: DepositId) {
    && StatusOf(x.db, d) == Some(Held)
    && forall i :: 0 <= i < |x.pos.requests| ==> x.pos.requests[i].key.deposit != d
  }

  lemma StillLeftAlone(init: Db, x: World, e: Effect, retryEdge: bool, d: DepositId)
    requires LeftAlone(x, d) && EffectOk(init, x, e)
    requires MoneyItem(e).Some? ==> MoneyItem(e).value.deposit != d
    ensures LeftAlone(Perform(x, e, retryEdge), d)
  {
    hide CopyOf, NoSent, FinalizeTx, ForceCloseTx, RetryTx, ConcludeTx, ManualTx, InitiateTx, Tracked;
    if e.Finalizes? { FinalizeMoney(x.db, e.m); }
    else if MoneyItem(e).None? { OtherMoney(x.db, e, retryEdge); }
  }

  lemma FinalizeMoney(db: Db, m: Manifest)
    ensures FinalizeTx(db, m).deposits == db.deposits
  {
    hide AckCount, AnyExhausted;
  }

  lemma OtherMoney(db: Db, e: Effect, retryEdge: bool)
    requires !e.Finalizes? && MoneyItem(e).None?
    ensures PerformDb(db, e, retryEdge).deposits == db.deposits
  {
    hide CanRetry, ManualMove, PlanItems, ResetItems;
  }

  lemma StepLeavesAlone(init: Db, s: Sys, e: Event, retryEdge: bool, d: DepositId)
    requires SysInv(init, s) && Bystander(init, d) && Unplanned(s.world.db, d) && LeftAlone(s.world, d)
    ensures Unplanned(Step(s, e, retryEdge).world.db, d) && LeftAlone(Step(s, e, retryEdge).world, d)
  {
    hide WorldInv, EffectOk, Emit, Goto, Unplanned, LeftAlone, Bystander, PerformDb, PerformPos;
    StepJustified(init, s, e, retryEdge);
    if e.Worker? {
      IdleOk(s.world);
      EmitsPlanned(s.world, PcOf(s, e.w), e.work, d);
    }
    StillUnplanned(init, s.world, EffectOf(s, e), retryEdge, d);
    StillLeftAlone(init, s.world, EffectOf(s, e), retryEdge, d);
  }

  /** A held deposit without an eligible participant stays held for ever: no run ever plans an item for
      it, sends a request for it or moves its money. */
  lemma {:induction false} BystandersAreLeftAlone(init: Db, events: seq<Event>, retryEdge: bool, d: DepositId)
    requires CleanStart(init) && Bystander(init, d)
    ensures var x := After(init, events, retryEdge).world;
            && Unplanned(x.db, d) && LeftAlone(x, d)
            && forall k :: k in x.pos.moved ==> k.deposit != d
  {
    hide Bystander, Step;
    RunInv(init, events, retryEdge);
    if events == [] {
      StartsLeftAlone(init, d);
    } else {
      var k := |events| - 1;
      BystandersAreLeftAlone(init, events[..k], retryEdge, d);
      RunInv(init, events[..k], retryEdge);
      StepLeavesAlone(init, After(init, events[..k], retryEdge), events[k], retryEdge, d);
    }
    NothingMoved(init, After(init, events, retryEdge).world, d);
  }

  lemma StartsLeftAlone(init: Db, d: DepositId)
    requires CleanStart(init) && Bystander(init, d)
    ensures Unplanned(init, d) && LeftAlone(Start(init).world, d)
  {
  }

  lemma NothingMoved(init: Db, x: World, d: DepositId)
    requires WorldInv(init, x) && LeftAlone(x, d)
    ensures forall k :: k in x.pos.moved ==> k.deposit != d
  {
    forall k | k in x.pos.moved ensures k.deposit != d { assert WasRequested(x.pos, k); }
  }
}
