/**
 The life of an auction row: with every code path that writes it filtered by the trigger, an
 auction only moves forward, and its outcome never changes once it has ended.
 */
module AuctionLifecycle {
  import opened Wrappers
  import opened Auctions
  import opened Bidding
  import opened BiddingInvariants
  import opened BiddingTheorems

  /** The trigger's table goes forward: every edge but the retry edge raises the rank. */
  lemma TriggerRaisesRank(o: Auction, n: Auction, retryEdge: bool)
    requires TriggerAdmits(o, n, retryEdge) && n.status != o.status
    ensures Rank(n.status) > Rank(o.status) <==> !(o.status == SettlementFailed && n.status == Settling)
  {
  }

  /** The moves an administrator may make by hand. */
  const BY_HAND: set<(AuctionStatus, AuctionStatus)> :=
    {(Draft, Scheduled), (Scheduled, Live), (Live, Ending), (Live, Cancelled), (Ending, Ended), (Ending, Cancelled),
     (Ended, Settling), (Settling, Settled), (Settling, SettlementFailed), (SettlementFailed, Settled)}

  /** What the trigger admits besides: deposits open, and cancelling before that or before the start. */
  const NOT_BY_HAND: set<(AuctionStatus, AuctionStatus)> :=
    {(Draft, Cancelled), (Scheduled, DepositOpen), (Scheduled, Cancelled), (DepositOpen, Live),
     (DepositOpen, Cancelled)}

  /** The two tables side by side: an administrator's move is one the trigger admits, the trigger admits five
      more, and the retry edge as a sixth if it has been given that. */
  lemma TablesCompared(row: Auction, to: AuctionStatus, now: int, retryEdge: bool)
    ensures ManualMove(row.status, to) <==> (row.status, to) in BY_HAND
    ensures to != row.status ==>
              (TriggerAdmits(row, ManualRow(row, to, now), retryEdge)
               <==> || (row.status, to) in BY_HAND + NOT_BY_HAND
                    || (retryEdge && row.status == SettlementFailed && to == Settling))
  {
  }

  predicate Outcome(o: Auction, n: Auction) {
    SameOutcome(o, n) && HasOutcome(n.status)
  }

  /** The statement of one step for one auction. */
  predicate Forward(o: Auction, n: Auction, retryEdge: bool) {
    && (n.status == o.status || Rank(n.status) > Rank(o.status)
        || (retryEdge && o.status == SettlementFailed && n.status == Settling))
    && (HasOutcome(o.status) ==> Outcome(o, n))
  }

  /** Exactly where the trigger protects the outcome: in settling and settlement_failed.  Everywhere else
      it admits some row with another outcome, so in ended and settled it is the code that protects it. */
  lemma TriggerProtectsOutcome(o: Auction, retryEdge: bool)
    ensures (forall n :: TriggerAdmits(o, n, retryEdge) ==> SameOutcome(o, n))
            <==> o.status == Settling || o.status == SettlementFailed
  {
    if o.status != Settling && o.status != SettlementFailed {
      var n := o.(finalPrice := if o.finalPrice.None? then Some(0) else None);
      assert TriggerAdmits(o, n, retryEdge) && !SameOutcome(o, n);
    }
  }

  /** What the code writes to a row whose outcome is known. */
  predicate KeepsEnded(o: Auction, n: Auction) {
    HasOutcome(o.status) ==> SameOutcome(o, n)
  }

  lemma CodeKeepsEnded(s: BidSys, e: BidEvent, cfg: Config)
    requires MemoriesOk(s.db, s)
    ensures match EffectOf(s, e, cfg)
            case NoWrite => true
            case Place(a, row, _) => a in s.db.auctions && s.db.auctions[a].status == row.status == Live
            case Write(a, row) => a in s.db.auctions && KeepsEnded(s.db.auctions[a], row)
  {
    match e
    case Caller(c, Save(fate)) => assert PcOk(s.db, PcOf(s, c));
    case AdminSave(k, _, _, _, _) => if k in s.admins { assert CopyOk(s.db, s.admins[k].auction, s.admins[k].copy); }
    case _ =>
  }

  lemma TriggerKeepsOutcome(o: Auction, n: Auction, retryEdge: bool)
    requires TriggerAdmits(o, n, retryEdge) && KeepsEnded(o, n)
    ensures Forward(o, n, retryEdge)
  {
    if n.status != o.status { TriggerRaisesRank(o, n, retryEdge); }
  }

  lemma StepForward(s: BidSys, e: BidEvent, cfg: Config, a: AuctionId)
    requires MemoriesOk(s.db, s) && BidsOk(s.db.bids) && a in s.db.auctions
    ensures var t := BidStep(s, e, cfg);
            a in t.db.auctions && Forward(s.db.auctions[a], t.db.auctions[a], cfg.retryEdge)
  {
    StepJustified(s, e, cfg);
    StepMemories(s, e, cfg);
    CodeKeepsEnded(s, e, cfg);
    EffectForward(s.db, EffectOf(s, e, cfg), cfg.retryEdge, a);
  }

  lemma EffectForward(db: BidDb, e: BidEffect, retryEdge: bool, a: AuctionId)
    requires a in db.auctions
    requires match e
             case NoWrite => true
             case Place(b, row, _) => b in db.auctions && db.auctions[b].status == row.status == Live
             case Write(b, row) => b in db.auctions && KeepsEnded(db.auctions[b], row)
    ensures var db' := PerformBid(db, e, retryEdge);
            a in db'.auctions && Forward(db.auctions[a], db'.auctions[a], retryEdge)
  {
    if e.Write? && e.a == a && TriggerAdmits(db.auctions[a], e.row, retryEdge) {
      TriggerKeepsOutcome(db.auctions[a], e.row, retryEdge);
    }
  }

  lemma RunForward(init: map<AuctionId, Auction>, events: seq<BidEvent>, e: BidEvent, cfg: Config, a: AuctionId)
    requires Unbid(init) && a in init
    ensures Forward(RowAfter(init, events, cfg, a), RowAfter(init, events + [e], cfg, a), cfg.retryEdge)
  {
    RunKeeps(init, events, cfg);
    assert (events + [e])[..|events|] == events;
    StepForward(AfterBids(init, events, cfg), e, cfg, a);
  }

  /** Once an auction has ended, its final price, winner, winning bid and end time are the same in every
      later state, whoever writes the row and whether or not the retry edge exists. */
  lemma {:induction false} OutcomeFrozen(
    init: map<AuctionId, Auction>, events: seq<BidEvent>, more: seq<BidEvent>, cfg: Config, a: AuctionId)
    requires Unbid(init) && a in init && HasOutcome(RowAfter(init, events, cfg, a).status)
    ensures Outcome(RowAfter(init, events, cfg, a), RowAfter(init, events + more, cfg, a))
  {
    hide AfterBids, DbInv, BidInv;
    if more == [] {
      assert events + more == events;
    } else {
      var k := |more| - 1;
      OutcomeFrozen(init, events, more[..k], cfg, a);
      assert events + more == (events + more[..k]) + [more[k]];
      RunForward(init, events + more[..k], more[k], cfg, a);
    }
  }

  /** How often the status of `a` has changed. */
  function StatusChanges(init: map<AuctionId, Auction>, events: seq<BidEvent>, cfg: Config, a: AuctionId): nat
    requires Unbid(init) && a in init
  {
    if events == [] then 0
    else
      StatusChanges(init, events[..|events| - 1], cfg, a)
      + if RowAfter(init, events, cfg, a).status == RowAfter(init, events[..|events| - 1], cfg, a).status then 0 else 1
  }

  lemma StartRow(init: map<AuctionId, Auction>, cfg: Config, a: AuctionId)
    requires Unbid(init) && a in init
    ensures RowAfter(init, [], cfg, a) == init[a] && Rank(init[a].status) <= 8
  {
  }

  /** With the trigger as shipped, the status of an auction changes at most as often as its rank has
      grown, so at most eight times in any run. */
  lemma {:induction false} OneWay(init: map<AuctionId, Auction>, events: seq<BidEvent>, cfg: Config, a: AuctionId)
    requires Unbid(init) && a in init && !cfg.retryEdge
    ensures StatusChanges(init, events, cfg, a)
         <= Rank(RowAfter(init, events, cfg, a).status) - Rank(init[a].status) <= 8
  {
    hide AfterBids, DbInv, BidInv, SameOutcome;
    StartRow(init, cfg, a);
    if events != [] {
      var k := |events| - 1;
      OneWay(init, events[..k], cfg, a);
      assert events == events[..k] + [events[k]];
      RunForward(init, events[..k], events[k], cfg, a);
    }
  }

  /** Over any stretch of a run the status stays as it is or rises in rank. */
  lemma {:induction false} StaysOrRises(
    init: map<AuctionId, Auction>, events: seq<BidEvent>, more: seq<BidEvent>, cfg: Config, a: AuctionId)
    requires Unbid(init) && a in init && !cfg.retryEdge
    ensures var o, n := RowAfter(init, events, cfg, a), RowAfter(init, events + more, cfg, a);
            n.status == o.status || Rank(n.status) > Rank(o.status)
  {
    hide AfterBids, DbInv, BidInv, SameOutcome, Rank;
    if more == [] {
      assert events + more == events;
    } else {
      var k := |more| - 1;
      StaysOrRises(init, events, more[..k], cfg, a);
      assert events + more == (events + more[..k]) + [more[k]];
      RunForward(init, events + more[..k], more[k], cfg, a);
    }
  }

  /** No status comes back: if it is the same at two moments, it was the same in between. */
  lemma NoStatusComesBack(
    init: map<AuctionId, Auction>, events: seq<BidEvent>, more: seq<BidEvent>, n: nat, cfg: Config, a: AuctionId)
    requires Unbid(init) && a in init && !cfg.retryEdge && n <= |more|
    requires RowAfter(init, events + more, cfg, a).status == RowAfter(init, events, cfg, a).status
    ensures RowAfter(init, events + more[..n], cfg, a).status == RowAfter(init, events, cfg, a).status
  {
    hide AfterBids, DbInv, BidInv;
    StaysOrRises(init, events, more[..n], cfg, a);
    StaysOrRises(init, events + more[..n], more[n..], cfg, a);
    assert events + more[..n] + more[n..] == events + more;
  }

  // ---- With the retry edge --------------------------------------------

  /** An auction that is live and past its end. */
  const OVERDUE := Auction(Live, 10000, 1, None, 0, Some(0), None, None, None, None, None, 1)

  /** It ends without bids, its settlement fails, and then it is retried and fails again, `n` times. */
  function Rounds(n: nat): seq<BidEvent> {
    if n == 0 then
      [ToEnding(0, 0, Committed), ToEnded(0, 0, Committed), SettlementMove(0, Settling),
       SettlementMove(0, SettlementFailed)]
    else Rounds(n - 1) + [SettlementMove(0, Settling)] + [SettlementMove(0, SettlementFailed)]
  }

  /** One more event, and what it does to the status. */
  lemma OneChange(init: map<AuctionId, Auction>, events: seq<BidEvent>, e: BidEvent, cfg: Config, a: AuctionId)
    requires Unbid(init) && a in init
    ensures AfterBids(init, events + [e], cfg) == BidStep(AfterBids(init, events, cfg), e, cfg)
    ensures StatusChanges(init, events + [e], cfg, a)
         == StatusChanges(init, events, cfg, a)
            + if RowAfter(init, events + [e], cfg, a).status == RowAfter(init, events, cfg, a).status then 0 else 1
  {
    AfterOneMore(init, events, e, cfg);
    assert (events + [e])[..|events|] == events;
  }

  lemma StartDb(init: map<AuctionId, Auction>, cfg: Config)
    ensures AfterBids(init, [], cfg).db == BidDb(init, [])
  {
  }

  lemma FirstFailure(cfg: Config)
    ensures Unbid(map[0 := OVERDUE])
    ensures RowAfter(map[0 := OVERDUE], Rounds(0), cfg, 0).status == SettlementFailed
    ensures StatusChanges(map[0 := OVERDUE], Rounds(0), cfg, 0) == 4
  {
    hide AfterBids, BidStep, StatusChanges, BidInv;
    var init := map[0 := OVERDUE];
    var e1 := [ToEnding(0, 0, Committed)];
    var e2 := e1 + [ToEnded(0, 0, Committed)];
    var e3 := e2 + [SettlementMove(0, Settling)];
    assert [] + [ToEnding(0, 0, Committed)] == e1;
    OneChange(init, [], ToEnding(0, 0, Committed), cfg, 0);
    OneChange(init, e1, ToEnded(0, 0, Committed), cfg, 0);
    OneChange(init, e2, SettlementMove(0, Settling), cfg, 0);
    OneChange(init, e3, SettlementMove(0, SettlementFailed), cfg, 0);
    StartDb(init, cfg);
    NoChangesYet(init, cfg, 0);
    EndsWithoutBids(AfterBids(init, [], cfg), AfterBids(init, e1, cfg), AfterBids(init, e2, cfg), cfg);
    Moves(AfterBids(init, e2, cfg), 0, Settling, cfg);
    Moves(AfterBids(init, e3, cfg), 0, SettlementFailed, cfg);
    assert e3 + [SettlementMove(0, SettlementFailed)] == Rounds(0);
  }

  lemma NoChangesYet(init: map<AuctionId, Auction>, cfg: Config, a: AuctionId)
    requires Unbid(init) && a in init
    ensures StatusChanges(init, [], cfg, a) == 0
  {
  }

  lemma EndsWithoutBids(s: BidSys, t: BidSys, u: BidSys, cfg: Config)
    requires s.db == BidDb(map[0 := OVERDUE], [])
    requires t == BidStep(s, ToEnding(0, 0, Committed), cfg) && u == BidStep(t, ToEnded(0, 0, Committed), cfg)
    ensures t.db.auctions.Keys == {0} && t.db.auctions[0].status == Ending
    ensures u.db.auctions.Keys == {0} && u.db.auctions[0].status == Ended
  {
  }

  lemma Moves(s: BidSys, a: AuctionId, to: AuctionStatus, cfg: Config)
    requires a in s.db.auctions && BySettlement(s.db.auctions[a].status, to)
    requires TriggerAdmits(s.db.auctions[a], WithStatus(s.db.auctions[a], to), cfg.retryEdge)
    ensures BidStep(s, SettlementMove(a, to), cfg).db
         == s.db.(auctions := s.db.auctions[a := WithStatus(s.db.auctions[a], to)])
  {
  }

  /** With the retry edge there is no bound: this run is one any number of retries reaches, and its
      status has changed twice for each of them. */
  lemma {:induction false} RetriesAreUnbounded(n: nat, window: int)
    ensures Unbid(map[0 := OVERDUE])
    ensures RowAfter(map[0 := OVERDUE], Rounds(n), Config(window, true), 0).status == SettlementFailed
    ensures StatusChanges(map[0 := OVERDUE], Rounds(n), Config(window, true), 0) == 4 + 2 * n
  {
    hide AfterBids, BidStep, StatusChanges, MemoriesOk, RowOk;
    var init, cfg := map[0 := OVERDUE], Config(window, true);
    if n == 0 {
      FirstFailure(cfg);
    } else {
      RetriesAreUnbounded(n - 1, window);
      var ev := Rounds(n - 1);
      var s := AfterBids(init, ev, cfg);
      RunKeeps(init, ev, cfg);
      RunKeeps(init, ev + [SettlementMove(0, Settling)], cfg);
      OneChange(init, ev, SettlementMove(0, Settling), cfg, 0);
      Moves(s, 0, Settling, cfg);
      OneChange(init, ev + [SettlementMove(0, Settling)], SettlementMove(0, SettlementFailed), cfg, 0);
      Moves(AfterBids(init, ev + [SettlementMove(0, Settling)], cfg), 0, SettlementFailed, cfg);
    }
  }

  /** Without the edge the same retry changes nothing. */
  lemma ShippedRetryStops(s: BidSys, a: AuctionId, window: int)
    requires a in s.db.auctions && s.db.auctions[a].status == SettlementFailed
    ensures BidStep(s, SettlementMove(a, Settling), Config(window, false)).db == s.db
  {
  }
}
