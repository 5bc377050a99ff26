/**
 Who wins: the last committed bid, unless an administrator ends that auction by hand.
 */
module Winner {
  import opened Wrappers
  import opened Auctions
  import opened Bidding
  import opened BiddingInvariants
  import opened BiddingTheorems
  import opened AuctionLifecycle

  predicate AsksToEnd(e: BidEvent) {
    e.AdminSave? && e.to == Ended
  }

  /** In this run an administrator's save is what took auction `a` from ENDING to ENDED.  Attempts that
      were rejected, and saves of other auctions, do not count. */
  predicate EndedByHand(init: map<AuctionId, Auction>, events: seq<BidEvent>, cfg: Config, a: AuctionId)
    requires Unbid(init) && a in init
  {
    events != [] &&
    var k := |events| - 1;
    || EndedByHand(init, events[..k], cfg, a)
    || (AsksToEnd(events[k])
        && RowAfter(init, events[..k], cfg, a).status == Ending && RowAfter(init, events, cfg, a).status == Ended)
  }

  lemma WorkerRow(row0: Auction, o: Auction, bs: seq<Bid>, window: int, now: int)
    requires RowOk(row0, o, bs, window) && row0.minimumIncrement > 0 && o.status == Ending
    ensures Decided(EndedRow(o, WinnerOf(bs), now), bs)
  {
    if bs != [] { LastIsBest(row0.startingPrice, row0.minimumIncrement, bs); }
  }

  /** A save by an administrator ends an auction with nothing decided. */
  lemma HandDecidesNothing(
    db: BidDb, x: AdminCopy, version: nat, to: AuctionStatus, now: int, retryEdge: bool, a: AuctionId)
    requires CopyOk(db, x.auction, x.copy)
    requires a in db.auctions && !HasOutcome(db.auctions[a].status) && Undecided(db.auctions[a])
    ensures var db' := PerformBid(db, AdminEffect(db, x, version, to, now), retryEdge);
            && a in db'.auctions
            && (HasOutcome(db'.auctions[a].status) ==>
                  to == Ended && db.auctions[a].status == Ending && db'.auctions[a].status == Ended
                  && Undecided(db'.auctions[a]))
  {
    hide TriggerAdmits;
  }

  /** The step that ends auction `a`, by whoever takes it. */
  lemma EndingStep(init: map<AuctionId, Auction>, s: BidSys, e: BidEvent, cfg: Config, a: AuctionId)
    requires Unbid(init) && BidInv(init, s, cfg) && a in init
    requires !HasOutcome(s.db.auctions[a].status)
    requires a in BidStep(s, e, cfg).db.auctions && HasOutcome(BidStep(s, e, cfg).db.auctions[a].status)
    ensures var n := BidStep(s, e, cfg).db.auctions[a];
            && s.db.auctions[a].status == Ending && n.status == Ended
            && if AsksToEnd(e) then Undecided(n) else Decided(n, BidsOf(BidStep(s, e, cfg).db.bids, a))
  {
    hide BidsOf, WinnerOf, RowOk, PcOk, Backed, BidsOk, AdminEffect, EffectiveEnd, Decided, TriggerAdmits;
    StepJustified(s, e, cfg);
    StepMemories(s, e, cfg);
    var o := s.db.auctions[a];
    assert RowOk(init[a], o, BidsOf(s.db.bids, a), cfg.window);
    StillOpen(init[a], o, BidsOf(s.db.bids, a), cfg.window);
    match e
    case ToEnded(b, now, fate) => WorkerDecides(init, s.db, a, now, cfg);
    case AdminSave(k, version, to, now, fate) =>
      if k in s.admins { HandDecidesNothing(s.db, s.admins[k], version, to, now, cfg.retryEdge, a); }
    case Caller(c, work) => SaveLeavesOpen(s.db, PcOf(s, c), work, cfg, a);
    case _ =>
  }

  lemma StillOpen(row0: Auction, o: Auction, bs: seq<Bid>, window: int)
    requires RowOk(row0, o, bs, window) && !HasOutcome(o.status)
    ensures Undecided(o)
  {
  }

  lemma WorkerDecides(init: map<AuctionId, Auction>, db: BidDb, a: AuctionId, now: int, cfg: Config)
    requires Unbid(init) && a in init && a in db.auctions
    requires RowOk(init[a], db.auctions[a], BidsOf(db.bids, a), cfg.window)
    ensures db.auctions[a].status == Ending ==>
              Decided(EndedRow(db.auctions[a], WinnerOf(BidsOf(db.bids, a)), now), BidsOf(db.bids, a))
  {
    if db.auctions[a].status == Ending {
      WorkerRow(init[a], db.auctions[a], BidsOf(db.bids, a), cfg.window, now);
    }
  }

  /** A bid never ends an auction. */
  lemma SaveLeavesOpen(db: BidDb, pc: BidPc, work: BidWork, cfg: Config, a: AuctionId)
    requires PcOk(db, pc) && a in db.auctions && !HasOutcome(db.auctions[a].status)
    ensures work.Save? ==>
              var db' := PerformBid(db, SaveEffect(db, pc, work.fate, cfg.window), cfg.retryEdge);
              a in db'.auctions && !HasOutcome(db'.auctions[a].status)
  {
  }

  /** What the outcome columns hold, in every state: nothing before the end; then the last bid, or
      nothing if the auction was ended by hand. */
  lemma {:induction false} OutcomeByHistory(
    init: map<AuctionId, Auction>, events: seq<BidEvent>, cfg: Config, a: AuctionId)
    requires Unbid(init) && a in init
    ensures var row, bs := RowAfter(init, events, cfg, a), BidsAfter(init, events, cfg, a);
            if !HasOutcome(row.status) then Undecided(row) && !EndedByHand(init, events, cfg, a)
            else if EndedByHand(init, events, cfg, a) then Undecided(row)
            else Decided(row, bs)
  {
    hide DbInv, MemoriesOk, BidsOf, BidStep, AfterBids;
    if events == [] {
      StartsUndecided(init, cfg, a);
    } else {
      var k := |events| - 1;
      OutcomeByHistory(init, events[..k], cfg, a);
      assert events == events[..k] + [events[k]];
      if HasOutcome(RowAfter(init, events[..k], cfg, a).status) {
        StepAfterEnd(init, events[..k], events[k], cfg, a);
      } else if HasOutcome(RowAfter(init, events, cfg, a).status) {
        StepEnds(init, events[..k], events[k], cfg, a);
      } else {
        OpenUndecided(init, events, cfg, a);
      }
    }
  }

  lemma StartsUndecided(init: map<AuctionId, Auction>, cfg: Config, a: AuctionId)
    requires Unbid(init) && a in init
    ensures RowAfter(init, [], cfg, a) == init[a] && Undecided(init[a]) && !HasOutcome(init[a].status)
  {
  }

  /** Before the end the outcome columns are empty. */
  lemma OpenUndecided(init: map<AuctionId, Auction>, events: seq<BidEvent>, cfg: Config, a: AuctionId)
    requires Unbid(init) && a in init && !HasOutcome(RowAfter(init, events, cfg, a).status)
    ensures Undecided(RowAfter(init, events, cfg, a))
  {
    hide MemoriesOk, BidsOf, AfterBids, BidsOk, RowOk;
    RunKeeps(init, events, cfg);
    StillOpen(init[a], RowAfter(init, events, cfg, a), BidsAfter(init, events, cfg, a), cfg.window);
  }

  /** A step that ends the auction decides it, unless it is a save by an administrator. */
  lemma StepEnds(init: map<AuctionId, Auction>, events: seq<BidEvent>, e: BidEvent, cfg: Config, a: AuctionId)
    requires Unbid(init) && a in init
    requires !HasOutcome(RowAfter(init, events, cfg, a).status)
    requires HasOutcome(RowAfter(init, events + [e], cfg, a).status)
    ensures RowAfter(init, events, cfg, a).status == Ending && RowAfter(init, events + [e], cfg, a).status == Ended
    ensures if AsksToEnd(e) then Undecided(RowAfter(init, events + [e], cfg, a))
            else Decided(RowAfter(init, events + [e], cfg, a), BidsAfter(init, events + [e], cfg, a))
  {
    hide MemoriesOk, BidsOf, BidStep, AfterBids, RowOk, BidsOk, Decided, Undecided, HasOutcome;
    RunKeeps(init, events, cfg);
    RunKeeps(init, events + [e], cfg);
    AfterOneMore(init, events, e, cfg);
    EndingStep(init, AfterBids(init, events, cfg), e, cfg, a);
  }

  /** After the end nothing about it changes. */
  lemma StepAfterEnd(init: map<AuctionId, Auction>, events: seq<BidEvent>, e: BidEvent, cfg: Config, a: AuctionId)
    requires Unbid(init) && a in init && HasOutcome(RowAfter(init, events, cfg, a).status)
    ensures var o, n := RowAfter(init, events, cfg, a), RowAfter(init, events + [e], cfg, a);
            SameOutcome(o, n) && HasOutcome(n.status)
    ensures BidsAfter(init, events + [e], cfg, a) == BidsAfter(init, events, cfg, a)
  {
    hide DbInv, MemoriesOk, BidsOf, BidStep, AfterBids;
    OutcomeFrozen(init, events, [e], cfg, a);
    NoBidAfterEnding(init, events, [e], cfg, a);
  }

  /** Exactly when an ended auction is decided by its bids: when it has none, or was not ended by hand. */
  lemma DecidedUnlessByHand(init: map<AuctionId, Auction>, events: seq<BidEvent>, cfg: Config, a: AuctionId)
    requires Unbid(init) && a in init && HasOutcome(RowAfter(init, events, cfg, a).status)
    ensures Decided(RowAfter(init, events, cfg, a), BidsAfter(init, events, cfg, a))
            <==> BidsAfter(init, events, cfg, a) == [] || !EndedByHand(init, events, cfg, a)
  {
    OutcomeByHistory(init, events, cfg, a);
  }

  lemma LastBidOutcome(row0: Auction, row: Auction, bs: seq<Bid>, window: int)
    requires RowOk(row0, row, bs, window) && row0.minimumIncrement > 0 && Decided(row, bs)
    ensures row.winnerId.None? <==> bs == []
    ensures row.finalPrice == row.currentPrice
    ensures bs != [] ==>
              var b := bs[|bs| - 1];
              && row.winnerId == Some(b.user) && row.winnerBidId == Some(b.id) && row.finalPrice == Some(b.amount)
              && forall i :: 0 <= i < |bs| - 1 ==> bs[i].amount < b.amount
  {
    forall i | 0 <= i < |bs| - 1 ensures bs[i].amount < bs[|bs| - 1].amount {
      LastIsHighest(row0.startingPrice, row0.minimumIncrement, bs, i);
    }
  }

  /** An auction that ended, and not by hand, was won by its last committed bid, at the current price,
      which is strictly above every other bid, so the tie-break is never used; and it has no winner
      iff it has no bids.  What administrators did to other auctions does not matter. */
  lemma WinnerCorrect(init: map<AuctionId, Auction>, events: seq<BidEvent>, cfg: Config, a: AuctionId)
    requires Unbid(init) && a in init
    requires HasOutcome(RowAfter(init, events, cfg, a).status) && !EndedByHand(init, events, cfg, a)
    ensures var row, bs := RowAfter(init, events, cfg, a), BidsAfter(init, events, cfg, a);
            && (row.winnerId.None? <==> bs == [])
            && row.finalPrice == row.currentPrice
            && (bs != [] ==>
                  var b := bs[|bs| - 1];
                  && row.winnerId == Some(b.user) && row.winnerBidId == Some(b.id)
                  && row.finalPrice == Some(b.amount)
                  && forall i :: 0 <= i < |bs| - 1 ==> bs[i].amount < b.amount)
  {
    hide BidsOk, MemoriesOk, RowOk, Decided;
    RunKeeps(init, events, cfg);
    OutcomeByHistory(init, events, cfg, a);
    LastBidOutcome(init[a], RowAfter(init, events, cfg, a), BidsAfter(init, events, cfg, a), cfg.window);
  }

  lemma EndByHand(db: BidDb, x: AdminCopy, now: int, retryEdge: bool)
    requires x.auction in db.auctions && x.copy == db.auctions[x.auction]
    requires x.copy.status == Ending && Undecided(x.copy)
    ensures var t := PerformBid(db, AdminEffect(db, x, x.copy.version, Ended, now), retryEdge);
            && x.auction in t.auctions && t.auctions[x.auction].status == Ended
            && Undecided(t.auctions[x.auction]) && t.bids == db.bids
  {
  }

  /** Ending an auction by hand names nobody, whatever bids it has. */
  lemma ManualEndNamesNobody(init: map<AuctionId, Auction>, events: seq<BidEvent>, cfg: Config, k: AdminId, now: int)
    requires Unbid(init)
    requires var s := AfterBids(init, events, cfg);
             && k in s.admins && s.admins[k].auction in s.db.auctions
             && s.admins[k].copy == s.db.auctions[s.admins[k].auction] && s.admins[k].copy.status == Ending
    ensures var s := AfterBids(init, events, cfg);
            var x := s.admins[k];
            var t := BidStep(s, AdminSave(k, x.copy.version, Ended, now, Committed), cfg);
            && x.auction in t.db.auctions && t.db.auctions[x.auction].status == Ended
            && Undecided(t.db.auctions[x.auction]) && t.db.bids == s.db.bids
  {
    hide BidsOk, MemoriesOk, EffectiveEnd, FoldEnd, Chain, BidsOf, AdminEffect, PerformBid;
    RunKeeps(init, events, cfg);
    var s := AfterBids(init, events, cfg);
    assert s.admins[k].auction in init;
    EndByHand(s.db, s.admins[k], now, cfg.retryEdge);
  }
}
