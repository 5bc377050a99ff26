/**
 The price chain, the winner, idempotency and sniper protection, in every state of every run
 with any number of callers, ending workers and administrators.
 */
module BiddingTheorems {
  import opened Wrappers
  import opened Auctions
  import opened Bidding
  import opened BiddingInvariants

  function RowAfter(init: map<AuctionId, Auction>, events: seq<BidEvent>, cfg: Config, a: AuctionId): Auction
    requires Unbid(init) && a in init
  {
    RunKeeps(init, events, cfg);
    AfterBids(init, events, cfg).db.auctions[a]
  }

  function BidsAfter(init: map<AuctionId, Auction>, events: seq<BidEvent>, cfg: Config, a: AuctionId): seq<Bid> {
    BidsOf(AfterBids(init, events, cfg).db.bids, a)
  }

  // ---- Price chain ----------------------------------------------------

  /** The price that bid `i` found. */
  function Found(start: int, bs: seq<Bid>, i: nat): int
    requires i < |bs|
  {
    if i == 0 then start else bs[i - 1].amount
  }

  lemma {:induction false} ChainSteps(start: int, inc: int, bs: seq<Bid>, i: nat)
    requires Chain(start, inc, bs) && i < |bs|
    ensures bs[i].amount >= Found(start, bs, i) + inc
  {
    var k := |bs| - 1;
    if i < k {
      ChainSteps(start, inc, bs[..k], i);
      assert bs[..k][i] == bs[i];
    }
  }

  lemma {:induction false} ChainTotal(start: int, inc: int, bs: seq<Bid>)
    requires Chain(start, inc, bs)
    ensures PriceOf(start, bs) >= start + |bs| * inc
  {
    if bs != [] {
      var k := |bs| - 1;
      ChainTotal(start, inc, bs[..k]);
      assert |bs| * inc == k * inc + inc;
    }
  }

  /** In every state the row counts its bids and holds the last one as its price; bids in commit
      order rise by at least the increment, after rounding to the column, from the starting price
      on; so the price is at least the starting price plus the count times the increment. */
  lemma PriceChain(init: map<AuctionId, Auction>, events: seq<BidEvent>, cfg: Config, a: AuctionId)
    requires Unbid(init) && a in init
    ensures var row, bs := RowAfter(init, events, cfg, a), BidsAfter(init, events, cfg, a);
            && row.bidCount == |bs|
            && row.currentPrice == (if bs == [] then None else Some(bs[|bs| - 1].amount))
            && (forall i :: 0 <= i < |bs| ==>
                  bs[i].amount >= Found(init[a].startingPrice, bs, i) + init[a].minimumIncrement)
            && Price(row) >= init[a].startingPrice + row.bidCount * init[a].minimumIncrement
  {
    RunKeeps(init, events, cfg);
    var row, bs := RowAfter(init, events, cfg, a), BidsAfter(init, events, cfg, a);
    forall i | 0 <= i < |bs|
      ensures bs[i].amount >= Found(init[a].startingPrice, bs, i) + init[a].minimumIncrement
    {
      ChainSteps(init[a].startingPrice, init[a].minimumIncrement, bs, i);
    }
    ChainTotal(init[a].startingPrice, init[a].minimumIncrement, bs);
  }

  // ---- Only live auctions take bids -----------------------------------

  /** Bidding is over for good. */
  predicate Closed(s: AuctionStatus) {
    Rank(s) > Rank(Live)
  }

  /** `y` has at most one bid more than `x`, under a key no bid had, and the price and the count of that
      bid's auction, live before and after, have moved with it, and of no other auction. */
  ghost predicate MovesWithBids(x: BidDb, y: BidDb) {
    && y.auctions.Keys == x.auctions.Keys
    && (y.bids == x.bids || (|y.bids| == |x.bids| + 1 && x.bids == y.bids[..|x.bids|]))
    && (y.bids != x.bids ==>
          var b := y.bids[|x.bids|];
          && (forall c :: c in x.bids ==> c.key != b.key)
          && b.auction in x.auctions && x.auctions[b.auction].status == Live == y.auctions[b.auction].status
          && y.auctions[b.auction].bidCount == x.auctions[b.auction].bidCount + 1
          && y.auctions[b.auction].currentPrice == Some(b.amount))
    && (forall a :: a in x.auctions && (y.bids == x.bids || y.bids[|x.bids|].auction != a) ==>
          && y.auctions[a].bidCount == x.auctions[a].bidCount
          && y.auctions[a].currentPrice == x.auctions[a].currentPrice)
  }

  lemma EffectMovesWithBids(db: BidDb, e: BidEffect, cfg: Config)
    requires EffectOk(db, e, cfg.window)
    ensures MovesWithBids(db, PerformBid(db, e, cfg.retryEdge))
  {
    hide TriggerAdmits, Extension, EndedRow, BidsOf;
    if e.Place? { assert (db.bids + [e.bid])[..|db.bids|] == db.bids; }
  }

  /** In every run, every step moves prices and counts only with a bid, and at most one. */
  lemma PriceMovesOnce(init: map<AuctionId, Auction>, events: seq<BidEvent>, e: BidEvent, cfg: Config)
    requires Unbid(init)
    ensures MovesWithBids(AfterBids(init, events, cfg).db, AfterBids(init, events + [e], cfg).db)
    ensures AfterBids(init, events + [e], cfg).db.auctions.Keys == init.Keys
  {
    hide MovesWithBids, RowOk, EffectOk, EffectOf, PerformBid, BidsOk, MemoriesOk;
    RunKeeps(init, events, cfg);
    RunKeeps(init, events + [e], cfg);
    assert (events + [e])[..|events|] == events;
    var s := AfterBids(init, events, cfg);
    StepJustified(s, e, cfg);
    StepMemories(s, e, cfg);
    EffectMovesWithBids(s.db, EffectOf(s, e, cfg), cfg);
  }

  lemma ClosedEffect(db: BidDb, e: BidEffect, cfg: Config, a: AuctionId)
    requires EffectOk(db, e, cfg.window) && a in db.auctions && Closed(db.auctions[a].status)
    ensures var db' := PerformBid(db, e, cfg.retryEdge);
            a in db'.auctions && Closed(db'.auctions[a].status) && BidsOf(db'.bids, a) == BidsOf(db.bids, a)
  {
    match e
    case NoWrite =>
    case Place(b, row, bid) => BidsOfAppend(db.bids, bid, a);
    case Write(b, row) =>
      if b == a && TriggerAdmits(db.auctions[a], row, cfg.retryEdge) {
        TriggerKeepsClosed(db.auctions[a], row, cfg.retryEdge);
      }
  }

  lemma TriggerKeepsClosed(o: Auction, n: Auction, retryEdge: bool)
    requires TriggerAdmits(o, n, retryEdge) && Closed(o.status)
    ensures Closed(n.status)
  {
  }

  lemma ClosedStays(init: map<AuctionId, Auction>, s: BidSys, e: BidEvent, cfg: Config, a: AuctionId)
    requires BidInv(init, s, cfg) && a in init && Closed(s.db.auctions[a].status)
    ensures var t := BidStep(s, e, cfg);
            a in t.db.auctions && Closed(t.db.auctions[a].status) && BidsOf(t.db.bids, a) == BidsOf(s.db.bids, a)
  {
    StepJustified(s, e, cfg);
    StepMemories(s, e, cfg);
    ClosedEffect(s.db, EffectOf(s, e, cfg), cfg, a);
  }

  lemma AfterOneMore(init: map<AuctionId, Auction>, events: seq<BidEvent>, e: BidEvent, cfg: Config)
    ensures AfterBids(init, events + [e], cfg) == BidStep(AfterBids(init, events, cfg), e, cfg)
  {
    assert (events + [e])[..|events|] == events;
  }

  /** Once an auction has left LIVE for ENDING (or was cancelled), no bid is ever committed for it
      again, whatever calls are still in flight and whoever lost which lock. */
  lemma {:induction false} NoBidAfterEnding(
    init: map<AuctionId, Auction>, events: seq<BidEvent>, more: seq<BidEvent>, cfg: Config, a: AuctionId)
    requires Unbid(init) && a in init && Closed(RowAfter(init, events, cfg, a).status)
    ensures BidsAfter(init, events + more, cfg, a) == BidsAfter(init, events, cfg, a)
    ensures Closed(RowAfter(init, events + more, cfg, a).status)
  {
    hide AfterBids, DbInv, MemoriesOk, BidsOf, Closed, BidStep;
    if more == [] {
      assert events + more == events;
    } else {
      var k := |more| - 1;
      NoBidAfterEnding(init, events, more[..k], cfg, a);
      RunKeeps(init, events + more[..k], cfg);
      ClosedStays(init, AfterBids(init, events + more[..k], cfg), more[k], cfg, a);
      AfterOneMore(init, events + more[..k], more[k], cfg);
      assert events + more == events + more[..k] + [more[k]];
    }
  }

  // ---- Idempotency ----------------------------------------------------

  /** However many calls carry one key, concurrent or replayed, at most one row has it; every accepted
      reply to any of them names that row, and the amount it reports rounds to the row's. */
  lemma BidIdempotency(init: map<AuctionId, Auction>, events: seq<BidEvent>, cfg: Config, key: RequestKey)
    requires Unbid(init)
    ensures var s := AfterBids(init, events, cfg);
            && (forall i, j | 0 <= i < |s.db.bids| && 0 <= j < |s.db.bids| ::
                  s.db.bids[i].key == key && s.db.bids[j].key == key ==> i == j)
            && (forall x :: x in s.answers && x.reply.Accepted? && x.request.key == key ==>
                  && x.reply.id < |s.db.bids| && s.db.bids[x.reply.id].key == key
                  && s.db.bids[x.reply.id].id == x.reply.id
                  && s.db.bids[x.reply.id].amount == RoundCents(x.reply.amount))
            && (forall x, y | x in s.answers && y in s.answers && x.reply.Accepted? && y.reply.Accepted? ::
                  x.request.key == key && y.request.key == key ==> x.reply.id == y.reply.id)
  {
    RunKeeps(init, events, cfg);
    var s := AfterBids(init, events, cfg);
    forall x | x in s.answers && x.reply.Accepted? && x.request.key == key
      ensures x.reply.id < |s.db.bids| && s.db.bids[x.reply.id].key == key
      ensures s.db.bids[x.reply.id].id == x.reply.id
      ensures s.db.bids[x.reply.id].amount == RoundCents(x.reply.amount)
    {
      assert Backed(s.db.bids, x);
    }
  }

  /** Exactly when the first reply to a bid reports the amount its row holds: when the amount offered
      is a whole number of cents.  (The reply echoes the request; the column rounds it.) */
  lemma FirstReplyAmount(init: map<AuctionId, Auction>, events: seq<BidEvent>, cfg: Config, c: CallerId)
    requires Unbid(init)
    requires var s := AfterBids(init, events, cfg);
             var pc := PcOf(s, c);
             pc.Saving? && SaveReply(s.db, pc.req, pc.copy, pc.now, Committed, cfg.window).Accepted?
    ensures var s := AfterBids(init, events, cfg);
            var t := BidStep(s, Caller(c, Save(Committed)), cfg);
            var req := PcOf(s, c).req;
            && |t.answers| == |s.answers| + 1
            && var x := t.answers[|s.answers|];
               && x.request == req && x.reply.Accepted? && x.reply.id < |t.db.bids|
               && (t.db.bids[x.reply.id].amount as real == x.reply.amount * 100.0 <==> WholeCents(req.amount))
  {
    RunKeeps(init, events, cfg);
    var s := AfterBids(init, events, cfg);
    StepKeeps(init, s, Caller(c, Save(Committed)), cfg);
    assert Backed(BidStep(s, Caller(c, Save(Committed)), cfg).db.bids,
                  BidStep(s, Caller(c, Save(Committed)), cfg).answers[|s.answers|]);
  }

  // ---- Sniper protection ----------------------------------------------

  lemma {:induction false} BidsOfGrows(bids: seq<Bid>, bids': seq<Bid>, a: AuctionId)
    requires bids <= bids'
    ensures BidsOf(bids, a) <= BidsOf(bids', a)
  {
    if |bids'| > |bids| {
      var k := |bids'| - 1;
      BidsOfGrows(bids, bids'[..k], a);
    } else {
      assert bids' == bids;
    }
  }

  lemma {:induction false} FoldGrows(end: int, bs: seq<Bid>, n: nat, window: int)
    requires n <= |bs|
    ensures FoldEnd(end, bs[..n], window) <= FoldEnd(end, bs, window)
  {
    if n < |bs| {
      var k := |bs| - 1;
      FoldGrows(end, bs[..k], n, window);
      assert bs[..k][..n] == bs[..n];
    } else {
      assert bs[..n] == bs;
    }
  }

  lemma {:induction false} FoldQuiet(end: int, bs: seq<Bid>, n: nat, window: int)
    requires n <= |bs|
    requires forall i :: n <= i < |bs| ==> bs[i].decidedAt >= FoldEnd(end, bs[..n], window)
    ensures FoldEnd(end, bs, window) == FoldEnd(end, bs[..n], window)
  {
    if n < |bs| {
      var k := |bs| - 1;
      assert bs[..k][..n] == bs[..n];
      FoldQuiet(end, bs[..k], n, window);
    } else {
      assert bs[..n] == bs;
    }
  }

  /** In every state the effective end is the scheduled end folded over the bids in commit order with
      max(end, t + window) for each bid decided at t before the end.  So every timely bid leaves at
      least the window, and the end after any prefix of the bids is no later. */
  lemma SniperClosedForm(init: map<AuctionId, Auction>, events: seq<BidEvent>, cfg: Config, a: AuctionId, n: nat)
    requires Unbid(init) && a in init && init[a].scheduledEnd.Some?
    requires n < |BidsAfter(init, events, cfg, a)|
    ensures var row, bs := RowAfter(init, events, cfg, a), BidsAfter(init, events, cfg, a);
            var end := init[a].scheduledEnd.value;
            && EffectiveEnd(row) == Some(FoldEnd(end, bs, cfg.window))
            && FoldEnd(end, bs[..n], cfg.window) <= EffectiveEnd(row).value
            && (bs[n].decidedAt < FoldEnd(end, bs[..n], cfg.window) ==>
                  EffectiveEnd(row).value >= bs[n].decidedAt + cfg.window)
  {
    hide BidsOk, MemoriesOk, Chain, OutcomeOk;
    RunKeeps(init, events, cfg);
    var bs, end := BidsAfter(init, events, cfg, a), init[a].scheduledEnd.value;
    FoldGrows(end, bs, n, cfg.window);
    FoldGrows(end, bs, n + 1, cfg.window);
    assert bs[..n + 1][..n] == bs[..n];
  }

  lemma {:induction false} BidsOnlyGrow(
    init: map<AuctionId, Auction>, events: seq<BidEvent>, more: seq<BidEvent>, cfg: Config)
    requires Unbid(init)
    ensures AfterBids(init, events, cfg).db.bids <= AfterBids(init, events + more, cfg).db.bids
  {
    if more == [] {
      assert events + more == events;
    } else {
      var k := |more| - 1;
      BidsOnlyGrow(init, events, more[..k], cfg);
      assert (events + more)[..|events + more| - 1] == events + more[..k];
      assert events + more == (events + more[..k]) + [more[k]];
      PriceMovesOnce(init, events + more[..k], more[k], cfg);
    }
  }

  /** The end never moves earlier, and once it has passed, bids decided after that do not move it at
      all: the ending worker's re-check stays true for as long as the auction stays live. */
  lemma PassedEndStays(
    init: map<AuctionId, Auction>, events: seq<BidEvent>, more: seq<BidEvent>, cfg: Config, a: AuctionId, now: int)
    requires Unbid(init) && a in init && init[a].scheduledEnd.Some?
    ensures var x, y := RowAfter(init, events, cfg, a), RowAfter(init, events + more, cfg, a);
            var bs, bs' := BidsAfter(init, events, cfg, a), BidsAfter(init, events + more, cfg, a);
            && EffectiveEnd(x).Some? && EffectiveEnd(y).Some? && |bs| <= |bs'|
            && EffectiveEnd(x).value <= EffectiveEnd(y).value
            && (EffectiveEnd(x).value <= now && (forall i :: |bs| <= i < |bs'| ==> bs'[i].decidedAt >= now) ==>
                  && EffectiveEnd(y) == EffectiveEnd(x)
                  && (y.status == Live ==>
                        EndingEffect(AfterBids(init, events + more, cfg).db, a, now)
                        == Write(a, WithStatus(y, Ending))))
  {
    hide BidsOk, MemoriesOk, Chain, OutcomeOk;
    RunKeeps(init, events, cfg);
    RunKeeps(init, events + more, cfg);
    BidsOnlyGrow(init, events, more, cfg);
    BidsOfGrows(AfterBids(init, events, cfg).db.bids, AfterBids(init, events + more, cfg).db.bids, a);
    var bs, bs' := BidsAfter(init, events, cfg, a), BidsAfter(init, events + more, cfg, a);
    var end := init[a].scheduledEnd.value;
    assert bs'[..|bs|] == bs;
    FoldGrows(end, bs', |bs|, cfg.window);
    if FoldEnd(end, bs, cfg.window) <= now && forall i :: |bs| <= i < |bs'| ==> bs'[i].decidedAt >= now {
      FoldQuiet(end, bs', |bs|, cfg.window);
    }
  }

  // ---- Closing on time ------------------------------------------------

  /** The end of the auction as its bids so far have made it: from the scheduled end on, each bid decided before
      the end leaves at least the window. */
  ghost predicate EndPassed(init: map<AuctionId, Auction>, events: seq<BidEvent>, cfg: Config, a: AuctionId, now: int)
    requires a in init
  {
    && init[a].scheduledEnd.Some?
    && now >= FoldEnd(init[a].scheduledEnd.value, BidsAfter(init, events, cfg, a), cfg.window)
  }

  lemma RowEnd(init: map<AuctionId, Auction>, events: seq<BidEvent>, cfg: Config, a: AuctionId, now: int)
    requires Unbid(init) && a in init
    ensures var end := EffectiveEnd(RowAfter(init, events, cfg, a));
            EndPassed(init, events, cfg, a, now) <==> end.Some? && end.value <= now
  {
    hide AfterBids, MemoriesOk, FoldEnd, Chain, OutcomeOk, BidsOf;
    RunKeeps(init, events, cfg);
  }

  /** What could have moved the row out of LIVE. */
  lemma WhoCloses(s: BidSys, e: BidEvent, cfg: Config, a: AuctionId)
    requires a in s.db.auctions && s.db.auctions[a].status == Live && MemoriesOk(s.db, s) && !e.AdminSave?
    ensures var db' := BidStep(s, e, cfg).db;
            && a in db'.auctions
            && (db'.auctions[a].status == Ending ==>
                  e.ToEnding? && e.a == a && Lands(e.fate)
                  && EffectiveEnd(s.db.auctions[a]).Some? && EffectiveEnd(s.db.auctions[a]).value <= e.now)
  {
    hide TriggerAdmits, EffectiveEnd, BidsOf, WinnerOf, CopyOk, Backed, Extension, InsertRaises, Act;
    if e.Caller? { assert PcOk(s.db, PcOf(s, e.c)); }
  }

  /** What an attempt of the ending worker writes. */
  lemma ClosingWrites(s: BidSys, a: AuctionId, now: int, fate: Fate, cfg: Config)
    requires a in s.db.auctions && s.db.auctions[a].status == Live
    ensures var row, end := s.db.auctions[a], EffectiveEnd(s.db.auctions[a]);
            BidStep(s, ToEnding(a, now, fate), cfg).db
            == if Lands(fate) && end.Some? && end.value <= now
               then s.db.(auctions := s.db.auctions[a := row.(status := Ending, version := row.version + 1)])
               else s.db
  {
    hide EffectiveEnd;
  }

  /** A live auction is closed on time: in any run, a step that takes it from LIVE to ENDING, unless it is a save
      by an administrator, is one of the ending worker with a clock at or past the end that the bids so far
      have given it.  An attempt before that, or without an end, leaves the tables as they are, and one after it
      closes the auction and changes nothing else. */
  lemma ClosesOnTime(init: map<AuctionId, Auction>, events: seq<BidEvent>, e: BidEvent, cfg: Config, a: AuctionId)
    requires Unbid(init) && a in init && RowAfter(init, events, cfg, a).status == Live
    ensures RowAfter(init, events + [e], cfg, a).status == Ending && !e.AdminSave? ==>
              e.ToEnding? && e.a == a && Lands(e.fate) && EndPassed(init, events, cfg, a, e.now)
    ensures var row, db := RowAfter(init, events, cfg, a), AfterBids(init, events, cfg).db;
            e.ToEnding? && e.a == a ==>
              AfterBids(init, events + [e], cfg).db
              == if Lands(e.fate) && EndPassed(init, events, cfg, a, e.now)
                 then db.(auctions := db.auctions[a := row.(status := Ending, version := row.version + 1)]) else db
  {
    hide AfterBids, BidStep, EndPassed, MemoriesOk, RowOk, BidsOk, BidsOf, EffectiveEnd;
    RunKeeps(init, events, cfg);
    AfterOneMore(init, events, e, cfg);
    var s := AfterBids(init, events, cfg);
    if e.ToEnding? && e.a == a {
      RowEnd(init, events, cfg, a, e.now);
      ClosingWrites(s, a, e.now, e.fate, cfg);
    }
    if !e.AdminSave? { WhoCloses(s, e, cfg, a); }
  }
}
