/**
 What every run of the bidding machine keeps: the auction row is a summary of the auction's
 bids in commit order, a copy with the current version is the current row, and every
 accepted reply is backed by a row.
 */
module BiddingInvariants {
  import opened Wrappers
  import opened Auctions
  import opened Bidding

  // ---- What a list of bids amounts to ---------------------------------

  function PriceOf(start: int, bs: seq<Bid>): int {
    if bs == [] then start else bs[|bs| - 1].amount
  }

  /** Each bid is at least the increment above the price it found. */
  predicate Chain(start: int, inc: int, bs: seq<Bid>) {
    bs != [] ==>
      var k := |bs| - 1;
      Chain(start, inc, bs[..k]) && bs[k].amount >= PriceOf(start, bs[..k]) + inc
  }

  /** A bid decided before the end leaves at least the window; a later one changes nothing. */
  function Stretch(end: int, t: int, window: int): int {
    if t < end then (if end < t + window then t + window else end) else end
  }

  /** The closed form of the effective end. */
  function FoldEnd(end: int, bs: seq<Bid>, window: int): int {
    if bs == [] then end
    else Stretch(FoldEnd(end, bs[..|bs| - 1], window), bs[|bs| - 1].decidedAt, window)
  }

  predicate HasOutcome(s: AuctionStatus) {
    s == Ended || InSettlement(s)
  }

  /** The outcome columns name the last bid, or nobody if there is none. */
  predicate Decided(row: Auction, bs: seq<Bid>) {
    if bs == [] then row.finalPrice.None? && row.winnerId.None? && row.winnerBidId.None?
    else
      var b := bs[|bs| - 1];
      row.finalPrice == Some(b.amount) && row.winnerId == Some(b.user) && row.winnerBidId == Some(b.id)
  }

  predicate Undecided(row: Auction) {
    row.finalPrice.None? && row.winnerId.None? && row.winnerBidId.None?
  }

  /** An ended auction is decided by its bids or, if an administrator ended it by hand, not at all. */
  predicate OutcomeOk(row: Auction, bs: seq<Bid>) {
    if HasOutcome(row.status) then Decided(row, bs) || Undecided(row) else Undecided(row)
  }

  predicate RowOk(row0: Auction, row: Auction, bs: seq<Bid>, window: int) {
    && row.startingPrice == row0.startingPrice && row.minimumIncrement == row0.minimumIncrement
    && row.scheduledEnd == row0.scheduledEnd
    && row.bidCount == |bs|
    && row.currentPrice == (if bs == [] then None else Some(PriceOf(row0.startingPrice, bs)))
    && Chain(row0.startingPrice, row0.minimumIncrement, bs)
    && EffectiveEnd(row) == (match row0.scheduledEnd case None => None case Some(e) => Some(FoldEnd(e, bs, window)))
    && OutcomeOk(row, bs)
  }

  predicate BidsOk(bids: seq<Bid>) {
    && (forall i :: 0 <= i < |bids| ==> bids[i].id == i)
    && (forall i, j :: 0 <= i < j < |bids| ==> bids[i].key != bids[j].key)
  }

  ghost predicate DbInv(init: map<AuctionId, Auction>, db: BidDb, window: int) {
    && db.auctions.Keys == init.Keys
    && (forall a :: a in init ==> RowOk(init[a], db.auctions[a], BidsOf(db.bids, a), window))
    && BidsOk(db.bids)
  }

  lemma BidsOfAppend(bids: seq<Bid>, b: Bid, a: AuctionId)
    ensures BidsOf(bids + [b], a) == BidsOf(bids, a) + if b.auction == a then [b] else []
  {
    assert (bids + [b])[..|bids|] == bids;
  }

  // ---- Justified effects ----------------------------------------------

  predicate PlaceOk(db: BidDb, a: AuctionId, row: Auction, bid: Bid, window: int) {
    && a in db.auctions && bid.auction == a && bid.id == |db.bids|
    && var o := db.auctions[a];
       var extended := Extension(o, bid.decidedAt, window);
       && o.status == Live
       && row == o.(currentPrice := Some(bid.amount), bidCount := o.bidCount + 1,
                    extendedUntil := if extended.Some? then extended else o.extendedUntil,
                    version := o.version + 1)
       && bid.amount >= Price(o) + o.minimumIncrement
       && forall b :: b in db.bids ==> b.key != bid.key
  }

  /** Writes that are not bids leave the price columns alone and bump the version; only the ending
      worker fills in the outcome. */
  predicate WriteOk(o: Auction, n: Auction, bs: seq<Bid>) {
    && n == o.(status := n.status, version := o.version + 1, endedAt := n.endedAt,
               finalPrice := n.finalPrice, winnerId := n.winnerId, winnerBidId := n.winnerBidId)
    && ((n.finalPrice == o.finalPrice && n.winnerId == o.winnerId && n.winnerBidId == o.winnerBidId)
        || (o.status == Ending && n == EndedRow(o, WinnerOf(bs), if n.endedAt.Some? then n.endedAt.value else 0)))
  }

  ghost predicate EffectOk(db: BidDb, e: BidEffect, window: int) {
    match e
    case NoWrite => true
    case Place(a, row, bid) => PlaceOk(db, a, row, bid, window)
    case Write(a, row) => a in db.auctions && WriteOk(db.auctions[a], row, BidsOf(db.bids, a))
  }

  // ---- The last bid wins ----------------------------------------------

  lemma {:induction false} LastIsHighest(start: int, inc: int, bs: seq<Bid>, i: nat)
    requires inc > 0 && Chain(start, inc, bs) && i < |bs| - 1
    ensures bs[i].amount < bs[|bs| - 1].amount
  {
    var k := |bs| - 1;
    if i < k - 1 {
      LastIsHighest(start, inc, bs[..k], i);
      assert bs[..k][i] == bs[i];
    }
  }

  lemma LastIsBest(start: int, inc: int, bs: seq<Bid>)
    requires inc > 0 && Chain(start, inc, bs) && bs != []
    ensures Best(bs) == Some(bs[|bs| - 1])
  {
    var best := Best(bs).value;
    var i :| 0 <= i < |bs| && bs[i] == best;
    if i < |bs| - 1 { LastIsHighest(start, inc, bs, i); }
  }

  // ---- Preservation ---------------------------------------------------

  lemma PlaceKeepsRow(row0: Auction, o: Auction, bs: seq<Bid>, bid: Bid, n: Auction, window: int)
    requires RowOk(row0, o, bs, window) && o.status == Live
    requires bid.amount >= Price(o) + o.minimumIncrement
    requires var extended := Extension(o, bid.decidedAt, window);
             n == o.(currentPrice := Some(bid.amount), bidCount := o.bidCount + 1,
                     extendedUntil := if extended.Some? then extended else o.extendedUntil,
                     version := o.version + 1)
    ensures RowOk(row0, n, bs + [bid], window)
  {
    var more := bs + [bid];
    assert more[..|bs|] == bs;
    assert Price(o) == PriceOf(row0.startingPrice, bs);
  }

  lemma WriteKeepsRow(row0: Auction, o: Auction, bs: seq<Bid>, n: Auction, window: int, retryEdge: bool)
    requires RowOk(row0, o, bs, window) && WriteOk(o, n, bs) && row0.minimumIncrement > 0
    requires TriggerAdmits(o, n, retryEdge)
    ensures RowOk(row0, n, bs, window)
  {
    if bs != [] { LastIsBest(row0.startingPrice, row0.minimumIncrement, bs); }
  }

  lemma PlaceKeepsBids(bids: seq<Bid>, bid: Bid)
    requires BidsOk(bids) && bid.id == |bids| && forall b :: b in bids ==> b.key != bid.key
    ensures BidsOk(bids + [bid])
  {
    forall i, j | 0 <= i < j < |bids + [bid]| ensures (bids + [bid])[i].key != (bids + [bid])[j].key {
      if j == |bids| { assert bids[i] in bids; }
    }
  }

  lemma EffectKeeps(init: map<AuctionId, Auction>, db: BidDb, e: BidEffect, cfg: Config)
    requires Unbid(init) && DbInv(init, db, cfg.window) && EffectOk(db, e, cfg.window)
    ensures DbInv(init, PerformBid(db, e, cfg.retryEdge), cfg.window)
  {
    hide RowOk, TriggerAdmits;
    var db' := PerformBid(db, e, cfg.retryEdge);
    if db' != db {
      forall a | a in init
        ensures RowOk(init[a], db'.auctions[a], BidsOf(db'.bids, a), cfg.window)
      {
        if e.Place? {
          BidsOfAppend(db.bids, e.bid, a);
          if a == e.a {
            PlaceKeepsRow(init[a], db.auctions[a], BidsOf(db.bids, a), e.bid, e.row, cfg.window);
          } else {
            assert BidsOf(db'.bids, a) == BidsOf(db.bids, a);
          }
        } else if a == e.a {
          WriteKeepsRow(init[a], db.auctions[a], BidsOf(db.bids, a), e.row, cfg.window, cfg.retryEdge);
        }
      }
      if e.Place? { PlaceKeepsBids(db.bids, e.bid); }
    }
  }

  // ---- Copies ---------------------------------------------------------

  /** The version pins the row. */
  predicate CopyOk(db: BidDb, a: AuctionId, copy: Auction) {
    && a in db.auctions && copy.version <= db.auctions[a].version
    && (copy.version == db.auctions[a].version ==> copy == db.auctions[a])
  }

  predicate Screened(copy: Auction, req: Request) {
    copy.status == Live && Objection(copy, req).None?
  }

  predicate PcOk(db: BidDb, pc: BidPc) {
    match pc
    case Screening(req, copy) => CopyOk(db, req.auction, copy) && copy.status == Live
    case Deduplicating(req, copy) => CopyOk(db, req.auction, copy) && Screened(copy, req)
    case Preparing(req, copy) => CopyOk(db, req.auction, copy) && Screened(copy, req)
    case Saving(req, copy, _, _) => CopyOk(db, req.auction, copy) && Screened(copy, req)
    case _ => true
  }

  /** An accepted reply names the one row under the request's key. */
  predicate Backed(bids: seq<Bid>, x: Answer) {
    x.reply.Accepted? ==>
      && x.reply.id < |bids| && bids[x.reply.id].id == x.reply.id
      && bids[x.reply.id].key == x.request.key
      && bids[x.reply.id].amount == RoundCents(x.reply.amount)
  }

  /** What callers and administrators remember, and what was answered, is right for `db`. */
  ghost predicate MemoriesOk(db: BidDb, s: BidSys) {
    && (forall c :: c in s.callers ==> PcOk(db, s.callers[c]))
    && (forall k :: k in s.admins ==> CopyOk(db, s.admins[k].auction, s.admins[k].copy))
    && (forall i :: 0 <= i < |s.answers| ==> Backed(db.bids, s.answers[i]))
  }

  ghost predicate BidInv(init: map<AuctionId, Auction>, s: BidSys, cfg: Config) {
    DbInv(init, s.db, cfg.window) && MemoriesOk(s.db, s)
  }

  /** Rows only move forward in version, and bids are only appended. */
  ghost predicate Later(db: BidDb, db': BidDb) {
    && db'.auctions.Keys == db.auctions.Keys
    && (forall a :: a in db.auctions ==>
          db'.auctions[a] == db.auctions[a] || db'.auctions[a].version > db.auctions[a].version)
    && db.bids <= db'.bids
  }

  lemma EffectIsLater(db: BidDb, e: BidEffect, window: int, retryEdge: bool)
    requires EffectOk(db, e, window)
    ensures Later(db, PerformBid(db, e, retryEdge))
  {
  }

  lemma LaterKeepsPc(db: BidDb, db': BidDb, pc: BidPc)
    requires Later(db, db') && PcOk(db, pc)
    ensures PcOk(db', pc)
  {
  }

  lemma LaterKeepsBacked(bids: seq<Bid>, bids': seq<Bid>, x: Answer)
    requires bids <= bids' && Backed(bids, x)
    ensures Backed(bids', x)
  {
  }

  // ---- Steps ----------------------------------------------------------

  lemma RoundAtLeast(amount: real, cents: int)
    requires amount * 100.0 >= cents as real
    ensures RoundCents(amount) >= cents
  {
  }

  /** The column holds the nearest number of cents, and of two equally near ones the one further from zero. */
  lemma RoundsHalfAway(amount: real)
    ensures var cents, stored := amount * 100.0, RoundCents(amount) as real;
            && -0.5 <= stored - cents <= 0.5
            && (stored - cents == 0.5 ==> cents > 0.0)
            && (stored - cents == -0.5 ==> cents < 0.0)
  {
    var cents := amount * 100.0;
    if cents < 0.0 { assert RoundCents(amount) as real == -((0.5 - cents).Floor as real); }
  }

  lemma SavePlaces(db: BidDb, req: Request, copy: Auction, serverTs: int, now: int, window: int)
    requires CopyOk(db, req.auction, copy) && Screened(copy, req)
    requires VersionMatches(db, req.auction, copy) && !InsertRaises(db, req)
    ensures PlaceOk(db, req.auction, BidRow(copy, req, now, window), NewBid(|db.bids|, req, serverTs, now), window)
  {
    RoundAtLeast(req.amount, Price(copy) + copy.minimumIncrement);
  }

  lemma SaveJustified(db: BidDb, pc: BidPc, fate: Fate, window: int)
    requires PcOk(db, pc)
    ensures EffectOk(db, SaveEffect(db, pc, fate, window), window)
  {
    if pc.Saving? && SaveEffect(db, pc, fate, window).Place? {
      SavePlaces(db, pc.req, pc.copy, pc.serverTs, pc.now, window);
    }
  }

  lemma EndingJustified(db: BidDb, a: AuctionId, now: int, window: int)
    ensures EffectOk(db, EndingEffect(db, a, now), window)
  {
  }

  lemma EndedJustified(db: BidDb, a: AuctionId, now: int, window: int)
    ensures EffectOk(db, EndedEffect(db, a, now), window)
  {
  }

  lemma AdminJustified(db: BidDb, x: AdminCopy, version: nat, to: AuctionStatus, now: int, window: int)
    requires CopyOk(db, x.auction, x.copy)
    ensures EffectOk(db, AdminEffect(db, x, version, to, now), window)
  {
  }

  lemma StepJustified(s: BidSys, e: BidEvent, cfg: Config)
    requires MemoriesOk(s.db, s)
    ensures EffectOk(s.db, EffectOf(s, e, cfg), cfg.window)
  {
    match e
    case Caller(c, Save(fate)) =>
      assert PcOk(s.db, PcOf(s, c));
      SaveJustified(s.db, PcOf(s, c), fate, cfg.window);
    case ToEnding(a, now, fate) => EndingJustified(s.db, a, now, cfg.window);
    case ToEnded(a, now, fate) => EndedJustified(s.db, a, now, cfg.window);
    case AdminSave(k, version, to, now, fate) =>
      if k in s.admins { AdminJustified(s.db, s.admins[k], version, to, now, cfg.window); }
    case _ =>
  }

  lemma ActKeepsPc(db: BidDb, pc: BidPc, work: BidWork, window: int)
    requires PcOk(db, pc)
    ensures Act(db, pc, work, window).Go? ==> PcOk(db, Act(db, pc, work, window).pc)
  {
  }

  /** A reply is backed by the rows as they are after the step. */
  lemma ReplyBacked(db: BidDb, db': BidDb, pc: BidPc, work: BidWork, cfg: Config)
    requires PcOk(db, pc) && BidsOk(db.bids) && !pc.Free?
    requires db.bids <= db'.bids
    requires work.Save? ==> db' == PerformBid(db, SaveEffect(db, pc, work.fate, cfg.window), cfg.retryEdge)
    ensures Act(db, pc, work, cfg.window).Return? ==>
              Backed(db'.bids, Answer(pc.req, Act(db, pc, work, cfg.window).reply))
  {
    if Act(db, pc, work, cfg.window).Return? {
      var reply := Act(db, pc, work, cfg.window).reply;
      if reply.Accepted? {
        if work.ReadKey? {
          StoredReply(db.bids, FindKey(db.bids, pc.req.key).value);
        } else {
          assert pc.Saving? && work.Save?;
          SavePlaces(db, pc.req, pc.copy, pc.serverTs, pc.now, cfg.window);
          assert db'.bids == db.bids + [NewBid(|db.bids|, pc.req, pc.serverTs, pc.now)];
        }
      }
    }
  }

  lemma StoredReply(bids: seq<Bid>, b: Bid)
    requires BidsOk(bids) && b in bids
    ensures b.id < |bids| && bids[b.id] == b && RoundCents(b.amount as real / 100.0) == b.amount
  {
    var i :| 0 <= i < |bids| && bids[i] == b;
    assert b.amount as real / 100.0 * 100.0 == b.amount as real;
  }

  lemma StepKeeps(init: map<AuctionId, Auction>, s: BidSys, e: BidEvent, cfg: Config)
    requires Unbid(init) && BidInv(init, s, cfg)
    ensures BidInv(init, BidStep(s, e, cfg), cfg)
  {
    StepJustified(s, e, cfg);
    EffectKeeps(init, s.db, EffectOf(s, e, cfg), cfg);
    StepMemories(s, e, cfg);
  }

  lemma FreeOk(db: BidDb)
    ensures PcOk(db, Free)
  {
  }

  lemma StepMemories(s: BidSys, e: BidEvent, cfg: Config)
    requires MemoriesOk(s.db, s) && BidsOk(s.db.bids)
    requires EffectOk(s.db, EffectOf(s, e, cfg), cfg.window)
    ensures MemoriesOk(BidStep(s, e, cfg).db, BidStep(s, e, cfg))
    ensures BidStep(s, e, cfg).db == PerformBid(s.db, EffectOf(s, e, cfg), cfg.retryEdge)
  {
    hide PcOk, CopyOk, Backed, EffectOk, TriggerAdmits, BidsOk;
    var db' := PerformBid(s.db, EffectOf(s, e, cfg), cfg.retryEdge);
    EffectIsLater(s.db, EffectOf(s, e, cfg), cfg.window, cfg.retryEdge);
    MemoriesKept(s, db');
    if e.Caller? {
      FreeOk(s.db);
      CallerKeeps(s, db', e.c, e.work, cfg);
    } else {
      AdminKeeps(s, db', e, cfg);
    }
  }

  /** What callers and administrators remember, and what was answered, stays right. */
  lemma MemoriesKept(s: BidSys, db': BidDb)
    requires MemoriesOk(s.db, s) && Later(s.db, db')
    ensures MemoriesOk(db', s)
  {
    forall c | c in s.callers ensures PcOk(db', s.callers[c]) { LaterKeepsPc(s.db, db', s.callers[c]); }
    forall k | k in s.admins ensures CopyOk(db', s.admins[k].auction, s.admins[k].copy) {
      assert CopyOk(s.db, s.admins[k].auction, s.admins[k].copy);
    }
    forall i | 0 <= i < |s.answers| ensures Backed(db'.bids, s.answers[i]) {
      LaterKeepsBacked(s.db.bids, db'.bids, s.answers[i]);
    }
  }

  lemma AdminKeeps(s: BidSys, db': BidDb, e: BidEvent, cfg: Config)
    requires MemoriesOk(db', s) && Later(s.db, db') && !e.Caller?
    requires db' == PerformBid(s.db, EffectOf(s, e, cfg), cfg.retryEdge)
    ensures BidStep(s, e, cfg).db == db' && MemoriesOk(db', BidStep(s, e, cfg))
  {
  }

  lemma CallerKeeps(s: BidSys, db': BidDb, c: CallerId, work: BidWork, cfg: Config)
    requires BidsOk(s.db.bids) && PcOk(s.db, PcOf(s, c)) && Later(s.db, db')
    requires work.Save? ==> db' == PerformBid(s.db, SaveEffect(s.db, PcOf(s, c), work.fate, cfg.window), cfg.retryEdge)
    requires forall d :: d in s.callers ==> PcOk(db', s.callers[d])
    requires forall i :: 0 <= i < |s.answers| ==> Backed(db'.bids, s.answers[i])
    ensures var t := StepCaller(s, db', c, work, cfg.window);
            && (forall d :: d in t.callers ==> PcOk(db', t.callers[d]))
            && (forall i :: 0 <= i < |t.answers| ==> Backed(db'.bids, t.answers[i]))
  {
    var pc := PcOf(s, c);
    ActKeepsPc(s.db, pc, work, cfg.window);
    match Act(s.db, pc, work, cfg.window)
    case Go(next) => LaterKeepsPc(s.db, db', next);
    case Lost =>
    case Return(reply) => if !pc.Free? { ReplyBacked(s.db, db', pc, work, cfg); }
  }

  lemma {:induction false} RunKeeps(init: map<AuctionId, Auction>, events: seq<BidEvent>, cfg: Config)
    requires Unbid(init)
    ensures BidInv(init, AfterBids(init, events, cfg), cfg)
  {
    if events != [] {
      var k := |events| - 1;
      RunKeeps(init, events[..k], cfg);
      StepKeeps(init, AfterBids(init, events[..k], cfg), events[k], cfg);
    }
  }
}
