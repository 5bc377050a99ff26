/**
 Bidding and ending as a state machine over the auction rows and the bids table.  Any number
 of `placeBid` calls, ending workers and administrators interleave at every await; locks are
 only a nondeterministic permission.  What is assumed of the ORM is that saving an auction is
 a compare-and-set on `version`.  An amount offered is an exact decimal, a column is an
 integer number of cents.
 */
module Bidding {
  import opened Wrappers
  import opened Auctions

  type CallerId = nat
  type AdminId = nat
  type RequestKey = nat

  /** A row of the bids table; its id is its position.  `decidedAt` is the clock the sniper check
      read, which is not a column. */
  datatype Bid = Bid(
    id: BidId, auction: AuctionId, user: UserId, amount: int, key: RequestKey,
    serverTs: int, decidedAt: int)

  datatype BidDb = BidDb(auctions: map<AuctionId, Auction>, bids: seq<Bid>)

  /** `reference` is the price the reference text spells exactly as the column prints it, if any. */
  datatype Request = Request(
    auction: AuctionId, user: UserId, amount: real, reference: Option<int>, key: RequestKey)

  datatype Reason =
    | LockContention | AuctionNotLive | UserNotEligible | ConsentMissing
    | PriceChanged | BelowMinimumIncrement | AmountAlreadyBid

  datatype Reply =
    | Accepted(id: BidId, amount: real, newCount: int, extendedUntil: Option<int>)
    | Rejected(reason: Reason)
    | Faulted

  datatype Answer = Answer(request: Request, reply: Reply)

  datatype BidPc =
    | Free
    | FastPath(req: Request)
    | Locking(req: Request)
    | Rechecking(req: Request)
    | Loading(req: Request)
    | Screening(req: Request, copy: Auction)
    | Deduplicating(req: Request, copy: Auction)
    | Preparing(req: Request, copy: Auction)
    | Saving(req: Request, copy: Auction, serverTs: int, now: int)

  datatype BidWork =
    | Arrive(req: Request)
    | ReadKey
    | Lock(granted: bool)
    | LoadRow
    | Screen(eligible: bool, consented: bool)
    | ReadDuplicate
    | Prepare(serverTs: int, now: int)
    | Save(fate: Fate)
    | Fail
    | Vanish

  datatype BidEvent =
    | Caller(c: CallerId, work: BidWork)
    | ToEnding(a: AuctionId, now: int, fate: Fate)
    | ToEnded(a: AuctionId, now: int, fate: Fate)
    | AdminLoad(k: AdminId, a: AuctionId)
    | AdminSave(k: AdminId, version: nat, to: AuctionStatus, now: int, fate: Fate)
    | SettlementMove(a: AuctionId, to: AuctionStatus)

  datatype AdminCopy = AdminCopy(auction: AuctionId, copy: Auction)

  /** `answers` collects every reply a call returned. */
  datatype BidSys = BidSys(
    db: BidDb, callers: map<CallerId, BidPc>, admins: map<AdminId, AdminCopy>, answers: seq<Answer>)

  /** The deployment's settings: the sniper window in milliseconds, and whether the trigger has the
      edge for the admin retry. */
  datatype Config = Config(window: int, retryEdge: bool)

  // ---- Amounts --------------------------------------------------------

  /** What a NUMERIC(15,2) column stores, in cents: half a cent rounds away from zero. */
  function RoundCents(amount: real): int {
    var cents := amount * 100.0;
    if cents >= 0.0 then (cents + 0.5).Floor else -((0.5 - cents).Floor)
  }

  predicate WholeCents(amount: real) {
    RoundCents(amount) as real == amount * 100.0
  }

  const NUMERIC_LIMIT := 1_000_000_000_000_000

  predicate Fits(cents: int) {
    -NUMERIC_LIMIT < cents < NUMERIC_LIMIT
  }

  function Price(a: Auction): int {
    if a.currentPrice.Some? then a.currentPrice.value else a.startingPrice
  }

  // ---- Sniper protection ----------------------------------------------

  function EffectiveEnd(a: Auction): Option<int> {
    if a.extendedUntil.Some? then a.extendedUntil else a.scheduledEnd
  }

  /** The new end, if a bid decided at `now` extends the auction. */
  function Extension(a: Auction, now: int, window: int): Option<int> {
    match EffectiveEnd(a)
    case None => None
    case Some(end) => if 0 < end - now <= window then Some(now + window) else None
  }

  // ---- placeBid -------------------------------------------------------

  function FindKey(bids: seq<Bid>, key: RequestKey): (found: Option<Bid>)
    ensures found.Some? ==> found.value in bids && found.value.key == key
    ensures found.None? ==> forall b :: b in bids ==> b.key != key
  {
    if bids == [] then None
    else if bids[|bids| - 1].key == key then Some(bids[|bids| - 1])
    else FindKey(bids[..|bids| - 1], key)
  }

  /** `toResponse`: the stored row, with placeholders for what was not stored. */
  function ToResponse(b: Bid): Reply {
    Accepted(b.id, b.amount as real / 100.0, -1, None)
  }

  /** Phases 8 and 9, on the loaded copy. */
  function Objection(copy: Auction, req: Request): Option<Reason> {
    if req.reference != Some(Price(copy)) then Some(PriceChanged)
    else if req.amount * 100.0 < (Price(copy) + copy.minimumIncrement) as real then Some(BelowMinimumIncrement)
    else None
  }

  predicate Duplicates(bids: seq<Bid>, req: Request) {
    exists i :: 0 <= i < |bids| && bids[i].auction == req.auction && bids[i].amount as real == req.amount * 100.0
  }

  function NewBid(id: BidId, req: Request, serverTs: int, now: int): Bid {
    Bid(id, req.auction, req.user, RoundCents(req.amount), req.key, serverTs, now)
  }

  function BidRow(copy: Auction, req: Request, now: int, window: int): Auction {
    var extended := Extension(copy, now, window);
    copy.(currentPrice := Some(RoundCents(req.amount)),
    bidCount := copy.bidCount + 1,
    extendedUntil := if extended.Some? then extended else copy.extendedUntil,
    version := copy.version + 1)
  }

  /** The compare-and-set on `version`. */
  predicate VersionMatches(db: BidDb, a: AuctionId, copy: Auction) {
    a in db.auctions && db.auctions[a].version == copy.version
  }

  /** The INSERT raises: the key is taken or the amount does not fit its column. */
  predicate InsertRaises(db: BidDb, req: Request) {
    FindKey(db.bids, req.key).Some? || !Fits(RoundCents(req.amount))
  }

  /** The reply of the commit; a failed compare-and-set is reported as a changed price. */
  function SaveReply(db: BidDb, req: Request, copy: Auction, now: int, fate: Fate, window: int): Reply {
    if InsertRaises(db, req) then Faulted
    else if !VersionMatches(db, req.auction, copy) then Rejected(PriceChanged)
    else if !fate.Committed? then Faulted
    else Accepted(|db.bids|, req.amount, copy.bidCount + 1, Extension(copy, now, window))
  }

  // ---- The winner -----------------------------------------------------

  function BidsOf(bids: seq<Bid>, a: AuctionId): seq<Bid> {
    if bids == [] then []
    else BidsOf(bids[..|bids| - 1], a)
         + if bids[|bids| - 1].auction == a then [bids[|bids| - 1]] else []
  }

  /** ORDER BY amount DESC, server_ts ASC. */
  predicate Beats(x: Bid, y: Bid) {
    x.amount > y.amount || (x.amount == y.amount && x.serverTs < y.serverTs)
  }

  /** The first row in that order: nothing beats it. */
  function Best(bs: seq<Bid>): (best: Option<Bid>)
    ensures best.None? <==> bs == []
    ensures best.Some? ==> best.value in bs && forall b :: b in bs ==> !Beats(b, best.value)
  {
    if bs == [] then None
    else
      var k := |bs| - 1;
      var best := Best(bs[..k]);
      assert bs == bs[..k] + [bs[k]];
      if best.None? || Beats(bs[k], best.value) then Some(bs[k]) else best
  }

  function WinnerOf(bs: seq<Bid>): Option<(BidId, UserId, int)> {
    match Best(bs)
    case None => None
    case Some(b) => Some((b.id, b.user, b.amount))
  }

  // ---- Effects --------------------------------------------------------

  datatype BidEffect =
    | NoWrite
    | Place(a: AuctionId, row: Auction, bid: Bid)
    | Write(a: AuctionId, row: Auction)

  /** The auction row is written only if the trigger does not raise, and a bid only with it. */
  function PerformBid(db: BidDb, e: BidEffect, retryEdge: bool): BidDb {
    match e
    case NoWrite => db
    case Place(a, row, bid) =>
      if a in db.auctions && TriggerAdmits(db.auctions[a], row, retryEdge)
      then BidDb(db.auctions[a := row], db.bids + [bid]) else db
    case Write(a, row) =>
      if a in db.auctions && TriggerAdmits(db.auctions[a], row, retryEdge)
      then db.(auctions := db.auctions[a := row]) else db
  }

  function PcOf(s: BidSys, c: CallerId): BidPc {
    if c in s.callers then s.callers[c] else Free
  }

  function SaveEffect(db: BidDb, pc: BidPc, fate: Fate, window: int): BidEffect {
    match pc
    case Saving(req, copy, serverTs, now) =>
      if Lands(fate) && !InsertRaises(db, req) && VersionMatches(db, req.auction, copy)
      then Place(req.auction, BidRow(copy, req, now, window), NewBid(|db.bids|, req, serverTs, now))
      else NoWrite
    case _ => NoWrite
  }

  /** `transitionLiveToEnding`: the row lock makes its re-check and its write one step. */
  function EndingEffect(db: BidDb, a: AuctionId, now: int): BidEffect {
    if a in db.auctions && db.auctions[a].status == Live
       && EffectiveEnd(db.auctions[a]).Some? && EffectiveEnd(db.auctions[a]).value <= now
    then Write(a, WithStatus(db.auctions[a], Ending)) else NoWrite
  }

  /** `transitionEndingToEnded`. */
  function EndedEffect(db: BidDb, a: AuctionId, now: int): BidEffect {
    if a in db.auctions && db.auctions[a].status == Ending
    then Write(a, EndedRow(db.auctions[a], WinnerOf(BidsOf(db.bids, a)), now)) else NoWrite
  }

  /** `updateStatus`, from the copy it loaded. */
  function AdminEffect(db: BidDb, x: AdminCopy, version: nat, to: AuctionStatus, now: int): BidEffect {
    if x.copy.version == version && ManualMove(x.copy.status, to) && VersionMatches(db, x.auction, x.copy)
    then Write(x.auction, ManualRow(x.copy, to, now)) else NoWrite
  }

  /** The moves of the settlement code and of the admin retry. */
  predicate BySettlement(o: AuctionStatus, n: AuctionStatus) {
    || (o == Ended && n == Settling)
    || (o == Settling && (n == Settled || n == SettlementFailed))
    || (o == SettlementFailed && n == Settling)
  }

  function EffectOf(s: BidSys, e: BidEvent, cfg: Config): BidEffect {
    match e
    case Caller(c, Save(fate)) => SaveEffect(s.db, PcOf(s, c), fate, cfg.window)
    case ToEnding(a, now, fate) => if Lands(fate) then EndingEffect(s.db, a, now) else NoWrite
    case ToEnded(a, now, fate) => if Lands(fate) then EndedEffect(s.db, a, now) else NoWrite
    case AdminSave(k, version, to, now, fate) =>
      if Lands(fate) && k in s.admins then AdminEffect(s.db, s.admins[k], version, to, now) else NoWrite
    case SettlementMove(a, to) =>
      if a in s.db.auctions && BySettlement(s.db.auctions[a].status, to)
      then Write(a, WithStatus(s.db.auctions[a], to)) else NoWrite
    case _ => NoWrite
  }

  // ---- A caller's moves -----------------------------------------------

  /** Where a call goes next, and what it returns if it ends. */
  datatype Turn = Go(pc: BidPc) | Return(reply: Reply) | Lost

  function Act(db: BidDb, pc: BidPc, work: BidWork, window: int): Turn {
    match (pc, work)
    case (Free, Arrive(req)) => Go(FastPath(req))
    case (Free, _) => Go(Free)
    case (_, Vanish) => Lost
    case (_, Fail) => Return(Faulted)
    case (FastPath(req), ReadKey) =>
      (match FindKey(db.bids, req.key) case Some(b) => Return(ToResponse(b)) case None => Go(Locking(req)))
    case (Locking(req), Lock(granted)) => if granted then Go(Rechecking(req)) else Return(Rejected(LockContention))
    case (Rechecking(req), ReadKey) =>
      (match FindKey(db.bids, req.key) case Some(b) => Return(ToResponse(b)) case None => Go(Loading(req)))
    case (Loading(req), LoadRow) =>
      if req.auction in db.auctions && db.auctions[req.auction].status == Live
      then Go(Screening(req, db.auctions[req.auction])) else Return(Rejected(AuctionNotLive))
    case (Screening(req, copy), Screen(eligible, consented)) =>
      if !eligible then Return(Rejected(UserNotEligible))
      else if !consented then Return(Rejected(ConsentMissing))
      else (match Objection(copy, req)
            case Some(reason) => Return(Rejected(reason))
            case None => Go(Deduplicating(req, copy)))
    case (Deduplicating(req, copy), ReadDuplicate) =>
      if Duplicates(db.bids, req) then Return(Rejected(AmountAlreadyBid)) else Go(Preparing(req, copy))
    case (Preparing(req, copy), Prepare(serverTs, now)) => Go(Saving(req, copy, serverTs, now))
    case (Saving(req, copy, _, now), Save(fate)) => Return(SaveReply(db, req, copy, now, fate, window))
    case _ => Go(pc)
  }

  function StepCaller(s: BidSys, db': BidDb, c: CallerId, work: BidWork, window: int): BidSys {
    var pc := PcOf(s, c);
    match Act(s.db, pc, work, window)
    case Go(next) => BidSys(db', s.callers[c := next], s.admins, s.answers)
    case Lost => BidSys(db', s.callers[c := Free], s.admins, s.answers)
    case Return(reply) =>
      BidSys(db', s.callers[c := Free], s.admins,
             if pc.Free? then s.answers else s.answers + [Answer(pc.req, reply)])
  }

  function BidStep(s: BidSys, e: BidEvent, cfg: Config): BidSys {
    var db' := PerformBid(s.db, EffectOf(s, e, cfg), cfg.retryEdge);
    match e
    case Caller(c, work) => StepCaller(s, db', c, work, cfg.window)
    case AdminLoad(k, a) =>
      if a in s.db.auctions then s.(db := db', admins := s.admins[k := AdminCopy(a, s.db.auctions[a])])
      else s.(db := db')
    case AdminSave(k, _, _, _, _) => s.(db := db', admins := s.admins - {k})
    case _ => s.(db := db')
  }

  function BidRun(s: BidSys, events: seq<BidEvent>, cfg: Config): BidSys {
    if events == [] then s
    else BidStep(BidRun(s, events[..|events| - 1], cfg), events[|events| - 1], cfg)
  }

  /** The auctions as created or opened, before any bid. */
  predicate Unbid(auctions: map<AuctionId, Auction>) {
    forall a :: a in auctions ==> UnbidRow(auctions[a])
  }

  predicate UnbidRow(a: Auction) {
    && a.bidCount == 0 && a.currentPrice.None? && a.extendedUntil.None?
    && a.finalPrice.None? && a.winnerId.None? && a.winnerBidId.None?
    && Rank(a.status) <= Rank(Live)
    && a.minimumIncrement > 0
  }

  function AfterBids(auctions: map<AuctionId, Auction>, events: seq<BidEvent>, cfg: Config): BidSys {
    BidRun(BidSys(BidDb(auctions, []), map[], map[], []), events, cfg)
  }
}
