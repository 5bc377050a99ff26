/**
 A `placeBid` call that nothing comes between: what it answers, from any state of any run.
 */
module BidCalls {
  import opened Wrappers
  import opened Auctions
  import opened Bidding
  import opened BiddingInvariants
  import opened BiddingTheorems

  // ---- One caller's moves ---------------------------------------------

  function ByCaller(c: CallerId, works: seq<BidWork>): (events: seq<BidEvent>)
    ensures |events| == |works|
    ensures forall i :: 0 <= i < |works| ==> events[i] == Caller(c, works[i])
  {
    seq(|works|, i requires 0 <= i < |works| => Caller(c, works[i]))
  }

  /** The tables, the caller's point and the replies so far. */
  datatype Call = Call(db: BidDb, pc: BidPc, answers: seq<Answer>)

  function CallOf(s: BidSys, c: CallerId): Call {
    Call(s.db, PcOf(s, c), s.answers)
  }

  function Move(x: Call, work: BidWork, cfg: Config): Call {
    var db' := if work.Save? then PerformBid(x.db, SaveEffect(x.db, x.pc, work.fate, cfg.window), cfg.retryEdge)
               else x.db;
    match Act(x.db, x.pc, work, cfg.window)
    case Go(next) => Call(db', next, x.answers)
    case Lost => Call(db', Free, x.answers)
    case Return(reply) =>
      Call(db', Free, if x.pc.Free? then x.answers else x.answers + [Answer(x.pc.req, reply)])
  }

  function Moves(x: Call, works: seq<BidWork>, cfg: Config): Call {
    if works == [] then x else Move(Moves(x, works[..|works| - 1], cfg), works[|works| - 1], cfg)
  }

  lemma StepMoves(s: BidSys, c: CallerId, work: BidWork, cfg: Config)
    ensures CallOf(BidStep(s, Caller(c, work), cfg), c) == Move(CallOf(s, c), work, cfg)
    ensures BidStep(s, Caller(c, work), cfg).admins == s.admins
  {
    hide TriggerAdmits, SaveEffect, Act;
  }

  /** A run of one caller's moves is what they make of its call. */
  lemma {:induction false} RunMoves(s: BidSys, c: CallerId, works: seq<BidWork>, cfg: Config)
    ensures CallOf(BidRun(s, ByCaller(c, works), cfg), c) == Moves(CallOf(s, c), works, cfg)
    ensures BidRun(s, ByCaller(c, works), cfg).admins == s.admins
  {
    hide BidStep, Move;
    if works != [] {
      var k := |works| - 1;
      RunMoves(s, c, works[..k], cfg);
      assert ByCaller(c, works)[..k] == ByCaller(c, works[..k]);
      StepMoves(BidRun(s, ByCaller(c, works[..k]), cfg), c, works[k], cfg);
    }
  }

  lemma {:induction false} BidRunConcat(s: BidSys, xs: seq<BidEvent>, ys: seq<BidEvent>, cfg: Config)
    ensures BidRun(s, xs + ys, cfg) == BidRun(BidRun(s, xs, cfg), ys, cfg)
  {
    hide BidStep;
    if ys == [] {
      assert xs + ys == xs;
    } else {
      var k := |ys| - 1;
      BidRunConcat(s, xs, ys[..k], cfg);
      assert (xs + ys)[..|xs + ys| - 1] == xs + ys[..k];
    }
  }

  lemma {:induction false} Then(x: Call, works: seq<BidWork>, more: seq<BidWork>, cfg: Config)
    ensures Moves(x, works + more, cfg) == Moves(Moves(x, works, cfg), more, cfg)
  {
    hide Move;
    if more == [] {
      assert works + more == works;
    } else {
      var k := |more| - 1;
      Then(x, works, more[..k], cfg);
      assert (works + more)[..|works + more| - 1] == works + more[..k];
    }
  }

  lemma Two(x: Call, w1: BidWork, w2: BidWork, cfg: Config)
    ensures Moves(x, [w1, w2], cfg) == Move(Move(x, w1, cfg), w2, cfg)
  {
    hide Move;
    assert [w1][..0] == [] && [w1, w2][..1] == [w1];
    assert Moves(x, [w1], cfg) == Move(x, w1, cfg);
  }

  lemma Three(x: Call, w1: BidWork, w2: BidWork, w3: BidWork, cfg: Config)
    ensures Moves(x, [w1, w2, w3], cfg) == Move(Move(Move(x, w1, cfg), w2, cfg), w3, cfg)
  {
    hide Move;
    var works := [w1, w2, w3];
    assert works[..2] == [w1, w2];
    Two(x, w1, w2, cfg);
  }

  /** A call that is over does nothing more. */
  lemma {:induction false} OverStays(x: Call, works: seq<BidWork>, cfg: Config)
    requires x.pc == Free && forall i :: 0 <= i < |works| ==> !works[i].Arrive?
    ensures Moves(x, works, cfg) == x
  {
    if works != [] {
      assert forall i :: 0 <= i < |works| - 1 ==> works[..|works| - 1][i] == works[i];
      OverStays(x, works[..|works| - 1], cfg);
    }
  }

  // ---- The phases of a call -------------------------------------------

  function FirstLook(req: Request): seq<BidWork> {
    [Arrive(req), ReadKey]
  }

  function InLock(granted: bool): seq<BidWork> {
    [Lock(granted), ReadKey, LoadRow]
  }

  function Validation(eligible: bool, consented: bool): seq<BidWork> {
    [Screen(eligible, consented), ReadDuplicate]
  }

  function Writing(serverTs: int, now: int): seq<BidWork> {
    [Prepare(serverTs, now), Save(Committed)]
  }

  /** The call from its arrival to its commit. */
  function WholeCall(
    req: Request, granted: bool, eligible: bool, consented: bool, serverTs: int, now: int): seq<BidWork>
  {
    FirstLook(req) + InLock(granted) + Validation(eligible, consented) + Writing(serverTs, now)
  }

  function Replied(x: Call, req: Request, reply: Reply): Call {
    Call(x.db, Free, x.answers + [Answer(req, reply)])
  }

  lemma Looks(x: Call, req: Request, cfg: Config)
    requires x.pc == Free
    ensures Moves(x, FirstLook(req), cfg)
         == match FindKey(x.db.bids, req.key)
            case Some(b) => Replied(x, req, ToResponse(b))
            case None => x.(pc := Locking(req))
  {
    hide Moves;
    Two(x, Arrive(req), ReadKey, cfg);
  }

  predicate IsLive(db: BidDb, a: AuctionId) {
    a in db.auctions && db.auctions[a].status == Live
  }

  lemma LooksAgain(x: Call, req: Request, granted: bool, cfg: Config)
    requires x.pc == Locking(req) && FindKey(x.db.bids, req.key).None?
    ensures Moves(x, InLock(granted), cfg)
         == if !granted then Replied(x, req, Rejected(LockContention))
            else if IsLive(x.db, req.auction) then x.(pc := Screening(req, x.db.auctions[req.auction]))
            else Replied(x, req, Rejected(AuctionNotLive))
  {
    hide Moves;
    Three(x, Lock(granted), ReadKey, LoadRow, cfg);
  }

  /** The price a bid must raise. */
  function PriceNow(row: Auction): int {
    match row.currentPrice
    case Some(price) => price
    case None => row.startingPrice
  }

  /** Why a new bid is refused, if it is: the lock, the auction, the bidder, the consent, a price that is not the
      one the bidder saw, or an amount below that price plus the increment, whichever comes first. */
  function Refusal(db: BidDb, req: Request, granted: bool, eligible: bool, consented: bool): Option<Reason> {
    if !granted then Some(LockContention)
    else if req.auction !in db.auctions || db.auctions[req.auction].status != Live then Some(AuctionNotLive)
    else RowRefusal(db.auctions[req.auction], req, eligible, consented)
  }

  function RowRefusal(row: Auction, req: Request, eligible: bool, consented: bool): Option<Reason> {
    if !eligible then Some(UserNotEligible)
    else if !consented then Some(ConsentMissing)
    else if req.reference.None? || req.reference.value != PriceNow(row) then Some(PriceChanged)
    else if (PriceNow(row) + row.minimumIncrement) as real > req.amount * 100.0 then Some(BelowMinimumIncrement)
    else None
  }

  /** No bid of the auction is above its price. */
  lemma PriceIsHighest(row0: Auction, row: Auction, bs: seq<Bid>, k: nat, window: int)
    requires RowOk(row0, row, bs, window) && row0.minimumIncrement > 0 && k < |bs|
    ensures bs[k].amount <= Price(row)
  {
    hide FoldEnd, OutcomeOk, Chain;
    if k < |bs| - 1 { LastIsHighest(row0.startingPrice, row0.minimumIncrement, bs, k); }
  }

  /** Nothing having come between, the check for a duplicate amount finds none. */
  lemma NoDuplicate(init: map<AuctionId, Auction>, db: BidDb, req: Request, window: int)
    requires Unbid(init) && DbInv(init, db, window) && req.auction in db.auctions
    requires req.amount * 100.0 >= (Price(db.auctions[req.auction]) + db.auctions[req.auction].minimumIncrement) as real
    ensures !Duplicates(db.bids, req)
  {
    hide RowOk, BidsOf, Price;
    var a, row := req.auction, db.auctions[req.auction];
    var bs := BidsOf(db.bids, a);
    assert RowOk(init[a], row, bs, window) && UnbidRow(init[a]);
    SameIncrement(init[a], row, bs, window);
    forall i | 0 <= i < |db.bids| && db.bids[i].auction == a
      ensures db.bids[i].amount as real != req.amount * 100.0
    {
      var k := Among(db.bids, a, i);
      PriceIsHighest(init[a], row, bs, k, window);
    }
  }

  lemma SameIncrement(row0: Auction, row: Auction, bs: seq<Bid>, window: int)
    requires RowOk(row0, row, bs, window)
    ensures row.minimumIncrement == row0.minimumIncrement
  {
  }

  lemma {:induction false} Among(bids: seq<Bid>, a: AuctionId, i: nat) returns (k: nat)
    requires i < |bids| && bids[i].auction == a
    ensures k < |BidsOf(bids, a)| && BidsOf(bids, a)[k] == bids[i]
  {
    var n := |bids| - 1;
    if i < n { k := Among(bids[..n], a, i); } else { k := |BidsOf(bids[..n], a)|; }
  }

  lemma Validates(x: Call, req: Request, row: Auction, eligible: bool, consented: bool, cfg: Config)
    requires x.pc == Screening(req, row)
    requires RowRefusal(row, req, eligible, consented).None? ==> !Duplicates(x.db.bids, req)
    ensures Moves(x, Validation(eligible, consented), cfg)
         == match RowRefusal(row, req, eligible, consented)
            case None => x.(pc := Preparing(req, row))
            case Some(reason) => Replied(x, req, Rejected(reason))
  {
    hide Moves, Duplicates;
    Two(x, Screen(eligible, consented), ReadDuplicate, cfg);
  }

  /** The new end, if the bid is decided within the window before the old one. */
  function Extended(row: Auction, now: int, window: int): Option<int> {
    var end := if row.extendedUntil.Some? then row.extendedUntil else row.scheduledEnd;
    if end.Some? && now < end.value && end.value - now <= window then Some(now + window) else None
  }

  /** The tables with the bid placed. */
  function Placed(db: BidDb, req: Request, serverTs: int, now: int, window: int): BidDb
    requires req.auction in db.auctions
  {
    BidDb(db.auctions[req.auction := BidRow(db.auctions[req.auction], req, now, window)],
          db.bids + [Bid(|db.bids|, req.auction, req.user, RoundCents(req.amount), req.key, serverTs, now)])
  }

  /** The reply to a new bid that is not refused. */
  function Answered(db: BidDb, req: Request, now: int, window: int): Reply
    requires req.auction in db.auctions
  {
    if -1_000_000_000_000_000 < RoundCents(req.amount) < 1_000_000_000_000_000
    then Accepted(|db.bids|, req.amount, db.auctions[req.auction].bidCount + 1,
                  Extended(db.auctions[req.auction], now, window))
    else Faulted
  }

  lemma SameExtension(row: Auction, now: int, window: int)
    ensures Extension(row, now, window) == Extended(row, now, window)
  {
  }

  lemma Writes(x: Call, req: Request, serverTs: int, now: int, cfg: Config)
    requires IsLive(x.db, req.auction) && x.pc == Preparing(req, x.db.auctions[req.auction])
    requires FindKey(x.db.bids, req.key).None?
    ensures var reply := Answered(x.db, req, now, cfg.window);
            Moves(x, Writing(serverTs, now), cfg)
            == Replied(x, req, reply).(db := if reply.Accepted? then Placed(x.db, req, serverTs, now, cfg.window)
                                             else x.db)
  {
    hide Moves, RoundCents, Extension, Extended, FindKey;
    var row := x.db.auctions[req.auction];
    Two(x, Prepare(serverTs, now), Save(Committed), cfg);
    RowAdmitted(row, req, now, cfg);
    SameExtension(row, now, cfg.window);
  }

  lemma RowAdmitted(row: Auction, req: Request, now: int, cfg: Config)
    ensures TriggerAdmits(row, BidRow(row, req, now, cfg.window), cfg.retryEdge)
  {
    hide RoundCents, Extension;
  }

  /** What becomes of a call under a new key. */
  function NewCall(
    x: Call, req: Request, granted: bool, eligible: bool, consented: bool, serverTs: int, now: int, window: int): Call
  {
    match Refusal(x.db, req, granted, eligible, consented)
    case Some(reason) => Replied(x, req, Rejected(reason))
    case None =>
      var reply := Answered(x.db, req, now, window);
      Replied(x, req, reply).(db := if reply.Accepted? then Placed(x.db, req, serverTs, now, window) else x.db)
  }

  /** From the lock on. */
  lemma LockedCall(
    x: Call, req: Request, granted: bool, eligible: bool, consented: bool, serverTs: int, now: int, cfg: Config)
    requires x.pc == Locking(req) && FindKey(x.db.bids, req.key).None?
    requires Refusal(x.db, req, granted, eligible, consented).None? ==> !Duplicates(x.db.bids, req)
    ensures Moves(x, InLock(granted) + Validation(eligible, consented) + Writing(serverTs, now), cfg)
         == NewCall(x, req, granted, eligible, consented, serverTs, now, cfg.window)
  {
    hide Moves, Move, InLock, Validation, Writing, RowRefusal, Duplicates, FindKey, RoundCents, Placed, Answered;
    Then(x, InLock(granted), Validation(eligible, consented), cfg);
    Then(x, InLock(granted) + Validation(eligible, consented), Writing(serverTs, now), cfg);
    NoArrivals(granted, eligible, consented, serverTs, now);
    LooksAgain(x, req, granted, cfg);
    if !granted || !IsLive(x.db, req.auction) {
      var over := Replied(x, req, Rejected(if granted then AuctionNotLive else LockContention));
      OverStays(over, Validation(eligible, consented), cfg);
      OverStays(over, Writing(serverTs, now), cfg);
    } else {
      var row := x.db.auctions[req.auction];
      Validates(x.(pc := Screening(req, row)), req, row, eligible, consented, cfg);
      match RowRefusal(row, req, eligible, consented) {
        case None => Writes(x.(pc := Preparing(req, row)), req, serverTs, now, cfg);
        case Some(reason) => OverStays(Replied(x, req, Rejected(reason)), Writing(serverTs, now), cfg);
      }
    }
  }

  lemma NoArrivals(granted: bool, eligible: bool, consented: bool, serverTs: int, now: int)
    ensures forall i :: 0 <= i < |InLock(granted)| ==> !InLock(granted)[i].Arrive?
    ensures forall i :: 0 <= i < |Validation(eligible, consented)| ==> !Validation(eligible, consented)[i].Arrive?
    ensures forall i :: 0 <= i < |Writing(serverTs, now)| ==> !Writing(serverTs, now)[i].Arrive?
  {
  }

  /** The call as a whole. */
  lemma CallMoves(
    x: Call, req: Request, granted: bool, eligible: bool, consented: bool, serverTs: int, now: int, cfg: Config)
    requires x.pc == Free
    requires Refusal(x.db, req, granted, eligible, consented).None? ==> !Duplicates(x.db.bids, req)
    ensures Moves(x, WholeCall(req, granted, eligible, consented, serverTs, now), cfg)
         == match FindKey(x.db.bids, req.key)
            case Some(b) => Replied(x, req, Accepted(b.id, b.amount as real / 100.0, -1, None))
            case None => NewCall(x, req, granted, eligible, consented, serverTs, now, cfg.window)
  {
    hide Moves, Move, FirstLook, InLock, Validation, Writing, Refusal, Duplicates, FindKey, Placed, Answered;
    var rest := InLock(granted) + Validation(eligible, consented) + Writing(serverTs, now);
    assert WholeCall(req, granted, eligible, consented, serverTs, now) == FirstLook(req) + rest;
    Then(x, FirstLook(req), rest, cfg);
    Looks(x, req, cfg);
    if FindKey(x.db.bids, req.key).Some? {
      NoArrivals(granted, eligible, consented, serverTs, now);
      OverStays(Replied(x, req, ToResponse(FindKey(x.db.bids, req.key).value)), rest, cfg);
    } else {
      LockedCall(x.(pc := Locking(req)), req, granted, eligible, consented, serverTs, now, cfg);
    }
  }

  // ---- From any state of any run --------------------------------------

  /** The state after a call that nothing came between. */
  function AfterCall(
    init: map<AuctionId, Auction>, before: seq<BidEvent>, c: CallerId, req: Request,
    granted: bool, eligible: bool, consented: bool, serverTs: int, now: int, cfg: Config): BidSys
  {
    AfterBids(init, before + ByCaller(c, WholeCall(req, granted, eligible, consented, serverTs, now)), cfg)
  }

  /** What a call that nothing comes between answers, after any run, and what it writes.  Under a key that is
      taken it repeats that row and writes nothing.  Under a new key it is rejected for the first reason that
      applies, and writes nothing; if none does it is accepted, unless the amount does not fit its column,
      with the bid's id, the amount offered, the number of bids so far and the new end if it extends the
      auction, and its bid is placed.  No reason depends on a clock: a bid on a live row is accepted before, at
      and after the effective end alike. */
  lemma AcceptedWhateverTheClock(
    init: map<AuctionId, Auction>, before: seq<BidEvent>, c: CallerId, req: Request,
    granted: bool, eligible: bool, consented: bool, serverTs: int, now: int, cfg: Config)
    requires Unbid(init) && PcOf(AfterBids(init, before, cfg), c) == Free
    ensures var s := AfterBids(init, before, cfg);
            var t := AfterCall(init, before, c, req, granted, eligible, consented, serverTs, now, cfg);
            && |t.answers| == |s.answers| + 1 && t.answers[..|s.answers|] == s.answers
            && t.answers[|s.answers|].request == req
            && var reply, bid := t.answers[|s.answers|].reply,
                 Bid(|s.db.bids|, req.auction, req.user, RoundCents(req.amount), req.key, serverTs, now);
               match FindKey(s.db.bids, req.key)
               case Some(b) => reply == Accepted(b.id, b.amount as real / 100.0, -1, None) && t.db == s.db
               case None =>
                 match Refusal(s.db, req, granted, eligible, consented)
                 case Some(reason) => reply == Rejected(reason) && t.db == s.db
                 case None =>
                   && req.auction in s.db.auctions && reply == Answered(s.db, req, now, cfg.window)
                   && (reply.Accepted? ==> reply.newCount == |BidsOf(s.db.bids, req.auction)| + 1)
                   && if reply.Accepted? then t.db.bids == s.db.bids + [bid] else t.db == s.db
  {
    hide BidStep, Moves, WholeCall, Duplicates, FindKey, Refusal, RoundCents, Extended, BidsOf;
    var s, works := AfterBids(init, before, cfg), WholeCall(req, granted, eligible, consented, serverTs, now);
    BidRunConcat(BidSys(BidDb(init, []), map[], map[], []), before, ByCaller(c, works), cfg);
    RunMoves(s, c, works, cfg);
    if Refusal(s.db, req, granted, eligible, consented).None? {
      NotRefused(init, before, req, granted, eligible, consented, cfg);
    }
    CallMoves(CallOf(s, c), req, granted, eligible, consented, serverTs, now, cfg);
  }

  /** A bid that nothing stands against is no duplicate, and the row counts the bids it has. */
  lemma NotRefused(
    init: map<AuctionId, Auction>, before: seq<BidEvent>, req: Request,
    granted: bool, eligible: bool, consented: bool, cfg: Config)
    requires Unbid(init)
    requires Refusal(AfterBids(init, before, cfg).db, req, granted, eligible, consented).None?
    ensures var db := AfterBids(init, before, cfg).db;
            && req.auction in db.auctions && !Duplicates(db.bids, req)
            && db.auctions[req.auction].bidCount == |BidsOf(db.bids, req.auction)|
  {
    hide AfterBids, MemoriesOk, Duplicates, RowRefusal, BidsOf, Unbid, Chain, FoldEnd, OutcomeOk;
    var db := AfterBids(init, before, cfg).db;
    RunKeeps(init, before, cfg);
    EnoughMoney(db.auctions[req.auction], req, eligible, consented);
    NoDuplicate(init, db, req, cfg.window);
    assert RowOk(init[req.auction], db.auctions[req.auction], BidsOf(db.bids, req.auction), cfg.window);
  }

  lemma EnoughMoney(row: Auction, req: Request, eligible: bool, consented: bool)
    requires RowRefusal(row, req, eligible, consented).None?
    ensures req.amount * 100.0 >= (Price(row) + row.minimumIncrement) as real
  {
  }

  // ---- When somebody came between -------------------------------------

  /** The step answers the call, and `db'` is what the tables are then. */
  predicate Ends(s: BidSys, t: BidSys, c: CallerId, req: Request, reply: Reply, db': BidDb) {
    PcOf(t, c) == Free && t.answers == s.answers + [Answer(req, reply)] && t.db == db'
  }

  predicate GoesOn(s: BidSys, t: BidSys, c: CallerId, next: BidPc) {
    PcOf(t, c) == next && t.answers == s.answers && t.db == s.db
  }

  /** The call ends with a row that has its key, or goes on if none has. */
  predicate Looked(s: BidSys, t: BidSys, c: CallerId, req: Request, next: BidPc) {
    if forall b :: b in s.db.bids ==> b.key != req.key then GoesOn(s, t, c, next)
    else exists b :: b in s.db.bids && b.key == req.key
                     && Ends(s, t, c, req, Accepted(b.id, b.amount as real / 100.0, -1, None), s.db)
  }

  /** What a call is answered that another one has overtaken.  At either look for its key: with the row that has it
      by then.  At its load: refused iff the row is absent or no longer live.  At the check for duplicates: refused
      for its amount iff the auction has a bid of that amount by then.  At its write: a fault if its key is taken
      by then, PriceChanged if the row has moved on, and neither writes anything; otherwise the bid is placed iff
      the commit lands, and the caller is told so iff the commit returns. */
  lemma OvertakenCall(
    init: map<AuctionId, Auction>, before: seq<BidEvent>, c: CallerId, work: BidWork, cfg: Config)
    requires Unbid(init)
    ensures var s, t := AfterBids(init, before, cfg), AfterBids(init, before + [Caller(c, work)], cfg);
            match (PcOf(s, c), work)
            case (FastPath(req), ReadKey) => Looked(s, t, c, req, Locking(req))
            case (Rechecking(req), ReadKey) => Looked(s, t, c, req, Loading(req))
            case (Loading(req), LoadRow) =>
              if req.auction in s.db.auctions && s.db.auctions[req.auction].status == Live
              then GoesOn(s, t, c, Screening(req, s.db.auctions[req.auction]))
              else Ends(s, t, c, req, Rejected(AuctionNotLive), s.db)
            case (Deduplicating(req, copy), ReadDuplicate) =>
              if exists b :: b in s.db.bids && b.auction == req.auction && b.amount as real == req.amount * 100.0
              then Ends(s, t, c, req, Rejected(AmountAlreadyBid), s.db)
              else GoesOn(s, t, c, Preparing(req, copy))
            case (Saving(req, copy, serverTs, now), Save(fate)) =>
              && req.auction in s.db.auctions
              && if (exists b :: b in s.db.bids && b.key == req.key) || !Answered(s.db, req, now, cfg.window).Accepted?
                 then Ends(s, t, c, req, Faulted, s.db)
                 else if s.db.auctions[req.auction] != copy then Ends(s, t, c, req, Rejected(PriceChanged), s.db)
                 else Ends(s, t, c, req, if fate.Committed? then Answered(s.db, req, now, cfg.window) else Faulted,
                           if fate.Aborted? then s.db else Placed(s.db, req, serverTs, now, cfg.window))
            case _ => true
  {
    hide AfterBids, BidStep, DbInv, RoundCents, Extended, Extension, Looked;
    var s := AfterBids(init, before, cfg);
    RunKeeps(init, before, cfg);
    AfterOneMore(init, before, Caller(c, work), cfg);
    StepMoves(s, c, work, cfg);
    match (PcOf(s, c), work)
    case (FastPath(req), ReadKey) =>
      LooksOnce(s, AfterBids(init, before + [Caller(c, work)], cfg), c, req, Locking(req));
    case (Rechecking(req), ReadKey) =>
      LooksOnce(s, AfterBids(init, before + [Caller(c, work)], cfg), c, req, Loading(req));
    case (Deduplicating(req, copy), ReadDuplicate) => SameDuplicates(s.db.bids, req);
    case (Saving(req, copy, serverTs, now), Save(fate)) =>
      assert PcOk(s.db, PcOf(s, c));
      SameVersion(s.db, req.auction, copy);
      RowAdmitted(copy, req, now, cfg);
      SameExtension(copy, now, cfg.window);
    case _ =>
  }

  lemma LooksOnce(s: BidSys, t: BidSys, c: CallerId, req: Request, next: BidPc)
    requires match FindKey(s.db.bids, req.key)
             case Some(b) => Ends(s, t, c, req, Accepted(b.id, b.amount as real / 100.0, -1, None), s.db)
             case None => GoesOn(s, t, c, next)
    ensures Looked(s, t, c, req, next)
  {
    hide Ends, GoesOn;
  }

  lemma SameDuplicates(bids: seq<Bid>, req: Request)
    ensures Duplicates(bids, req)
            <==> exists b :: b in bids && b.auction == req.auction && b.amount as real == req.amount * 100.0
  {
  }

  lemma SameVersion(db: BidDb, a: AuctionId, copy: Auction)
    requires CopyOk(db, a, copy)
    ensures VersionMatches(db, a, copy) <==> db.auctions[a] == copy
  {
  }
}
