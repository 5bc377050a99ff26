/**
 The running auction service on the bidding side: the tables, the calls in progress and the
 code of `placeBid`, the ending worker and `updateStatus`, awaiting where it awaits.  Others
 act between any two operations.  `history` records every event, and the object is always in
 the state the machine reaches by it, so the theorems about runs are about this code.
 */
module AuctionHouse {
  import opened Wrappers
  import opened Auctions
  import opened Bidding
  import opened BiddingInvariants
  import opened AuctionLifecycle
  import BidCalls

  type UnbidAuctions = m: map<AuctionId, Auction> | Unbid(m) witness map[]

  datatype Lookup = Threw | Found(bid: Bid) | Missing

  /** The point a lookup by key is made from, and where it goes on. */
  predicate LooksUp(pc: BidPc, next: BidPc, req: Request) {
    (pc == FastPath(req) && next == Locking(req)) || (pc == Rechecking(req) && next == Loading(req))
  }

  class AuctionHouse {
    const cfg: Config
    var auctions: map<AuctionId, Auction>
    var bids: seq<Bid>
    var callers: map<CallerId, BidPc>
    var admins: map<AdminId, AdminCopy>
    var answers: seq<Answer>
    ghost const init: UnbidAuctions
    ghost var history: seq<BidEvent>

    function Tables(): BidDb
      reads this
    {
      BidDb(auctions, bids)
    }

    function State(): BidSys
      reads this
    {
      BidSys(Tables(), callers, admins, answers)
    }

    ghost predicate Valid()
      reads this
    {
      State() == AfterBids(init, history, cfg)
    }

    /** The call has returned `reply`. */
    ghost predicate Answered(c: CallerId, req: Request, reply: Reply)
      reads this
    {
      PcOf(State(), c) == Free && Answer(req, reply) in answers
    }

    constructor (start: UnbidAuctions, cfg: Config)
      ensures Valid() && Tables() == BidDb(start, []) && this.cfg == cfg && this.init == start
    {
      this.cfg, init := cfg, start;
      auctions, bids, callers, admins, answers, history := start, [], map[], map[], [], [];
    }

    ghost method Note(s: BidSys, e: BidEvent)
      requires s == AfterBids(init, history, cfg) && State() == BidStep(s, e, cfg)
      modifies this`history
      ensures Valid()
    {
      assert (history + [e])[..|history|] == history;
      history := history + [e];
    }

    method Become(t: BidSys)
      modifies this`auctions, this`bids, this`callers, this`admins, this`answers
      ensures State() == t
    {
      auctions, bids, callers, admins, answers := t.db.auctions, t.db.bids, t.callers, t.admins, t.answers;
    }

    method Happens(c: CallerId, e: BidEvent)
      requires Valid() && (e.Caller? ==> e.c != c)
      modifies this
      ensures Valid() && PcOf(State(), c) == old(PcOf(State(), c))
    {
      hide AfterBids, EffectOf, Act, PerformBid;
      ghost var s := State();
      var t := BidStep(State(), e, cfg);
      Become(t);
      Note(s, e);
    }

    /** Anything the others do while call `c` waits: any number of events, in any order. */
    method Interleave(c: CallerId)
      requires Valid()
      modifies this
      ensures Valid() && PcOf(State(), c) == old(PcOf(State(), c))
    {
      var more: seq<BidEvent> := *;
      for k := 0 to |more|
        invariant Valid() && PcOf(State(), c) == old(PcOf(State(), c))
      {
        var e := more[k];
        if e.Caller? ==> e.c != c { Happens(c, e); }
      }
    }

    /** Call `c` goes on, or ends, without writing to the tables. */
    method Proceed(c: CallerId, work: BidWork)
      requires Valid() && !work.Save?
      modifies this
      ensures Valid() && Tables() == old(Tables())
      ensures var pc := old(PcOf(State(), c));
              match Act(Tables(), pc, work, cfg.window)
              case Go(next) => PcOf(State(), c) == next
              case Lost => PcOf(State(), c) == Free
              case Return(reply) => PcOf(State(), c) == Free && (!pc.Free? ==> Answered(c, pc.req, reply))
    {
      ghost var s := State();
      var t := StepCaller(State(), Tables(), c, work, cfg.window);
      Become(t);
      Note(s, Caller(c, work));
    }

    // ---- placeBid ---------------------------------------------------

    /** `findOne` by idempotency key, which may throw. */
    method FindByKey(c: CallerId, req: Request, ghost pc: BidPc, ghost next: BidPc) returns (found: Lookup)
      requires Valid() && PcOf(State(), c) == pc && LooksUp(pc, next, req)
      modifies this
      ensures Valid()
      ensures match found
              case Threw => Answered(c, req, Faulted)
              case Found(b) => b.key == req.key && Answered(c, req, ToResponse(b))
              case Missing => PcOf(State(), c) == next
    {
      Interleave(c);
      var throws: bool := *;
      if throws {
        Proceed(c, Fail);
        return Threw;
      }
      var row := FindKey(bids, req.key);
      Proceed(c, ReadKey);
      found := if row.Some? then Found(row.value) else Missing;
    }

    /** The call throws here. */
    method Throws(c: CallerId, req: Request) returns (reply: Reply)
      requires Valid() && !PcOf(State(), c).Free? && PcOf(State(), c).req == req
      modifies this
      ensures Valid() && reply == Faulted && Answered(c, req, reply)
    {
      hide AuctionHouse.Valid;
      Proceed(c, Fail);
      reply := Faulted;
    }

    /** `placeBid`: the reply is one the machine gives, an accepted one names a row with the request's
        key, and the amount it reports rounds to the amount in that row. */
    method PlaceBid(c: CallerId, req: Request) returns (reply: Reply)
      requires Valid() && PcOf(State(), c) == Free
      modifies this
      ensures Valid() && Answered(c, req, reply)
      ensures reply.Accepted? ==>
                && reply.id < |bids| && bids[reply.id].key == req.key
                && bids[reply.id].amount == RoundCents(reply.amount)
    {
      Proceed(c, Arrive(req));
      var existing := FindByKey(c, req, FastPath(req), Locking(req));
      if existing.Threw? {
        reply := Faulted;
      } else if existing.Found? {
        reply := ToResponse(existing.bid);
      } else {
        Interleave(c);
        var granted: bool := *;
        Proceed(c, Lock(granted));
        if granted { reply := BidUnderLock(c, req); } else { reply := Rejected(LockContention); }
      }
      AnswersBacked(Answer(req, reply));
    }

    /** Every answer given so far is backed by a row. */
    lemma AnswersBacked(x: Answer)
      requires Valid() && x in answers
      ensures Backed(bids, x)
    {
      RunKeeps(init, history, cfg);
      var i :| 0 <= i < |answers| && answers[i] == x;
    }

    /** Phases 3 to 5: the second look at the key, and the auction. */
    method BidUnderLock(c: CallerId, req: Request) returns (reply: Reply)
      requires Valid() && PcOf(State(), c) == Rechecking(req)
      modifies this
      ensures Valid() && Answered(c, req, reply)
    {
      hide AuctionHouse.Valid;
      var existing := FindByKey(c, req, Rechecking(req), Loading(req));
      if existing.Threw? { return Faulted; }
      if existing.Found? { return ToResponse(existing.bid); }

      Interleave(c);
      var throws: bool := *;
      if throws {
        reply := Throws(c, req);
      } else if req.auction !in auctions || auctions[req.auction].status != Live {
        Proceed(c, LoadRow);
        reply := Rejected(AuctionNotLive);
      } else {
        var auction := auctions[req.auction];
        Proceed(c, LoadRow);
        var answer, _, _, _ := Validate(c, req, auction);
        reply := answer;
      }
    }

    /** Phases 6 to 9: eligibility, consent, reference price and increment, in this order; the reply is the first
        reason that applies, for what the two queries said. */
    method Validate(c: CallerId, req: Request, auction: Auction)
      returns (reply: Reply, ghost threw: bool, ghost eligible: bool, ghost consented: bool)
      requires Valid() && PcOf(State(), c) == Screening(req, auction)
      modifies this
      ensures Valid() && Answered(c, req, reply)
      ensures threw ==> reply == Faulted
      ensures var refusal := BidCalls.RowRefusal(auction, req, eligible, consented);
              !threw && refusal.Some? ==> reply == Rejected(refusal.value)
    {
      hide AuctionHouse.Valid;
      Interleave(c);
      var throws: bool, isEligible: bool, hasConsent: bool := *, *, *;
      threw, eligible, consented := throws, isEligible, hasConsent;
      if throws {
        reply := Throws(c, req);
        return;
      }
      Proceed(c, Screen(isEligible, hasConsent));
      var currentPrice := if auction.currentPrice.Some? then auction.currentPrice.value else auction.startingPrice;
      if !isEligible {
        reply := Rejected(UserNotEligible);
      } else if !hasConsent {
        reply := Rejected(ConsentMissing);
      } else if req.reference != Some(currentPrice) {
        reply := Rejected(PriceChanged);
      } else if req.amount * 100.0 < (currentPrice + auction.minimumIncrement) as real {
        reply := Rejected(BelowMinimumIncrement);
      } else {
        reply := InsertAndUpdate(c, req, auction);
      }
    }

    /** Phases 10 to 13. */
    method InsertAndUpdate(c: CallerId, req: Request, auction: Auction) returns (reply: Reply)
      requires Valid() && PcOf(State(), c) == Deduplicating(req, auction)
      modifies this
      ensures Valid() && Answered(c, req, reply)
    {
      hide AuctionHouse.Valid;
      Interleave(c);
      var throws: bool := *;
      if throws {
        reply := Throws(c, req);
        return;
      }
      var duplicate := HasAmount(req);
      Proceed(c, ReadDuplicate);
      if duplicate { return Rejected(AmountAlreadyBid); }
      var serverTs: int, now: int, fate: Fate := *, *, *;
      Proceed(c, Prepare(serverTs, now));
      Interleave(c);
      reply := CommitBid(c, req, auction, serverTs, now, fate);
    }

    /** The query for a bid of the same amount. */
    method HasAmount(req: Request) returns (found: bool)
      ensures found <==> Duplicates(bids, req)
    {
      found := exists i | 0 <= i < |bids| ::
                 bids[i].auction == req.auction && bids[i].amount as real == req.amount * 100.0;
    }

    /** The writes of the transaction one by one: INSERT, the sniper check, UPDATE, COMMIT. */
    method WriteBid(req: Request, auction: Auction, serverTs: int, now: int, fate: Fate) returns (reply: Reply)
      requires CopyOk(Tables(), req.auction, auction) && Screened(auction, req)
      modifies this`auctions, this`bids
      ensures reply == SaveReply(old(Tables()), req, auction, now, fate, cfg.window)
      ensures Tables() == PerformBid(
                old(Tables()),
                SaveEffect(old(Tables()), Saving(req, auction, serverTs, now), fate, cfg.window), cfg.retryEdge)
    {
      var before := Tables();
      if FindKey(bids, req.key).Some? || !Fits(RoundCents(req.amount)) { return Faulted; }
      var saved := Bid(|bids|, req.auction, req.user, RoundCents(req.amount), req.key, serverTs, now);
      bids := bids + [saved];

      var row := auction.(currentPrice := Some(saved.amount), bidCount := auction.bidCount + 1);
      var extended := None;
      var effectiveEnd := if auction.extendedUntil.Some? then auction.extendedUntil else auction.scheduledEnd;
      if effectiveEnd.Some? && auction.status == Live {
        var remaining := effectiveEnd.value - now;
        if remaining > 0 && remaining <= cfg.window {
          extended := Some(now + cfg.window);
          row := row.(extendedUntil := extended);
        }
      }
      if auctions[req.auction].version != auction.version {
        bids := before.bids;
        return Rejected(PriceChanged);
      }
      row := row.(version := auction.version + 1);
      auctions := auctions[req.auction := row];
      if fate.Aborted? { auctions, bids := before.auctions, before.bids; }
      reply := if fate.Committed? then Accepted(saved.id, req.amount, row.bidCount, extended) else Faulted;
    }

    method CommitBid(c: CallerId, req: Request, auction: Auction, serverTs: int, now: int, fate: Fate)
      returns (reply: Reply)
      requires Valid() && PcOf(State(), c) == Saving(req, auction, serverTs, now)
      modifies this
      ensures Valid() && Answered(c, req, reply)
    {
      hide SaveEffect, SaveReply, Unbid, DbInv;
      ghost var s := State();
      RunKeeps(init, history, cfg);
      assert PcOk(Tables(), PcOf(State(), c));
      reply := WriteBid(req, auction, serverTs, now, fate);
      callers := callers[c := Free];
      answers := answers + [Answer(req, reply)];
      Note(s, Caller(c, Save(fate)));
    }

    // ---- The ending worker ------------------------------------------

    /** `transitionLiveToEnding`, under the row lock: a live auction is closed iff its end, extended or scheduled,
        has come, and the commit lands. */
    method TransitionLiveToEnding(a: AuctionId, now: int, fate: Fate)
      requires Valid()
      modifies this
      ensures Valid() && bids == old(bids)
      ensures Tables() == if Lands(fate)
                          then PerformBid(old(Tables()), EndingEffect(old(Tables()), a, now), cfg.retryEdge)
                          else old(Tables())
      ensures a in old(auctions) && old(auctions)[a].status == Live ==>
                var row := old(auctions)[a];
                var end := if row.extendedUntil.Some? then row.extendedUntil else row.scheduledEnd;
                auctions == if Lands(fate) && end.Some? && now >= end.value
                            then old(auctions)[a := row.(status := Ending, version := row.version + 1)]
                            else old(auctions)
    {
      hide AfterBids, BidRun;
      ghost var s := State();
      var before := auctions;
      if a in auctions && auctions[a].status == Live {
        var locked := auctions[a];
        var effectiveEnd := if locked.extendedUntil.Some? then locked.extendedUntil else locked.scheduledEnd;
        if effectiveEnd.Some? && effectiveEnd.value <= now {
          auctions := auctions[a := locked.(status := Ending, version := locked.version + 1)];
          if fate.Aborted? { auctions := before; }
        }
      }
      Note(s, ToEnding(a, now, fate));
    }

    /** The writes of the ENDING to ENDED transaction. */
    method WriteOutcome(a: AuctionId, now: int, fate: Fate)
      modifies this`auctions
      ensures Tables() == if Lands(fate)
                          then PerformBid(old(Tables()), EndedEffect(old(Tables()), a, now), cfg.retryEdge)
                          else old(Tables())
    {
      if a !in auctions || auctions[a].status != Ending { return; }
      var before, locked := auctions, auctions[a];
      var winningBid := Best(BidsOf(bids, a));
      var row := locked.(status := Ended, endedAt := Some(now), version := locked.version + 1);
      if winningBid.Some? {
        row := row.(finalPrice := Some(winningBid.value.amount), winnerId := Some(winningBid.value.user),
        winnerBidId := Some(winningBid.value.id));
      }
      auctions := auctions[a := row];
      if fate.Aborted? { auctions := before; }
    }

    /** `transitionEndingToEnded`, under the row lock: the winner is the auction's last committed bid. */
    method TransitionEndingToEnded(a: AuctionId, now: int, fate: Fate)
      requires Valid()
      modifies this
      ensures Valid() && bids == old(bids)
      ensures Tables() == if Lands(fate)
                          then PerformBid(old(Tables()), EndedEffect(old(Tables()), a, now), cfg.retryEdge)
                          else old(Tables())
      ensures Lands(fate) && a in old(auctions) && old(auctions)[a].status == Ending ==>
                && a in auctions && auctions[a].status == Ended && auctions[a].endedAt == Some(now)
                && Decided(auctions[a], BidsOf(bids, a))
    {
      hide AfterBids, EndedEffect, PerformBid, Decided, Undecided, BidsOf;
      ghost var s := State();
      if a in auctions && auctions[a].status == Ending {
        LastBidWins(a);
        EndedDecides(Tables(), a, now, cfg.retryEdge);
      }
      WriteOutcome(a, now, fate);
      NothingWritten(s.db, cfg.retryEdge);
      Note(s, ToEnded(a, now, fate));
    }

    lemma LastBidWins(a: AuctionId)
      requires Valid() && a in auctions && auctions[a].status == Ending
      ensures BidsOf(bids, a) != [] ==> Best(BidsOf(bids, a)) == Some(BidsOf(bids, a)[|BidsOf(bids, a)| - 1])
      ensures Undecided(auctions[a])
    {
      RunKeeps(init, history, cfg);
      assert RowOk(init[a], auctions[a], BidsOf(bids, a), cfg.window);
      if BidsOf(bids, a) != [] { LastIsBest(init[a].startingPrice, init[a].minimumIncrement, BidsOf(bids, a)); }
    }

    /** Anything at all happens: any number of events, in any order. */
    method Elapse()
      requires Valid()
      modifies this
      ensures Valid()
    {
      var more: seq<BidEvent> := *;
      for k := 0 to |more|
        invariant Valid()
      {
        hide AfterBids, BidStep;
        ghost var s := State();
        var t := BidStep(State(), more[k], cfg);
        Become(t);
        Note(s, more[k]);
      }
    }

    /** `processAuction`, for the copy the query returned, unless the lock is refused.  When no exception
        ends it early it never leaves the auction in ENDING, whatever happened to the row since. */
    method ProcessAuction(a: AuctionId, loaded: Auction, granted: bool) returns (ok: bool)
      requires Valid() && (loaded.status == Live || loaded.status == Ending)
      modifies this
      ensures Valid()
      ensures ok ==> granted && (a in auctions ==> auctions[a].status != Ending)
    {
      if !granted { return false; }
      Elapse();
      var now: int, fate: Fate := *, *;
      if loaded.status == Live {
        TransitionLiveToEnding(a, now, fate);
        if !fate.Committed? { return false; }
        Elapse();
        now, fate := *, *;
      }
      TransitionEndingToEnded(a, now, fate);
      ok := fate.Committed?;
    }

    /** `tick`: the auctions the query found past their end, one after the other. */
    method EndingTick(expired: seq<(AuctionId, Auction)>)
      requires Valid()
      requires forall i :: 0 <= i < |expired| ==> expired[i].1.status == Live || expired[i].1.status == Ending
      modifies this
      ensures Valid()
    {
      for i := 0 to |expired|
        invariant Valid()
      {
        var granted: bool := *;
        var _ := ProcessAuction(expired[i].0, expired[i].1, granted);
      }
    }

    // ---- updateStatus -----------------------------------------------

    /** A move of the table, from a copy that is current, is always saveable: the trigger admits it. */
    lemma WhatIsSaveable(k: AdminId, version: nat, to: AuctionStatus)
      requires Valid() && k in admins
      ensures Saveable(Tables(), admins[k], version, to, cfg.retryEdge)
              <==> && admins[k].copy.version == version && (admins[k].copy.status, to) in BY_HAND
                   && admins[k].auction in auctions && auctions[admins[k].auction] == admins[k].copy
    {
      hide AfterBids, DbInv;
      RunKeeps(init, history, cfg);
      assert CopyOk(Tables(), admins[k].auction, admins[k].copy);
      SaveableIff(Tables(), admins[k], version, to, cfg.retryEdge);
    }

    /** The save of `updateStatus`, rejected by the version or by the trigger. */
    method WriteStatus(x: AdminCopy, version: nat, to: AuctionStatus, now: int, fate: Fate) returns (saved: bool)
      modifies this`auctions
      ensures Tables() == if Lands(fate)
                          then PerformBid(old(Tables()), AdminEffect(old(Tables()), x, version, to, now), cfg.retryEdge)
                          else old(Tables())
      ensures saved ==> x.auction in auctions && auctions[x.auction].status == to
      ensures saved <==> fate.Committed? && Saveable(old(Tables()), x, version, to, cfg.retryEdge)
      ensures saved ==> auctions[x.auction] == x.copy.(status := to, version := version + 1, endedAt :=
                          if to == Ended || to == Cancelled then Some(now) else x.copy.endedAt)
    {
      var a, auction, before := x.auction, x.copy, auctions;
      saved := false;
      if auction.version == version && ManualMove(auction.status, to)
         && a in auctions && auctions[a].version == auction.version {
        var row := auction.(status := to, version := auction.version + 1);
        if to == Ended || to == Cancelled { row := row.(endedAt := Some(now)); }
        if TriggerAdmits(auctions[a], row, cfg.retryEdge) {
          auctions := auctions[a := row];
          if fate.Aborted? { auctions := before; }
          saved := fate.Committed?;
        }
      }
    }

    /** `updateStatus`, from the copy it loaded: the version the administrator saw, the table of allowed
        moves, and the save. */
    method UpdateStatus(k: AdminId, version: nat, to: AuctionStatus, now: int, fate: Fate) returns (saved: bool)
      requires Valid() && k in admins
      modifies this
      ensures Valid() && bids == old(bids)
      ensures Tables() == if Lands(fate)
                          then PerformBid(old(Tables()),
                                          AdminEffect(old(Tables()), old(admins)[k], version, to, now), cfg.retryEdge)
                          else old(Tables())
      ensures saved ==> old(admins)[k].auction in auctions && auctions[old(admins)[k].auction].status == to
      ensures var x := old(admins)[k];
              saved <==> && fate.Committed? && x.copy.version == version && (x.copy.status, to) in BY_HAND
                         && x.auction in old(auctions) && old(auctions)[x.auction] == x.copy
      ensures var x := old(admins)[k];
              saved ==> auctions[x.auction] == x.copy.(status := to, version := version + 1, endedAt :=
                          if to == Ended || to == Cancelled then Some(now) else x.copy.endedAt)
    {
      hide AfterBids, AdminEffect, PerformBid, Saveable;
      ghost var s := State();
      WhatIsSaveable(k, version, to);
      saved := WriteStatus(admins[k], version, to, now, fate);
      admins := admins - {k};
      NothingWritten(s.db, cfg.retryEdge);
      Note(s, AdminSave(k, version, to, now, fate));
    }
  }

  /** The version is the one the administrator saw and still the row's, the table has the move, and the trigger
      admits it. */
  predicate Saveable(db: BidDb, x: AdminCopy, version: nat, to: AuctionStatus, retryEdge: bool) {
    && x.copy.version == version && ManualMove(x.copy.status, to) && VersionMatches(db, x.auction, x.copy)
    && TriggerAdmits(db.auctions[x.auction], ManualRow(x.copy, to, 0), retryEdge)
  }

  lemma SaveableIff(db: BidDb, x: AdminCopy, version: nat, to: AuctionStatus, retryEdge: bool)
    requires CopyOk(db, x.auction, x.copy)
    ensures Saveable(db, x, version, to, retryEdge)
            <==> && x.copy.version == version && (x.copy.status, to) in BY_HAND
                 && x.auction in db.auctions && db.auctions[x.auction] == x.copy
  {
    TablesCompared(x.copy, to, 0, retryEdge);
  }

  lemma NothingWritten(db: BidDb, retryEdge: bool)
    ensures PerformBid(db, NoWrite, retryEdge) == db
  {
  }

  /** Ending an auction on its last bid fills in the outcome. */
  lemma EndedDecides(db: BidDb, a: AuctionId, now: int, retryEdge: bool)
    requires a in db.auctions && db.auctions[a].status == Ending && Undecided(db.auctions[a])
    requires var bs := BidsOf(db.bids, a); bs != [] ==> Best(bs) == Some(bs[|bs| - 1])
    ensures var db' := PerformBid(db, EndedEffect(db, a, now), retryEdge);
            && a in db'.auctions && db'.auctions[a].status == Ended && db'.auctions[a].endedAt == Some(now)
            && Decided(db'.auctions[a], BidsOf(db.bids, a))
  {
  }
}
