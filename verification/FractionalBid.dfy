/**
 Whole runs that show three things the code allows: a bid is accepted after the effective end
 while the auction is still live; an amount with a fraction of a cent is echoed in the reply
 but stored rounded; and an auction with a bid can end without a winner, by hand.
 */
module FractionalBid {
  import opened Wrappers
  import opened Auctions
  import opened Bidding
  import opened BiddingInvariants
  import opened BiddingTheorems
  import opened BidCalls
  import opened Winner

  const OPEN_AUCTION := Auction(Live, 10000, 1, None, 0, Some(0), None, None, None, None, None, 1)

  /** The auction with the one bid. */
  const BID_ON := OPEN_AUCTION.(currentPrice := Some(10001), bidCount := 1, version := 2)

  function Opening(): map<AuctionId, Auction> {
    map[0 := OPEN_AUCTION]
  }

  /** 100.014, where the minimum is 100.01. */
  const OFFER := Request(0, 7, 100.014, Some(10000), 5)

  const SETTINGS := Config(60000, false)

  /** Decided a second after the end. */
  function LateBid(): seq<BidEvent> {
    ByCaller(0, WholeCall(OFFER, true, true, true, 1000, 1000))
  }

  lemma OfferRounds()
    ensures RoundCents(100.014) == 10001
  {
  }

  lemma BidRunEnds()
    ensures var s := AfterBids(Opening(), LateBid(), SETTINGS);
            && s.answers == [Answer(OFFER, Accepted(0, 100.014, 1, None))]
            && s.db == BidDb(map[0 := BID_ON], [Bid(0, 0, 7, 10001, 5, 1000, 1000)])
  {
    hide Moves, WholeCall, BidStep, RoundCents;
    var s := BidSys(BidDb(Opening(), []), map[], map[], []);
    RunMoves(s, 0, WholeCall(OFFER, true, true, true, 1000, 1000), SETTINGS);
    OfferRounds();
    CallMoves(CallOf(s, 0), OFFER, true, true, true, 1000, 1000, SETTINGS);
  }

  /** The bid is decided a second after the effective end, is accepted, and does not extend the auction;
      the reply says 100.014 and the row says 100.01. */
  lemma LateFractionalBid()
    ensures Unbid(Opening())
    ensures var s := AfterBids(Opening(), LateBid(), SETTINGS);
            && s.answers == [Answer(OFFER, Accepted(0, 100.014, 1, None))]
            && |s.db.bids| == 1 && s.db.bids[0].amount == 10001
            && s.db.bids[0].decidedAt > EffectiveEnd(OPEN_AUCTION).value
            && s.db.bids[0].amount as real != s.answers[0].reply.amount * 100.0
            && 0 in s.db.auctions && EffectiveEnd(s.db.auctions[0]) == EffectiveEnd(OPEN_AUCTION)
  {
    BidRunEnds();
  }

  // ---- Ended by hand --------------------------------------------------

  lemma HandSteps(s: BidSys, t: BidSys, u: BidSys, v: BidSys)
    requires s.db == BidDb(map[0 := BID_ON], s.db.bids)
    requires t == BidStep(s, ToEnding(0, 1000, Committed), SETTINGS)
    requires u == BidStep(t, AdminLoad(1, 0), SETTINGS)
    requires v == BidStep(u, AdminSave(1, 3, Ended, 2000, Committed), SETTINGS)
    ensures u.db.auctions == map[0 := WithStatus(BID_ON, Ending)]
    ensures v.db == BidDb(map[0 := ManualRow(WithStatus(BID_ON, Ending), Ended, 2000)], s.db.bids)
  {
    assert t.db.auctions == map[0 := WithStatus(BID_ON, Ending)];
    assert u.admins[1] == AdminCopy(0, WithStatus(BID_ON, Ending));
  }

  /** The same auction with its bid goes to ENDING, and an administrator ends it: the bid stays and there
      is no winner. */
  lemma EndedByHandWithABid()
    ensures Unbid(Opening())
    ensures var ev := LateBid()
                      + [ToEnding(0, 1000, Committed), AdminLoad(1, 0), AdminSave(1, 3, Ended, 2000, Committed)];
            && EndedByHand(Opening(), ev, SETTINGS, 0)
            && RowAfter(Opening(), ev, SETTINGS, 0).status == Ended
            && Undecided(RowAfter(Opening(), ev, SETTINGS, 0))
            && |BidsAfter(Opening(), ev, SETTINGS, 0)| == 1
  {
    var e0 := LateBid();
    var e1 := e0 + [ToEnding(0, 1000, Committed)];
    var e2 := e1 + [AdminLoad(1, 0)];
    var e3 := e2 + [AdminSave(1, 3, Ended, 2000, Committed)];
    BidRunEnds();
    AfterOneMore(Opening(), e0, ToEnding(0, 1000, Committed), SETTINGS);
    AfterOneMore(Opening(), e1, AdminLoad(1, 0), SETTINGS);
    AfterOneMore(Opening(), e2, AdminSave(1, 3, Ended, 2000, Committed), SETTINGS);
    HandSteps(AfterBids(Opening(), e0, SETTINGS), AfterBids(Opening(), e1, SETTINGS),
              AfterBids(Opening(), e2, SETTINGS), AfterBids(Opening(), e3, SETTINGS));
    assert e3[..|e3| - 1] == e2;
    var b := Bid(0, 0, 7, 10001, 5, 1000, 1000);
    assert [b][..0] == [];
    assert BidsOf([b], 0) == [b];
    assert e3 == e0 + [ToEnding(0, 1000, Committed), AdminLoad(1, 0), AdminSave(1, 3, Ended, 2000, Committed)];
    HandVerdict(e2, e3);
  }

  lemma HandVerdict(e2: seq<BidEvent>, e3: seq<BidEvent>)
    requires |e3| > 0 && e3[..|e3| - 1] == e2 && AsksToEnd(e3[|e3| - 1]) && Unbid(Opening())
    requires RowAfter(Opening(), e2, SETTINGS, 0).status == Ending
    requires RowAfter(Opening(), e3, SETTINGS, 0).status == Ended
    ensures EndedByHand(Opening(), e3, SETTINGS, 0)
  {
  }
}
