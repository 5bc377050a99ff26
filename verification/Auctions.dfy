/**
 The auction row, the trigger that guards every UPDATE of it (migration 020), and the
 row writes made by the service.  Money is an integer number of cents and time an integer
 number of milliseconds.
 */
module Auctions {
  import opened Wrappers

  type AuctionId = nat
  type UserId = nat
  type BidId = nat

  datatype AuctionStatus =
    | Draft | Scheduled | DepositOpen | Live | Ending | Ended
    | Settling | Settled | SettlementFailed | Cancelled

  datatype Auction = Auction(
    status: AuctionStatus,
    startingPrice: int,
    minimumIncrement: int,
    currentPrice: Option<int>,
    bidCount: nat,
    scheduledEnd: Option<int>,
    extendedUntil: Option<int>,
    finalPrice: Option<int>,
    winnerId: Option<UserId>,
    winnerBidId: Option<BidId>,
    endedAt: Option<int>,
    version: nat)

  /** The columns the trigger freezes while an auction is being settled. */
  predicate SameOutcome(o: Auction, n: Auction) {
    && n.finalPrice == o.finalPrice
    && n.winnerId == o.winnerId
    && n.winnerBidId == o.winnerBidId
    && n.endedAt == o.endedAt
  }

  /** The forward-only table at the end of the trigger.  `retryEdge` adds the one edge the
      admin retry needs and the shipped trigger does not have. */
  predicate ValidTransition(o: AuctionStatus, n: AuctionStatus, retryEdge: bool) {
    match o
    case Draft => n == Scheduled || n == Cancelled
    case Scheduled => n == DepositOpen || n == Live || n == Cancelled
    case DepositOpen => n == Live || n == Cancelled
    case Live => n == Ending || n == Cancelled
    case Ending => n == Ended || n == Cancelled
    case Ended => n == Settling
    case Settling => n == Settled || n == SettlementFailed
    case SettlementFailed => n == Settled || (retryEdge && n == Settling)
    case Settled => false
    case Cancelled => false
  }

  /** True iff the trigger lets the row change from `o` to `n` without raising. */
  predicate TriggerAdmits(o: Auction, n: Auction, retryEdge: bool) {
    && (o.status == Settled ==> n.status == o.status)
    && (o.status == Cancelled ==> n.status == o.status)
    && (o.status == Settling ==>
          && SameOutcome(o, n)
          && (n.status != o.status ==> n.status == Settled || n.status == SettlementFailed))
    && (o.status == SettlementFailed ==>
          && SameOutcome(o, n)
          && (n.status != o.status ==> n.status == Settled || (retryEdge && n.status == Settling)))
    && (o.status == Ended && n.status != o.status ==> n.status == Settling)
    && (o.status == Ending && n.status != o.status ==> n.status == Ended || n.status == Cancelled)
    && (n.status != o.status ==> ValidTransition(o.status, n.status, retryEdge))
  }

  /** How far an auction is along its life; the two ways to finish share the top. */
  function Rank(s: AuctionStatus): nat {
    match s
    case Draft => 0
    case Scheduled => 1
    case DepositOpen => 2
    case Live => 3
    case Ending => 4
    case Ended => 5
    case Settling => 6
    case SettlementFailed => 7
    case Settled => 8
    case Cancelled => 8
  }

  /** Settlement has begun: only the settlement code (or an administrator) moves on from here. */
  predicate InSettlement(s: AuctionStatus) {
    s == Settling || s == Settled || s == SettlementFailed
  }

  /** An auction-row save that changes only the status. Every save bumps the version. */
  function WithStatus(a: Auction, s: AuctionStatus): Auction {
    a.(status := s, version := a.version + 1)
  }

  /** The moves an administrator may ask for through `updateStatus`. */
  predicate ManualMove(o: AuctionStatus, n: AuctionStatus) {
    match o
    case Draft => n == Scheduled
    case Scheduled => n == Live
    case Live => n == Ending || n == Cancelled
    case Ending => n == Ended || n == Cancelled
    case Ended => n == Settling
    case Settling => n == Settled || n == SettlementFailed
    case SettlementFailed => n == Settled
    case _ => false
  }

  /** The row `updateStatus` saves; ending and cancelling stamp `endedAt`. */
  function ManualRow(a: Auction, n: AuctionStatus, now: int): Auction {
    var b := WithStatus(a, n);
    if n == Ended || n == Cancelled then b.(endedAt := Some(now)) else b
  }

  /** The row the ending worker saves when it closes the auction on its best bid. */
  function EndedRow(a: Auction, winner: Option<(BidId, UserId, int)>, now: int): Auction {
    var b := WithStatus(a, Ended).(endedAt := Some(now));
    match winner
    case None => b
    case Some((bid, user, amount)) =>
      b.(finalPrice := Some(amount), winnerId := Some(user), winnerBidId := Some(bid))
  }
}
