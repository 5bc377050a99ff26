/**
 The reconciliation report of the finance controller, and why an auction settled by the
 pipeline passes it.  Amounts are exact cents, so the 0.01 tolerance is equality.
 */
module Reconcile {
  import opened Wrappers
  import opened Auctions
  import opened Settlement
  import opened SettlementMachine
  import opened SettlementBooks
  import opened SettlementRuns
  import opened SettlementTheorems
  import opened SettlementOutcome

  datatype CheckName =
    | ManifestExists | NoStuckHeldDeposits | NoStuckRefundPending
    | WinnerDepositCaptured | CapturedAmountSufficient | NoWinnerNoCapture
    | AllLosersRefunded | RefundBalance
    | CapturedLedgerEntries | RefundedLedgerEntries | ManifestDepositConsistency

  datatype Check = Check(name: CheckName, pass: bool)

  datatype Report = Report(checks: seq<Check>, pass: bool)

  // ---- What each check asks -------------------------------------------

  predicate OfAuction(db: Db, a: AuctionId, d: DepositId) {
    d in db.deposits && db.deposits[d].auction == a
  }

  /** `ids` lists the auction's deposits, each once, in the order the query returned them. */
  ghost predicate Lists(db: Db, a: AuctionId, ids: seq<DepositId>) {
    && (forall d :: OfAuction(db, a, d) <==> d in ids)
    && (forall i, j :: 0 <= i < j < |ids| ==> ids[i] != ids[j])
  }

  function CountDeposits(db: Db, ids: seq<DepositId>, st: DepositStatus): nat {
    if ids == [] then 0
    else CountDeposits(db, ids[..|ids| - 1], st) + if StatusOf(db, ids[|ids| - 1]) == Some(st) then 1 else 0
  }

  function SumDeposits(db: Db, ids: seq<DepositId>, st: DepositStatus): int {
    if ids == [] then 0
    else
      var d := ids[|ids| - 1];
      SumDeposits(db, ids[..|ids| - 1], st)
      + if StatusOf(db, d) == Some(st) then db.deposits[d].amount else 0
  }

  function SumAll(db: Db, ids: seq<DepositId>): int {
    if ids == [] then 0
    else
      var d := ids[|ids| - 1];
      SumAll(db, ids[..|ids| - 1]) + if d in db.deposits then db.deposits[d].amount else 0
  }

  function CountRows(rows: seq<LedgerRow>, ids: seq<DepositId>, e: DepositEvent): nat {
    if rows == [] then 0
    else
      var r := rows[|rows| - 1];
      CountRows(rows[..|rows| - 1], ids, e) + if r.event == e && r.deposit in ids then 1 else 0
  }

  predicate WinnersCaptured(db: Db, a: AuctionId, d: DepositId)
    requires a in db.auctions
  {
    && OfAuction(db, a, d) && db.deposits[d].status == Captured
    && db.auctions[a].winnerId == Some(db.deposits[d].user)
  }

  predicate ConsistentItem(db: Db, a: AuctionId, it: Item) {
    it.status == Acknowledged ==>
      OfAuction(db, a, it.deposit) && db.deposits[it.deposit].status == Goal(it.action)
  }

  /** The meaning of each check, over the tables. */
  ghost predicate Passes(db: Db, a: AuctionId, ids: seq<DepositId>, c: CheckName)
    requires a in db.auctions
  {
    match c
    case ManifestExists => a in db.manifests
    case NoStuckHeldDeposits => forall d :: OfAuction(db, a, d) ==> db.deposits[d].status != Held
    case NoStuckRefundPending => forall d :: OfAuction(db, a, d) ==> db.deposits[d].status != RefundPending
    case WinnerDepositCaptured => exists d :: WinnersCaptured(db, a, d)
    case CapturedAmountSufficient =>
      exists d :: WinnersCaptured(db, a, d) && db.auctions[a].finalPrice.Some?
                  && db.deposits[d].amount >= db.auctions[a].finalPrice.value
    case NoWinnerNoCapture => forall d :: OfAuction(db, a, d) ==> db.deposits[d].status != Captured
    case AllLosersRefunded =>
      forall d :: OfAuction(db, a, d) && db.auctions[a].winnerId != Some(db.deposits[d].user) ==>
                    db.deposits[d].status == Refunded
    case RefundBalance => SumDeposits(db, ids, Refunded) == SumAll(db, ids) - SumDeposits(db, ids, Captured)
    case CapturedLedgerEntries => CountRows(db.ledger, ids, DepositCaptured) == CountDeposits(db, ids, Captured)
    case RefundedLedgerEntries => CountRows(db.ledger, ids, DepositRefunded) == CountDeposits(db, ids, Refunded)
    case ManifestDepositConsistency =>
      a in db.manifests ==>
        forall i :: 0 <= i < |db.manifests[a].items| ==> ConsistentItem(db, a, db.manifests[a].items[i])
  }

  /** Which checks the report contains, in order. */
  ghost function Names(db: Db, a: AuctionId, ids: seq<DepositId>): seq<CheckName>
    requires a in db.auctions
  {
    [ManifestExists, NoStuckHeldDeposits, NoStuckRefundPending]
    + WinnerNames(db, a, ids)
    + [AllLosersRefunded, RefundBalance, CapturedLedgerEntries, RefundedLedgerEntries]
    + if a in db.manifests then [ManifestDepositConsistency] else []
  }

  ghost function WinnerNames(db: Db, a: AuctionId, ids: seq<DepositId>): seq<CheckName>
    requires a in db.auctions
  {
    if db.auctions[a].winnerId.None? then [NoWinnerNoCapture]
    else if db.auctions[a].finalPrice.Some? && Passes(db, a, ids, WinnerDepositCaptured)
    then [WinnerDepositCaptured, CapturedAmountSufficient]
    else [WinnerDepositCaptured]
  }

  /** The checks carry these names, and each is true iff the tables satisfy it. */
  ghost predicate Verdicts(db: Db, a: AuctionId, ids: seq<DepositId>, names: seq<CheckName>, checks: seq<Check>)
    requires a in db.auctions
  {
    |checks| == |names|
    && forall i :: 0 <= i < |names| ==>
         checks[i].name == names[i] && (checks[i].pass <==> Passes(db, a, ids, names[i]))
  }

  /** The table's UNIQUE (user_id, auction_id) constraint. */
  ghost predicate OneDepositEach(db: Db) {
    forall d, e :: d in db.deposits && e in db.deposits && d != e
                   && db.deposits[d].auction == db.deposits[e].auction ==>
      db.deposits[d].user != db.deposits[e].user
  }

  // ---- What that comes to ---------------------------------------------

  function DepositsOf(db: Db, a: AuctionId): set<DepositId> {
    set d | d in db.deposits && db.deposits[d].auction == a
  }

  function DepositsIn(db: Db, a: AuctionId, st: DepositStatus): set<DepositId> {
    set d | d in db.deposits && db.deposits[d].auction == a && db.deposits[d].status == st
  }

  /** The rows of the ledger, by their position, that record the event for one of these deposits. */
  function RowsAbout(rows: seq<LedgerRow>, ids: set<DepositId>, e: DepositEvent): set<nat> {
    set i | 0 <= i < |rows| && rows[i].event == e && rows[i].deposit in ids
  }

  /** The deposits that the manifest says the action is done for. */
  function SaidDone(items: seq<Item>, act: Action): set<DepositId> {
    set i | 0 <= i < |items| && items[i].status == Acknowledged && items[i].action == act :: items[i].deposit
  }

  /** The total of the deposits that are neither captured nor refunded. */
  function Unaccounted(db: Db, ids: seq<DepositId>): int {
    if ids == [] then 0
    else
      var d := ids[|ids| - 1];
      Unaccounted(db, ids[..|ids| - 1])
      + if d in db.deposits && db.deposits[d].status != Captured && db.deposits[d].status != Refunded
        then db.deposits[d].amount else 0
  }

  /** The same checks told from the sets of deposits in each status, not from the list the query returned. */
  ghost predicate Holds(db: Db, a: AuctionId, ids: seq<DepositId>, c: CheckName)
    requires a in db.auctions
  {
    var winner := db.auctions[a].winnerId;
    match c
    case ManifestExists => a in db.manifests.Keys
    case NoStuckHeldDeposits => DepositsIn(db, a, Held) == {}
    case NoStuckRefundPending => DepositsIn(db, a, RefundPending) == {}
    case WinnerDepositCaptured => exists d :: d in DepositsIn(db, a, Captured) && Some(db.deposits[d].user) == winner
    case CapturedAmountSufficient =>
      exists d :: d in DepositsIn(db, a, Captured) && Some(db.deposits[d].user) == winner
                  && db.auctions[a].finalPrice.Some? && db.auctions[a].finalPrice.value <= db.deposits[d].amount
    case NoWinnerNoCapture => DepositsIn(db, a, Captured) == {}
    case AllLosersRefunded =>
      forall d :: d in DepositsOf(db, a) - DepositsIn(db, a, Refunded) ==> Some(db.deposits[d].user) == winner
    case RefundBalance => Unaccounted(db, ids) == 0
    case CapturedLedgerEntries =>
      |RowsAbout(db.ledger, DepositsOf(db, a), DepositCaptured)| == |DepositsIn(db, a, Captured)|
    case RefundedLedgerEntries =>
      |RowsAbout(db.ledger, DepositsOf(db, a), DepositRefunded)| == |DepositsIn(db, a, Refunded)|
    case ManifestDepositConsistency =>
      a in db.manifests ==>
        && SaidDone(db.manifests[a].items, Capture) <= DepositsIn(db, a, Captured)
        && SaidDone(db.manifests[a].items, Refund) <= DepositsIn(db, a, Refunded)
  }

  lemma {:induction false} GapIsUnaccounted(db: Db, ids: seq<DepositId>)
    ensures SumAll(db, ids) - SumDeposits(db, ids, Captured) - SumDeposits(db, ids, Refunded) == Unaccounted(db, ids)
  {
    if ids != [] { GapIsUnaccounted(db, ids[..|ids| - 1]); }
  }

  lemma {:induction false} CountIsSize(db: Db, ids: seq<DepositId>, st: DepositStatus, found: set<DepositId>)
    requires forall i, j :: 0 <= i < j < |ids| ==> ids[i] != ids[j]
    requires forall d :: d in found <==> d in ids && StatusOf(db, d) == Some(st)
    ensures CountDeposits(db, ids, st) == |found|
  {
    if ids == [] {
      assert found == {};
    } else {
      var k := |ids| - 1;
      assert ids == ids[..k] + [ids[k]];
      CountIsSize(db, ids[..k], st, found - {ids[k]});
    }
  }

  lemma OneRowMore(rows: seq<LedgerRow>, own: set<DepositId>, e: DepositEvent)
    requires rows != []
    ensures var k := |rows| - 1;
            |RowsAbout(rows, own, e)|
            == |RowsAbout(rows[..k], own, e)| + if rows[k].event == e && rows[k].deposit in own then 1 else 0
  {
    var k := |rows| - 1;
    var before, all := RowsAbout(rows[..k], own, e), RowsAbout(rows, own, e);
    forall i ensures i in before <==> i in all && i != k {
      if 0 <= i < k { assert rows[..k][i] == rows[i]; }
    }
    if rows[k].event == e && rows[k].deposit in own { assert all == before + {k}; } else { assert all == before; }
  }

  lemma {:induction false} RowsAreSize(rows: seq<LedgerRow>, ids: seq<DepositId>, own: set<DepositId>, e: DepositEvent)
    requires forall d :: d in own <==> d in ids
    ensures CountRows(rows, ids, e) == |RowsAbout(rows, own, e)|
  {
    if rows == [] {
      assert RowsAbout(rows, own, e) == {};
    } else {
      var k := |rows| - 1;
      RowsAreSize(rows[..k], ids, own, e);
      OneRowMore(rows, own, e);
    }
  }

  lemma CountsHold(db: Db, a: AuctionId, ids: seq<DepositId>, e: DepositEvent, st: DepositStatus)
    requires a in db.auctions && Lists(db, a, ids)
    ensures CountRows(db.ledger, ids, e) == |RowsAbout(db.ledger, DepositsOf(db, a), e)|
    ensures CountDeposits(db, ids, st) == |DepositsIn(db, a, st)|
  {
    forall d ensures d in DepositsIn(db, a, st) <==> d in ids && StatusOf(db, d) == Some(st) {
      assert OfAuction(db, a, d) <==> d in ids;
    }
    CountIsSize(db, ids, st, DepositsIn(db, a, st));
    forall d ensures d in DepositsOf(db, a) <==> d in ids { assert OfAuction(db, a, d) <==> d in ids; }
    RowsAreSize(db.ledger, ids, DepositsOf(db, a), e);
  }

  lemma ItemsHold(db: Db, a: AuctionId, items: seq<Item>)
    ensures (forall i :: 0 <= i < |items| ==> ConsistentItem(db, a, items[i]))
            <==> && SaidDone(items, Capture) <= DepositsIn(db, a, Captured)
                 && SaidDone(items, Refund) <= DepositsIn(db, a, Refunded)
  {
    var captured, refunded := DepositsIn(db, a, Captured), DepositsIn(db, a, Refunded);
    if SaidDone(items, Capture) <= captured && SaidDone(items, Refund) <= refunded {
      forall i | 0 <= i < |items| ensures ConsistentItem(db, a, items[i]) {
        if items[i].status == Acknowledged { assert items[i].deposit in SaidDone(items, items[i].action); }
      }
    }
  }

  lemma StatusHolds(db: Db, a: AuctionId, st: DepositStatus)
    ensures DepositsIn(db, a, st) == {} <==> forall d :: OfAuction(db, a, d) ==> db.deposits[d].status != st
  {
    if forall d :: OfAuction(db, a, d) ==> db.deposits[d].status != st {
      forall d ensures d !in DepositsIn(db, a, st) { assert OfAuction(db, a, d) ==> db.deposits[d].status != st; }
    } else {
      var d :| OfAuction(db, a, d) && db.deposits[d].status == st;
      assert d in DepositsIn(db, a, st);
    }
  }

  lemma WinnerHolds(db: Db, a: AuctionId, ids: seq<DepositId>, c: CheckName)
    requires a in db.auctions && c in {WinnerDepositCaptured, CapturedAmountSufficient, AllLosersRefunded}
    ensures Passes(db, a, ids, c) <==> Holds(db, a, ids, c)
  {
    var winner := db.auctions[a].winnerId;
    var captured := DepositsIn(db, a, Captured);
    forall d ensures WinnersCaptured(db, a, d) <==> d in captured && Some(db.deposits[d].user) == winner {}
    forall d ensures OfAuction(db, a, d) <==> d in DepositsOf(db, a) {}
    if c == AllLosersRefunded && Holds(db, a, ids, c) {
      forall d | OfAuction(db, a, d) && winner != Some(db.deposits[d].user) ensures db.deposits[d].status == Refunded {
        assert d in DepositsIn(db, a, Refunded);
      }
    }
  }

  /** Each check by itself: it passes iff what it stands for holds of the tables. */
  lemma PassesIffHolds(db: Db, a: AuctionId, ids: seq<DepositId>, c: CheckName)
    requires a in db.auctions && Lists(db, a, ids)
    ensures Passes(db, a, ids, c) <==> Holds(db, a, ids, c)
  {
    hide SumAll, SumDeposits, CountRows, CountDeposits, Unaccounted, DepositsIn, DepositsOf, RowsAbout, SaidDone, Lists;
    match c
    case ManifestExists =>
    case NoStuckHeldDeposits => StatusHolds(db, a, Held);
    case NoStuckRefundPending => StatusHolds(db, a, RefundPending);
    case NoWinnerNoCapture => StatusHolds(db, a, Captured);
    case RefundBalance => GapIsUnaccounted(db, ids);
    case CapturedLedgerEntries => CountsHold(db, a, ids, DepositCaptured, Captured);
    case RefundedLedgerEntries => CountsHold(db, a, ids, DepositRefunded, Refunded);
    case ManifestDepositConsistency => if a in db.manifests { ItemsHold(db, a, db.manifests[a].items); }
    case _ => WinnerHolds(db, a, ids, c);
  }

  lemma {:induction false} UnaccountedPositive(db: Db, ids: seq<DepositId>)
    requires forall i :: 0 <= i < |ids| ==> ids[i] in db.deposits && db.deposits[ids[i]].amount > 0
    ensures Unaccounted(db, ids) >= 0
    ensures Unaccounted(db, ids) == 0
            <==> forall i :: 0 <= i < |ids| ==>
                   db.deposits[ids[i]].status == Captured || db.deposits[ids[i]].status == Refunded
  {
    if ids != [] {
      var k := |ids| - 1;
      assert ids == ids[..k] + [ids[k]];
      UnaccountedPositive(db, ids[..k]);
      assert forall i :: 0 <= i < k ==> ids[..k][i] == ids[i];
    }
  }

  /** Deposits being of positive amounts, the refunds balance iff every deposit was captured or refunded, in
      whatever state the auction is. */
  lemma BalanceIffNoneLeft(db: Db, a: AuctionId, ids: seq<DepositId>)
    requires a in db.auctions && Lists(db, a, ids)
    requires forall d :: d in DepositsOf(db, a) ==> db.deposits[d].amount > 0
    ensures Passes(db, a, ids, RefundBalance)
            <==> DepositsOf(db, a) == DepositsIn(db, a, Captured) + DepositsIn(db, a, Refunded)
  {
    hide SumAll, SumDeposits, Unaccounted;
    GapIsUnaccounted(db, ids);
    forall d ensures d in DepositsOf(db, a) <==> d in ids { assert OfAuction(db, a, d) <==> d in ids; }
    assert forall i :: 0 <= i < |ids| ==> ids[i] in ids;
    UnaccountedPositive(db, ids);
    if DepositsOf(db, a) == DepositsIn(db, a, Captured) + DepositsIn(db, a, Refunded) {
      forall i | 0 <= i < |ids|
        ensures db.deposits[ids[i]].status == Captured || db.deposits[ids[i]].status == Refunded
      {
        assert ids[i] in DepositsOf(db, a);
      }
    }
  }

  /** Which checks the report carries: those about the winner and the manifest only if there is one, and the
      one about the amount only if there is a price and a captured deposit of the winner. */
  ghost predicate Applies(db: Db, a: AuctionId, c: CheckName)
    requires a in db.auctions
  {
    var winner := db.auctions[a].winnerId;
    match c
    case WinnerDepositCaptured => winner.Some?
    case CapturedAmountSufficient =>
      && winner.Some? && db.auctions[a].finalPrice.Some?
      && exists d :: d in DepositsIn(db, a, Captured) && Some(db.deposits[d].user) == winner
    case NoWinnerNoCapture => winner.None?
    case ManifestDepositConsistency => a in db.manifests
    case _ => true
  }

  lemma WinnerNamesExactly(db: Db, a: AuctionId, ids: seq<DepositId>, c: CheckName)
    requires a in db.auctions
    ensures c in WinnerNames(db, a, ids)
            <==> c in {WinnerDepositCaptured, CapturedAmountSufficient, NoWinnerNoCapture} && Applies(db, a, c)
  {
    hide Passes, DepositsIn;
    WinnerHolds(db, a, ids, WinnerDepositCaptured);
  }

  lemma InSix(w: seq<CheckName>, last: seq<CheckName>, c: CheckName)
    ensures c in [ManifestExists, NoStuckHeldDeposits, NoStuckRefundPending] + w
                 + [AllLosersRefunded, RefundBalance, CapturedLedgerEntries, RefundedLedgerEntries] + last
            <==> c in {ManifestExists, NoStuckHeldDeposits, NoStuckRefundPending, AllLosersRefunded, RefundBalance,
                       CapturedLedgerEntries, RefundedLedgerEntries} || c in w || c in last
  {
    var three := [ManifestExists, NoStuckHeldDeposits, NoStuckRefundPending];
    var four := [AllLosersRefunded, RefundBalance, CapturedLedgerEntries, RefundedLedgerEntries];
    assert c in three <==> c == three[0] || c == three[1] || c == three[2];
    assert c in four <==> c == four[0] || c == four[1] || c == four[2] || c == four[3];
  }

  /** The report carries exactly the checks that apply. */
  lemma NamesExactly(db: Db, a: AuctionId, ids: seq<DepositId>, c: CheckName)
    requires a in db.auctions
    ensures c in Names(db, a, ids) <==> Applies(db, a, c)
  {
    hide WinnerNames;
    WinnerNamesExactly(db, a, ids, c);
    InSix(WinnerNames(db, a, ids), if a in db.manifests then [ManifestDepositConsistency] else [], c);
  }

  /** A failed auction whose one deposit, a loser's 1000, is still held although the manifest says it was
      refunded. */
  function Unrefunded(): Db {
    Db(map[0 := Auction(SettlementFailed, 100, 1, Some(5000), 1, Some(0), None,
                        Some(5000), Some(7), Some(0), Some(0), 3)],
       map[], map[0 := Deposit(0, 8, 1000, Held)], [], [], map[],
       map[0 := Manifest(0, [Item(0, 8, Refund, 1000, Acknowledged, Key(0, 0, Refund), 0)], Escalated, 1, 1, 0)])
  }

  /** Tables for which the balance and the manifest check fail. */
  lemma UnrefundedFails()
    ensures Lists(Unrefunded(), 0, [0])
    ensures !Passes(Unrefunded(), 0, [0], RefundBalance)
    ensures !Passes(Unrefunded(), 0, [0], ManifestDepositConsistency)
  {
    var db := Unrefunded();
    GapIsUnaccounted(db, [0]);
    assert [0][..0] == [];
    assert Unaccounted(db, [0]) == 1000;
    assert !ConsistentItem(db, 0, db.manifests[0].items[0]);
  }

  // ---- The controller -------------------------------------------------

  method Tally(db: Db, ids: seq<DepositId>, st: DepositStatus) returns (count: nat, sum: int)
    ensures count == CountDeposits(db, ids, st) && sum == SumDeposits(db, ids, st)
    ensures count == 0 <==> forall i :: 0 <= i < |ids| ==> StatusOf(db, ids[i]) != Some(st)
  {
    count, sum := 0, 0;
    for i := 0 to |ids|
      invariant count == CountDeposits(db, ids[..i], st) && sum == SumDeposits(db, ids[..i], st)
      invariant count == 0 <==> forall k :: 0 <= k < i ==> StatusOf(db, ids[k]) != Some(st)
    {
      assert ids[..i + 1][..i] == ids[..i];
      if StatusOf(db, ids[i]) == Some(st) {
        count, sum := count + 1, sum + db.deposits[ids[i]].amount;
      }
    }
    assert ids[..|ids|] == ids;
  }

  method Total(db: Db, ids: seq<DepositId>) returns (sum: int)
    ensures sum == SumAll(db, ids)
  {
    sum := 0;
    for i := 0 to |ids|
      invariant sum == SumAll(db, ids[..i])
    {
      assert ids[..i + 1][..i] == ids[..i];
      if ids[i] in db.deposits { sum := sum + db.deposits[ids[i]].amount; }
    }
    assert ids[..|ids|] == ids;
  }

  method TallyRows(rows: seq<LedgerRow>, ids: seq<DepositId>, e: DepositEvent) returns (count: nat)
    ensures count == CountRows(rows, ids, e)
  {
    count := 0;
    for i := 0 to |rows|
      invariant count == CountRows(rows[..i], ids, e)
    {
      assert rows[..i + 1][..i] == rows[..i];
      if rows[i].event == e && rows[i].deposit in ids { count := count + 1; }
    }
    assert rows[..|rows|] == rows;
  }

  /** `deposits.find`: the first deposit of the list that is the winner's and captured. */
  method FindWinners(db: Db, a: AuctionId, ids: seq<DepositId>) returns (found: Option<DepositId>)
    requires a in db.auctions && Lists(db, a, ids)
    ensures found.Some? <==> exists d :: WinnersCaptured(db, a, d)
    ensures found.Some? ==> WinnersCaptured(db, a, found.value)
  {
    found := None;
    for i := 0 to |ids|
      invariant found.None? ==> forall k :: 0 <= k < i ==> !WinnersCaptured(db, a, ids[k])
      invariant found.Some? ==> WinnersCaptured(db, a, found.value)
    {
      if found.None? && WinnersCaptured(db, a, ids[i]) { found := Some(ids[i]); }
    }
    assert forall d :: WinnersCaptured(db, a, d) ==> d in ids;
  }

  method LosersRefunded(db: Db, a: AuctionId, ids: seq<DepositId>) returns (ok: bool)
    requires a in db.auctions && Lists(db, a, ids)
    ensures ok <==> Passes(db, a, ids, AllLosersRefunded)
  {
    ok := true;
    assert forall k :: 0 <= k < |ids| ==> ids[k] in ids && OfAuction(db, a, ids[k]);
    for i := 0 to |ids|
      invariant ok <==> forall k :: 0 <= k < i ==> LoserRefunded(db, a, ids[k])
    {
      ok := ok && LoserRefunded(db, a, ids[i]);
    }
    forall d | ok && OfAuction(db, a, d) ensures LoserRefunded(db, a, d) {
      assert d in ids;
    }
  }

  predicate LoserRefunded(db: Db, a: AuctionId, d: DepositId)
    requires a in db.auctions
  {
    OfAuction(db, a, d) && db.auctions[a].winnerId != Some(db.deposits[d].user) ==>
      db.deposits[d].status == Refunded
  }

  method Mismatches(db: Db, a: AuctionId, items: seq<Item>, ids: seq<DepositId>) returns (n: nat)
    requires Lists(db, a, ids)
    ensures n == 0 <==> forall i :: 0 <= i < |items| ==> ConsistentItem(db, a, items[i])
  {
    n := 0;
    for i := 0 to |items|
      invariant n == 0 <==> forall k :: 0 <= k < i ==> ConsistentItem(db, a, items[k])
    {
      var it := items[i];
      if it.status == Acknowledged {
        if it.deposit !in ids { n := n + 1; }
        else if db.deposits[it.deposit].status != Goal(it.action) { n := n + 1; }
      }
    }
  }

  lemma ListedStatus(db: Db, a: AuctionId, ids: seq<DepositId>, st: DepositStatus)
    requires Lists(db, a, ids)
    ensures (forall i :: 0 <= i < |ids| ==> StatusOf(db, ids[i]) != Some(st))
            <==> (forall d :: OfAuction(db, a, d) ==> db.deposits[d].status != st)
  {
    if forall i :: 0 <= i < |ids| ==> StatusOf(db, ids[i]) != Some(st) {
      forall d | OfAuction(db, a, d) ensures db.deposits[d].status != st {
        assert d in ids;
      }
    } else {
      var i :| 0 <= i < |ids| && StatusOf(db, ids[i]) == Some(st);
      assert OfAuction(db, a, ids[i]);
    }
  }

  /** Checks 1 to 3. */
  method OpeningChecks(db: Db, a: AuctionId, ids: seq<DepositId>) returns (checks: seq<Check>)
    requires a in db.auctions && Lists(db, a, ids)
    ensures Verdicts(db, a, ids, [ManifestExists, NoStuckHeldDeposits, NoStuckRefundPending], checks)
  {
    var held, _ := Tally(db, ids, Held);
    var pending, _ := Tally(db, ids, RefundPending);
    ListedStatus(db, a, ids, Held);
    ListedStatus(db, a, ids, RefundPending);
    checks := [Check(ManifestExists, a in db.manifests),
               Check(NoStuckHeldDeposits, held == 0),
               Check(NoStuckRefundPending, pending == 0)];
  }

  /** Checks 4 and 5.  With one deposit each, the first match of `find` is the only one. */
  method WinnerChecks(db: Db, a: AuctionId, ids: seq<DepositId>) returns (checks: seq<Check>)
    requires a in db.auctions && Lists(db, a, ids) && OneDepositEach(db)
    ensures Verdicts(db, a, ids, WinnerNames(db, a, ids), checks)
  {
    var auction := db.auctions[a];
    if auction.winnerId.None? {
      var captured, _ := Tally(db, ids, Captured);
      ListedStatus(db, a, ids, Captured);
      checks := [Check(NoWinnerNoCapture, captured == 0)];
    } else {
      var found := FindWinners(db, a, ids);
      checks := [Check(WinnerDepositCaptured, found.Some?)];
      if found.Some? && auction.finalPrice.Some? {
        checks := checks
        + [Check(CapturedAmountSufficient, db.deposits[found.value].amount >= auction.finalPrice.value)];
      }
    }
  }

  /** Checks 6 to 8. */
  method BalanceChecks(db: Db, a: AuctionId, ids: seq<DepositId>) returns (checks: seq<Check>)
    requires a in db.auctions && Lists(db, a, ids)
    ensures Verdicts(db, a, ids,
                     [AllLosersRefunded, RefundBalance, CapturedLedgerEntries, RefundedLedgerEntries], checks)
  {
    var losers := LosersRefunded(db, a, ids);
    var captured, capturedSum := Tally(db, ids, Captured);
    var refunded, refundedSum := Tally(db, ids, Refunded);
    var total := Total(db, ids);
    var capturedRows := TallyRows(db.ledger, ids, DepositCaptured);
    var refundedRows := TallyRows(db.ledger, ids, DepositRefunded);
    checks := [Check(AllLosersRefunded, losers),
               Check(RefundBalance, refundedSum == total - capturedSum),
               Check(CapturedLedgerEntries, capturedRows == captured),
               Check(RefundedLedgerEntries, refundedRows == refunded)];
  }

  lemma VerdictsJoin(db: Db, a: AuctionId, ids: seq<DepositId>,
                     names: seq<CheckName>, checks: seq<Check>, more: seq<CheckName>, others: seq<Check>)
    requires a in db.auctions && Verdicts(db, a, ids, names, checks) && Verdicts(db, a, ids, more, others)
    ensures Verdicts(db, a, ids, names + more, checks + others)
  {
    hide Passes;
  }

  lemma VerdictsAll(db: Db, a: AuctionId, ids: seq<DepositId>, names: seq<CheckName>, checks: seq<Check>)
    requires a in db.auctions && Verdicts(db, a, ids, names, checks)
    ensures (forall k :: 0 <= k < |checks| ==> checks[k].pass) <==> (forall n :: n in names ==> Passes(db, a, ids, n))
  {
    hide Passes;
    if forall k :: 0 <= k < |checks| ==> checks[k].pass {
      forall n | n in names ensures Passes(db, a, ids, n) {
        var k :| 0 <= k < |names| && names[k] == n;
        assert checks[k].pass;
      }
    } else {
      var k :| 0 <= k < |checks| && !checks[k].pass;
      assert names[k] in names && !Passes(db, a, ids, names[k]);
    }
  }

  lemma VerdictsHold(db: Db, a: AuctionId, ids: seq<DepositId>, names: seq<CheckName>, checks: seq<Check>)
    requires a in db.auctions && Lists(db, a, ids) && Verdicts(db, a, ids, names, checks)
    ensures forall k :: 0 <= k < |checks| ==> (checks[k].pass <==> Holds(db, a, ids, checks[k].name))
  {
    hide Passes, Holds, Lists;
    forall k | 0 <= k < |checks| ensures checks[k].pass <==> Holds(db, a, ids, checks[k].name) {
      PassesIffHolds(db, a, ids, names[k]);
    }
  }

  /** Check 9. */
  method ManifestCheck(db: Db, a: AuctionId, ids: seq<DepositId>) returns (checks: seq<Check>)
    requires a in db.auctions && Lists(db, a, ids)
    ensures Verdicts(db, a, ids, if a in db.manifests then [ManifestDepositConsistency] else [], checks)
  {
    checks := [];
    if a in db.manifests {
      var n := Mismatches(db, a, db.manifests[a].items, ids);
      checks := [Check(ManifestDepositConsistency, n == 0)];
    }
  }

  /** `reconcile`: nothing for an unknown auction, otherwise one verdict per applicable check, each
      true iff the tables satisfy it, and an overall verdict; and each verdict by itself is true iff what
      the check stands for holds of the sets of deposits. */
  method Reconcile(db: Db, a: AuctionId, ids: seq<DepositId>) returns (r: Option<Report>)
    requires Lists(db, a, ids) && OneDepositEach(db)
    ensures r.Some? <==> a in db.auctions
    ensures r.Some? ==>
              && Verdicts(db, a, ids, Names(db, a, ids), r.value.checks)
              && (r.value.pass <==> forall n :: n in Names(db, a, ids) ==> Passes(db, a, ids, n))
              && forall k :: 0 <= k < |r.value.checks| ==>
                   (r.value.checks[k].pass <==> Holds(db, a, ids, r.value.checks[k].name))
  {
    hide Passes, Verdicts, WinnerNames, Lists, OneDepositEach, Holds;
    if a !in db.auctions { return None; }
    var opening := OpeningChecks(db, a, ids);
    var winner := WinnerChecks(db, a, ids);
    var balance := BalanceChecks(db, a, ids);
    var manifest := ManifestCheck(db, a, ids);
    var checks := opening + winner + balance + manifest;
    ghost var names := [ManifestExists, NoStuckHeldDeposits, NoStuckRefundPending];
    VerdictsJoin(db, a, ids, names, opening, WinnerNames(db, a, ids), winner);
    names := names + WinnerNames(db, a, ids);
    VerdictsJoin(db, a, ids, names, opening + winner,
                 [AllLosersRefunded, RefundBalance, CapturedLedgerEntries, RefundedLedgerEntries], balance);
    names := names + [AllLosersRefunded, RefundBalance, CapturedLedgerEntries, RefundedLedgerEntries];
    VerdictsJoin(db, a, ids, names, opening + winner + balance,
                 if a in db.manifests then [ManifestDepositConsistency] else [], manifest);
    VerdictsAll(db, a, ids, Names(db, a, ids), checks);
    VerdictsHold(db, a, ids, Names(db, a, ids), checks);
    var pass := true;
    for i := 0 to |checks|
      invariant pass <==> forall k :: 0 <= k < i ==> checks[k].pass
    {
      pass := pass && checks[i].pass;
    }
    return Some(Report(checks, pass));
  }
}
