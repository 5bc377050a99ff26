/**
 The settlement data model: deposits with their append-only logs, refund rows keyed by
 idempotency key, and the settlement manifest with one item per deposit.
 */
module Settlement {
  import opened Wrappers
  import opened Auctions

  type DepositId = nat

  const MAX_RETRIES: nat := 3
  const ITEMS_PER_TICK: nat := 5
  const MAX_MANIFESTS_PER_TICK: nat := 3
  const MEMORY_SAFETY_ITEMS_LIMIT: nat := 500
  const MANIFEST_EXPIRY_MS: nat := 48 * 3600 * 1000
  const DB_MAX_RETRIES: nat := 3

  datatype DepositStatus = Collected | Held | Captured | RefundPending | Refunded | DepositExpired

  datatype Deposit = Deposit(auction: AuctionId, user: UserId, amount: int, status: DepositStatus)

  /** True iff the deposit trigger (migration 011) lets the status change from `o` to `n`. */
  predicate DepositTriggerAdmits(o: DepositStatus, n: DepositStatus) {
    n != o ==>
      || (o == Collected && n == Held)
      || (o == Held && (n == Captured || n == RefundPending || n == DepositExpired))
      || (o == RefundPending && n == Refunded)
  }

  datatype Action = Capture | Refund

  /** The string `settlement:<auction>:<deposit>:<action>`; its parts contain no colon. */
  datatype Key = Key(auction: AuctionId, deposit: DepositId, action: Action)

  datatype DepositEvent =
    | DepositCollected | DepositHeld
    | DepositCaptured | DepositRefundInitiated | DepositRefunded

  datatype TransitionRow = TransitionRow(
    deposit: DepositId, from: Option<DepositStatus>, to: DepositStatus, event: DepositEvent, key: Option<Key>)

  datatype LedgerRow = LedgerRow(deposit: DepositId, event: DepositEvent, amount: int, key: Option<Key>)

  datatype RefundStatus = RefundOpen | RefundCompleted

  datatype RefundRow = RefundRow(deposit: DepositId, amount: int, status: RefundStatus)

  datatype ItemStatus = Pending | Sent | Acknowledged | Failed

  datatype Item = Item(
    deposit: DepositId, user: UserId, action: Action, amount: int,
    status: ItemStatus, key: Key, retries: nat)

  datatype ManifestStatus = Active | Completed | ManifestExpired | Escalated

  datatype Manifest = Manifest(
    auction: AuctionId, items: seq<Item>, status: ManifestStatus,
    total: nat, acked: nat, expiresAt: int)

  datatype Participant = Participant(user: UserId, deposit: DepositId, eligible: bool)

  /** The rows of the database that settlement reads or writes. */
  datatype Db = Db(
    auctions: map<AuctionId, Auction>,
    participants: map<AuctionId, seq<Participant>>,
    deposits: map<DepositId, Deposit>,
    transitions: seq<TransitionRow>,
    ledger: seq<LedgerRow>,
    refunds: map<Key, RefundRow>,
    manifests: map<AuctionId, Manifest>)

  function DepositOf(db: Db, d: DepositId): Option<Deposit> {
    if d in db.deposits then Some(db.deposits[d]) else None
  }

  function StatusOf(db: Db, d: DepositId): Option<DepositStatus> {
    if d in db.deposits then Some(db.deposits[d].status) else None
  }

  // ---- Manifest items -------------------------------------------------

  /** The worker loop picks an item up iff it is pending or a failure with attempts left. */
  predicate Processable(it: Item) {
    it.status == Pending || (it.status == Failed && it.retries < MAX_RETRIES)
  }

  predicate Exhausted(it: Item) {
    it.status == Failed && it.retries >= MAX_RETRIES
  }

  function Fail(it: Item): Item {
    it.(status := Failed, retries := it.retries + 1)
  }

  function Ack(it: Item): Item {
    it.(status := Acknowledged)
  }

  function AckCount(items: seq<Item>): (n: nat)
    ensures n <= |items|
    ensures n == |items| <==> forall i :: 0 <= i < |items| ==> items[i].status == Acknowledged
  {
    if items == [] then 0
    else
      var k := |items| - 1;
      var n := AckCount(items[..k]);
      assert items == items[..k] + [items[k]];
      n + if items[k].status == Acknowledged then 1 else 0
  }

  predicate AnyExhausted(items: seq<Item>) {
    exists i :: 0 <= i < |items| && Exhausted(items[i])
  }

  // ---- Initiation -----------------------------------------------------

  /** The action for a user: only the auction's winner is charged. */
  function ActionFor(auction: Auction, user: UserId): Action {
    if auction.winnerId == Some(user) then Capture else Refund
  }

  function NewItem(db: Db, a: AuctionId, p: Participant): Item
    requires a in db.auctions && p.deposit in db.deposits
  {
    var act := ActionFor(db.auctions[a], p.user);
    Item(p.deposit, p.user, act, db.deposits[p.deposit].amount, Pending, Key(a, p.deposit, act), 0)
  }

  /** A participant enters the manifest iff eligible with a deposit that is held. */
  predicate Qualifies(db: Db, p: Participant) {
    p.eligible && StatusOf(db, p.deposit) == Some(Held)
  }

  function PlanItems(db: Db, a: AuctionId, ps: seq<Participant>): seq<Item>
    requires a in db.auctions
  {
    if ps == [] then []
    else
      var k := |ps| - 1;
      PlanItems(db, a, ps[..k]) + if Qualifies(db, ps[k]) then [NewItem(db, a, ps[k])] else []
  }

  function ParticipantsOf(db: Db, a: AuctionId): seq<Participant> {
    if a in db.participants then db.participants[a] else []
  }

  function NewManifest(db: Db, a: AuctionId, now: int): Manifest
    requires a in db.auctions
  {
    var items := PlanItems(db, a, ParticipantsOf(db, a));
    Manifest(a, items, Active, |items|, 0, now + MANIFEST_EXPIRY_MS)
  }

  predicate CanInitiate(db: Db, a: AuctionId) {
    a in db.auctions && db.auctions[a].status == Ended && a !in db.manifests
  }

  function InitiateTx(db: Db, a: AuctionId, now: int): Db {
    if CanInitiate(db, a) then
      db.(manifests := db.manifests[a := NewManifest(db, a, now)],
      auctions := db.auctions[a := WithStatus(db.auctions[a], Settling)])
    else db
  }

  // ---- The three money transactions -----------------------------------

  function CaptureTx(db: Db, it: Item): Db {
    var d := it.deposit;
    if StatusOf(db, d) == Some(Held) then
      db.(deposits := db.deposits[d := db.deposits[d].(status := Captured)],
      transitions := db.transitions + [TransitionRow(d, Some(Held), Captured, DepositCaptured, Some(it.key))],
      ledger := db.ledger + [LedgerRow(d, DepositCaptured, db.deposits[d].amount, Some(it.key))])
    else db
  }

  /** The refund row's key is unique, so a second row for it raises and rolls back. */
  predicate RefundInitRaises(db: Db, it: Item) {
    StatusOf(db, it.deposit) == Some(Held) && it.key in db.refunds
  }

  function RefundInitTx(db: Db, it: Item): Db {
    var d := it.deposit;
    if StatusOf(db, d) == Some(Held) && !RefundInitRaises(db, it) then
      db.(deposits := db.deposits[d := db.deposits[d].(status := RefundPending)],
      transitions := db.transitions
      + [TransitionRow(d, Some(Held), RefundPending, DepositRefundInitiated, Some(it.key))],
      ledger := db.ledger + [LedgerRow(d, DepositRefundInitiated, db.deposits[d].amount, Some(it.key))],
      refunds := db.refunds[it.key := RefundRow(d, db.deposits[d].amount, RefundOpen)])
    else db
  }

  function RefundDoneTx(db: Db, it: Item): Db {
    var d := it.deposit;
    if StatusOf(db, d) == Some(RefundPending) then
      db.(deposits := db.deposits[d := db.deposits[d].(status := Refunded)],
      transitions := db.transitions
      + [TransitionRow(d, Some(RefundPending), Refunded, DepositRefunded, Some(it.key))],
      ledger := db.ledger + [LedgerRow(d, DepositRefunded, db.deposits[d].amount, Some(it.key))],
      refunds := if it.key in db.refunds
      then db.refunds[it.key := db.refunds[it.key].(status := RefundCompleted)] else db.refunds)
    else db
  }

  // ---- Manifest and auction transactions ------------------------------

  /** `save` writes every column of the in-memory copy over the stored row. */
  function SaveTx(db: Db, m: Manifest): Db {
    db.(manifests := db.manifests[m.auction := m])
  }

  predicate AuctionSettling(db: Db, a: AuctionId) {
    a in db.auctions && db.auctions[a].status == Settling
  }

  /** Complete or escalate: both rows or neither, and only while the auction is settling. */
  function CloseTx(db: Db, m: Manifest, to: AuctionStatus): Db {
    if AuctionSettling(db, m.auction) then
      SaveTx(db.(auctions := db.auctions[m.auction := WithStatus(db.auctions[m.auction], to)]), m)
    else db
  }

  /** Expiry and the oversize guard save the manifest whatever the auction's status is. */
  function ForceCloseTx(db: Db, m: Manifest): Db {
    if AuctionSettling(db, m.auction) then CloseTx(db, m, SettlementFailed) else SaveTx(db, m)
  }

  datatype Verdict = AllAcknowledged | RetriesExhausted | InProgress

  function Judge(items: seq<Item>): Verdict {
    if AckCount(items) == |items| then AllAcknowledged
    else if AnyExhausted(items) then RetriesExhausted
    else InProgress
  }

  /** `finalizeManifest`: complete, escalate, or record progress. */
  function FinalizeTx(db: Db, m: Manifest): Db {
    var n := AckCount(m.items);
    match Judge(m.items)
    case AllAcknowledged => CloseTx(db, m.(status := Completed, acked := n), Settled)
    case RetriesExhausted => CloseTx(db, m.(status := Escalated, acked := n), SettlementFailed)
    case InProgress => SaveTx(db, m.(acked := n))
  }

  // ---- Admin retry ----------------------------------------------------

  function ResetItem(it: Item): Item {
    if it.status == Failed
    then it.(status := Pending, retries := if it.retries >= MAX_RETRIES then 0 else it.retries)
    else it
  }

  function ResetItems(items: seq<Item>): (r: seq<Item>)
    ensures |r| == |items|
    ensures forall i :: 0 <= i < |items| ==> r[i] == ResetItem(items[i])
  {
    if items == [] then [] else ResetItems(items[..|items| - 1]) + [ResetItem(items[|items| - 1])]
  }

  predicate AnyFailed(items: seq<Item>) {
    exists i :: 0 <= i < |items| && items[i].status == Failed
  }

  /** The retry commits iff its copy is escalated with a failed item, the auction has failed,
      and the trigger admits the way back. */
  predicate CanRetry(db: Db, m: Manifest, retryEdge: bool) {
    && m.status == Escalated
    && m.auction in db.auctions
    && db.auctions[m.auction].status == SettlementFailed
    && AnyFailed(m.items)
    && TriggerAdmits(db.auctions[m.auction], WithStatus(db.auctions[m.auction], Settling), retryEdge)
  }

  function RetryTx(db: Db, m: Manifest, retryEdge: bool): Db {
    if CanRetry(db, m, retryEdge) then
      SaveTx(db.(auctions := db.auctions[m.auction := WithStatus(db.auctions[m.auction], Settling)]),
             m.(items := ResetItems(m.items), status := Active))
    else db
  }

  // ---- Other writers of the auction row -------------------------------

  /** The ending worker closing an auction on its best bid. */
  function ConcludeTx(db: Db, a: AuctionId, winner: Option<(BidId, UserId, int)>, now: int): Db {
    if a in db.auctions && db.auctions[a].status == Ending
    then db.(auctions := db.auctions[a := EndedRow(db.auctions[a], winner, now)])
    else db
  }

  /** `updateStatus`. */
  function ManualTx(db: Db, a: AuctionId, to: AuctionStatus, now: int): Db {
    if a in db.auctions && ManualMove(db.auctions[a].status, to)
    then db.(auctions := db.auctions[a := ManualRow(db.auctions[a], to, now)])
    else db
  }
}
