/**
 The invariant of the rows and of the gateway, and its preservation by every effect.
 `init` is the database when the run starts; a deposit is tracked iff it was held then.
 */
module SettlementBooks {
  import opened Wrappers
  import opened Auctions
  import opened Settlement
  import opened SettlementMachine

  // ---- Rows of one deposit --------------------------------------------

  function TransitionsOf(rows: seq<TransitionRow>, d: DepositId): seq<TransitionRow> {
    if rows == [] then []
    else TransitionsOf(rows[..|rows| - 1], d)
         + if rows[|rows| - 1].deposit == d then [rows[|rows| - 1]] else []
  }

  function LedgerOf(rows: seq<LedgerRow>, d: DepositId): seq<LedgerRow> {
    if rows == [] then []
    else LedgerOf(rows[..|rows| - 1], d)
         + if rows[|rows| - 1].deposit == d then [rows[|rows| - 1]] else []
  }

  lemma AppendTransition(rows: seq<TransitionRow>, r: TransitionRow, d: DepositId)
    ensures TransitionsOf(rows + [r], d)
         == TransitionsOf(rows, d) + if r.deposit == d then [r] else []
  {
    assert (rows + [r])[..|rows|] == rows;
  }

  lemma AppendLedger(rows: seq<LedgerRow>, r: LedgerRow, d: DepositId)
    ensures LedgerOf(rows + [r], d) == LedgerOf(rows, d) + if r.deposit == d then [r] else []
  {
    assert (rows + [r])[..|rows|] == rows;
  }

  // ---- What the books of a deposit must be ----------------------------

  ghost predicate Tracked(init: Db, d: DepositId) {
    StatusOf(init, d) == Some(Held)
  }

  function PlannedAction(db: Db, dep: Deposit): Action {
    if dep.auction in db.auctions then ActionFor(db.auctions[dep.auction], dep.user) else Refund
  }

  /** The one idempotency key a deposit may ever be moved under. */
  function KeyFor(db: Db, d: DepositId): Key
    requires d in db.deposits
  {
    Key(db.deposits[d].auction, d, PlannedAction(db, db.deposits[d]))
  }

  function SettlementTransitions(d: DepositId, st: DepositStatus, k: Key): seq<TransitionRow> {
    match st
    case Captured => [TransitionRow(d, Some(Held), Captured, DepositCaptured, Some(k))]
    case RefundPending =>
      [TransitionRow(d, Some(Held), RefundPending, DepositRefundInitiated, Some(k))]
    case Refunded =>
      [TransitionRow(d, Some(Held), RefundPending, DepositRefundInitiated, Some(k)),
       TransitionRow(d, Some(RefundPending), Refunded, DepositRefunded, Some(k))]
    case _ => []
  }

  function SettlementLedger(d: DepositId, st: DepositStatus, amount: int, k: Key): seq<LedgerRow> {
    match st
    case Captured => [LedgerRow(d, DepositCaptured, amount, Some(k))]
    case RefundPending => [LedgerRow(d, DepositRefundInitiated, amount, Some(k))]
    case Refunded =>
      [LedgerRow(d, DepositRefundInitiated, amount, Some(k)), LedgerRow(d, DepositRefunded, amount, Some(k))]
    case _ => []
  }

  predicate InRefund(st: DepositStatus) {
    st == RefundPending || st == Refunded
  }

  function OpenRefund(d: DepositId, amount: int, st: DepositStatus): RefundRow {
    RefundRow(d, amount, if st == Refunded then RefundCompleted else RefundOpen)
  }

  /** Every settlement row about `d` is accounted for by its status, and nothing is missing. */
  ghost predicate Books(init: Db, db: Db, d: DepositId)
    requires d in db.deposits
  {
    var dep := db.deposits[d];
    var k := KeyFor(db, d);
    && TransitionsOf(db.transitions, d)
       == TransitionsOf(init.transitions, d) + SettlementTransitions(d, dep.status, k)
    && LedgerOf(db.ledger, d)
       == LedgerOf(init.ledger, d) + SettlementLedger(d, dep.status, dep.amount, k)
    && (forall key :: key in db.refunds && (key.deposit == d || db.refunds[key].deposit == d) ==>
          key == k && InRefund(dep.status) && db.refunds[key] == OpenRefund(d, dep.amount, dep.status))
    && (InRefund(dep.status) ==> k in db.refunds && k.action == Refund)
    && (dep.status == Captured ==> k.action == Capture)
    && (dep.status != Held ==> dep.auction in db.manifests)
  }

  /** Deposits keep their owner, auction and amount; only tracked ones ever move. */
  ghost predicate DepositsKept(init: Db, db: Db) {
    && db.deposits.Keys == init.deposits.Keys
    && (forall d :: d in db.deposits ==>
          && db.deposits[d].(status := init.deposits[d].status) == init.deposits[d]
          && (Tracked(init, d) ==>
                var st := db.deposits[d].status;
                st == Held || st == Captured || st == RefundPending || st == Refunded)
          && (!Tracked(init, d) ==> db.deposits[d] == init.deposits[d]))
  }

  // ---- Manifests ------------------------------------------------------

  /** The item is the plan for its deposit: right owner, amount, action and key. */
  ghost predicate Planned(init: Db, db: Db, a: AuctionId, it: Item) {
    && Tracked(init, it.deposit)
    && it.deposit in db.deposits
    && db.deposits[it.deposit].auction == a
    && db.deposits[it.deposit].user == it.user
    && db.deposits[it.deposit].amount == it.amount
    && it.key == KeyFor(db, it.deposit)
    && it.action == it.key.action
  }

  predicate DistinctDeposits(items: seq<Item>) {
    forall i, j :: 0 <= i < j < |items| ==> items[i].deposit != items[j].deposit
  }

  ghost predicate Plan(init: Db, db: Db, a: AuctionId, items: seq<Item>) {
    && (forall i :: 0 <= i < |items| ==> Planned(init, db, a, items[i]))
    && DistinctDeposits(items)
  }

  /** An acknowledged item's deposit is where the item says it is. */
  predicate TruthfulItem(db: Db, it: Item) {
    it.status == Acknowledged ==> StatusOf(db, it.deposit) == Some(Goal(it.action))
  }

  predicate Truthful(db: Db, items: seq<Item>) {
    forall i :: 0 <= i < |items| ==> TruthfulItem(db, items[i])
  }

  predicate NoSent(items: seq<Item>) {
    forall i :: 0 <= i < |items| ==> items[i].status != Sent
  }

  /** The columns of an item that are fixed when the manifest is created. */
  function Static(it: Item): Item {
    it.(status := Pending, retries := 0)
  }

  predicate SamePlan(xs: seq<Item>, ys: seq<Item>) {
    |xs| == |ys| && forall i :: 0 <= i < |xs| ==> Static(xs[i]) == Static(ys[i])
  }

  /** A copy of a manifest, wherever it is held: the stored plan, truthfully acknowledged. */
  predicate CopyOf(db: Db, m: Manifest) {
    && m.auction in db.manifests
    && SamePlan(m.items, db.manifests[m.auction].items)
    && m.total == |m.items|
    && m.acked <= m.total
    && Truthful(db, m.items)
  }

  ghost predicate Stored(init: Db, db: Db, a: AuctionId)
    requires a in db.manifests
  {
    var m := db.manifests[a];
    && m.auction == a
    && a in db.auctions
    && InSettlement(db.auctions[a].status)
    && Plan(init, db, a, m.items)
    && CopyOf(db, m)
    && NoSent(m.items)
  }

  // ---- The gateway ----------------------------------------------------

  ghost predicate SoundRequest(init: Db, db: Db, r: PosRequest) {
    var d := r.key.deposit;
    && Tracked(init, d)
    && d in db.deposits
    && r == PosRequest(KeyFor(db, d), db.deposits[d].amount)
    && db.deposits[d].auction in db.manifests
    && (r.key.action == Refund ==> InRefund(db.deposits[d].status))
  }

  ghost predicate GatewaySound(init: Db, x: World) {
    && (forall i :: 0 <= i < |x.pos.requests| ==> SoundRequest(init, x.db, x.pos.requests[i]))
    && x.pos.approved <= x.pos.moved
    && (forall k :: k in x.pos.moved ==> WasRequested(x.pos, k))
    && (forall d :: d in x.db.deposits && Tracked(init, d)
                    && (x.db.deposits[d].status == Captured || x.db.deposits[d].status == Refunded) ==>
          KeyFor(x.db, d) in x.pos.approved)
  }

  // ---- The start ------------------------------------------------------

  /** What the rest of the system guarantees when a run starts: no settlement has begun, each
      participant's deposit is their own, for that auction, and used once (the table's UNIQUE
      constraints), and nothing about a held deposit is in the refund table yet. */
  ghost predicate CleanStart(db: Db) {
    && db.manifests == map[]
    && (forall a :: a in db.auctions ==> !InSettlement(db.auctions[a].status))
    && (forall a, i :: a in db.participants && 0 <= i < |db.participants[a]|
                       && db.participants[a][i].deposit in db.deposits ==>
          OwnDeposit(db, a, db.participants[a][i]))
    && (forall a, i, j :: a in db.participants && 0 <= i < j < |db.participants[a]| ==>
          db.participants[a][i].deposit != db.participants[a][j].deposit)
    && (forall d, e :: d in db.deposits && e in db.deposits && d != e
                       && db.deposits[d].auction == db.deposits[e].auction ==>
          db.deposits[d].user != db.deposits[e].user)
    && (forall k :: k in db.refunds ==> !Tracked(db, k.deposit) && !Tracked(db, db.refunds[k].deposit))
    && (forall i :: 0 <= i < |db.ledger| && Tracked(db, db.ledger[i].deposit) ==>
          !IsSettlementEvent(db.ledger[i].event))
    && (forall i :: 0 <= i < |db.transitions| && Tracked(db, db.transitions[i].deposit) ==>
          !IsSettlementEvent(db.transitions[i].event))
  }

  predicate OwnDeposit(db: Db, a: AuctionId, p: Participant)
    requires p.deposit in db.deposits
  {
    db.deposits[p.deposit].auction == a && db.deposits[p.deposit].user == p.user
  }

  predicate IsSettlementEvent(e: DepositEvent) {
    e == DepositCaptured || e == DepositRefundInitiated || e == DepositRefunded
  }

  // ---- The invariant --------------------------------------------------

  ghost predicate WorldInv(init: Db, x: World) {
    && CleanStart(init)
    && x.db.participants == init.participants
    && DepositsKept(init, x.db)
    && (forall d :: d in x.db.deposits && Tracked(init, d) ==> Books(init, x.db, d))
    && (forall a :: a in x.db.manifests ==> Stored(init, x.db, a))
    && GatewaySound(init, x)
  }

  lemma StartBooks(init: Db, d: DepositId)
    requires CleanStart(init) && Tracked(init, d)
    ensures Books(init, init, d)
  {
  }

  lemma StartInv(init: Db)
    requires CleanStart(init)
    ensures WorldInv(init, Start(init).world)
  {
    hide Books;
    forall d | Tracked(init, d) ensures Books(init, init, d) { StartBooks(init, d); }
  }

  // ---- What every step preserves for everybody else --------------------

  predicate StatusAdvances(o: DepositStatus, n: DepositStatus) {
    n == o || (o == Held && (n == Captured || InRefund(n))) || (o == RefundPending && n == Refunded)
  }

  /** The rely condition of every actor: deposits only move forward, manifests keep their plan,
      an auction with a manifest keeps its winner, and the gateway forgets nothing. */
  ghost predicate Evolves(x: World, y: World) {
    && y.db.deposits.Keys == x.db.deposits.Keys
    && (forall d :: d in x.db.deposits ==>
          && y.db.deposits[d] == x.db.deposits[d].(status := y.db.deposits[d].status)
          && StatusAdvances(x.db.deposits[d].status, y.db.deposits[d].status))
    && (forall a :: a in x.db.manifests ==>
          && a in y.db.manifests && SamePlan(x.db.manifests[a].items, y.db.manifests[a].items)
          && a in x.db.auctions && a in y.db.auctions
          && SameOutcome(x.db.auctions[a], y.db.auctions[a]))
    && x.pos.requests <= y.pos.requests
    && x.pos.moved <= y.pos.moved
    && x.pos.approved <= y.pos.approved
  }

  // ---- What an actor must guarantee for an effect ---------------------

  ghost predicate ItemOk(init: Db, x: World, it: Item) {
    it.deposit in x.db.deposits && x.db.deposits[it.deposit].auction in x.db.manifests
    && Planned(init, x.db, x.db.deposits[it.deposit].auction, it)
  }

  ghost predicate EffectOk(init: Db, x: World, e: Effect) {
    match e
    case Captures(it) => ItemOk(init, x, it) && it.action == Capture && it.key in x.pos.approved
    case InitiatesRefund(it) => ItemOk(init, x, it) && it.action == Refund
    case CompletesRefund(it) => ItemOk(init, x, it) && it.action == Refund && it.key in x.pos.approved
    case Saves(m) => CopyOf(x.db, m) && NoSent(m.items)
    case Finalizes(m) => CopyOf(x.db, m) && NoSent(m.items)
    case ForceCloses(m) => CopyOf(x.db, m) && NoSent(m.items)
    case Retries(m) => CopyOf(x.db, m) && NoSent(m.items)
    case Requests(it) =>
      && ItemOk(init, x, it)
      && (it.action == Refund ==> InRefund(x.db.deposits[it.deposit].status))
    case Approves(it) => WasRequested(x.pos, it.key)
    case _ => true
  }

  // ---- Preservation: the deposit transactions -------------------------

  /** `db'` differs from `db` in the status of deposit `d` and in the logs, which grow by one row
      about `d`, and in refund rows under `k`. */
  ghost predicate MovesOne(db: Db, db': Db, d: DepositId, st: DepositStatus, k: Key) {
    && d in db.deposits
    && db'.deposits == db.deposits[d := db.deposits[d].(status := st)]
    && db'.auctions == db.auctions && db'.manifests == db.manifests && db'.participants == db.participants
    && |db'.transitions| == |db.transitions| + 1
    && db'.transitions[..|db.transitions|] == db.transitions
    && db'.transitions[|db.transitions|].deposit == d
    && |db'.ledger| == |db.ledger| + 1
    && db'.ledger[..|db.ledger|] == db.ledger
    && db'.ledger[|db.ledger|].deposit == d
    && db'.refunds - {k} == db.refunds - {k}
    && (k in db'.refunds ==> db'.refunds[k].deposit == d)
    && (k in db.refunds ==> k in db'.refunds)
  }

  lemma MoveKeepsManifest(init: Db, db: Db, db': Db, d: DepositId, st: DepositStatus, k: Key, a: AuctionId)
    requires MovesOne(db, db', d, st, k) && StatusAdvances(db.deposits[d].status, st)
    requires a in db.manifests && Stored(init, db, a)
    ensures Stored(init, db', a)
  {
    var items := db.manifests[a].items;
    forall i | 0 <= i < |items| ensures Planned(init, db', a, items[i]) && TruthfulItem(db', items[i]) {
      assert Planned(init, db, a, items[i]) && TruthfulItem(db, items[i]);
    }
  }

  lemma MoveKeepsOtherBooks(init: Db, db: Db, db': Db, d: DepositId, st: DepositStatus, k: Key, e: DepositId)
    requires MovesOne(db, db', d, st, k) && k.deposit == d
    requires e in db.deposits && e != d && Books(init, db, e)
    ensures Books(init, db', e)
  {
    assert db'.transitions == db.transitions + [db'.transitions[|db.transitions|]];
    assert db'.ledger == db.ledger + [db'.ledger[|db.ledger|]];
    AppendTransition(db.transitions, db'.transitions[|db.transitions|], e);
    AppendLedger(db.ledger, db'.ledger[|db.ledger|], e);
    forall key | key in db'.refunds && (key.deposit == e || db'.refunds[key].deposit == e)
      ensures key in db.refunds && db.refunds[key] == db'.refunds[key]
    {
      assert key != k;
      assert key in db'.refunds - {k};
    }
    if InRefund(db.deposits[e].status) {
      var ke := KeyFor(db, e);
      assert ke in db.refunds - {k};
    }
  }

  lemma MoveKeepsGateway(init: Db, x: World, db': Db, d: DepositId, st: DepositStatus, k: Key)
    requires MovesOne(x.db, db', d, st, k) && StatusAdvances(x.db.deposits[d].status, st)
    requires GatewaySound(init, x)
    requires st == Captured || st == Refunded ==> KeyFor(x.db, d) in x.pos.approved
    ensures GatewaySound(init, World(db', x.pos))
  {
    forall i | 0 <= i < |x.pos.requests| ensures SoundRequest(init, db', x.pos.requests[i]) {
      assert SoundRequest(init, x.db, x.pos.requests[i]);
    }
  }

  lemma MoveEvolves(x: World, db': Db, d: DepositId, st: DepositStatus, k: Key)
    requires MovesOne(x.db, db', d, st, k) && StatusAdvances(x.db.deposits[d].status, st)
    requires forall a :: a in x.db.manifests ==> a in x.db.auctions
    ensures Evolves(x, World(db', x.pos))
  {
  }

  /** One deposit moving along its plan, with its rows, keeps the whole invariant. */
  lemma MoveKeeps(init: Db, x: World, db': Db, d: DepositId, st: DepositStatus, k: Key)
    requires WorldInv(init, x)
    requires MovesOne(x.db, db', d, st, k) && k.deposit == d && Tracked(init, d)
    requires st != x.db.deposits[d].status && StatusAdvances(x.db.deposits[d].status, st)
    requires Books(init, db', d)
    requires st == Captured || st == Refunded ==> KeyFor(x.db, d) in x.pos.approved
    ensures WorldInv(init, World(db', x.pos))
    ensures Evolves(x, World(db', x.pos))
  {
    hide Books, GatewaySound, Evolves, Plan, CopyOf, NoSent;
    forall e | e in db'.deposits && Tracked(init, e) ensures Books(init, db', e) {
      if e != d { MoveKeepsOtherBooks(init, x.db, db', d, st, k, e); }
    }
    forall a | a in db'.manifests ensures Stored(init, db', a) {
      MoveKeepsManifest(init, x.db, db', d, st, k, a);
    }
    MoveKeepsGateway(init, x, db', d, st, k);
    MoveEvolves(x, db', d, st, k);
  }

  /** The books of `d` after one more row about it in each log. */
  lemma BooksGrow(init: Db, db: Db, db': Db, d: DepositId, st: DepositStatus, t: TransitionRow, l: LedgerRow)
    requires d in db.deposits && Books(init, db, d)
    requires db'.deposits == db.deposits[d := db.deposits[d].(status := st)]
    requires db'.auctions == db.auctions && t.deposit == d && l.deposit == d
    requires db'.transitions == db.transitions + [t] && db'.ledger == db.ledger + [l]
    requires var k := KeyFor(db, d);
             && SettlementTransitions(d, st, k) == SettlementTransitions(d, db.deposits[d].status, k) + [t]
             && SettlementLedger(d, st, db.deposits[d].amount, k)
                == SettlementLedger(d, db.deposits[d].status, db.deposits[d].amount, k) + [l]
    ensures KeyFor(db', d) == KeyFor(db, d)
    ensures TransitionsOf(db'.transitions, d)
         == TransitionsOf(init.transitions, d) + SettlementTransitions(d, st, KeyFor(db, d))
    ensures LedgerOf(db'.ledger, d)
         == LedgerOf(init.ledger, d) + SettlementLedger(d, st, db.deposits[d].amount, KeyFor(db, d))
  {
    AppendTransition(db.transitions, t, d);
    AppendLedger(db.ledger, l, d);
  }

  lemma CaptureBooks(init: Db, db: Db, it: Item)
    requires StatusOf(db, it.deposit) == Some(Held) && Books(init, db, it.deposit)
    requires it.key == KeyFor(db, it.deposit) && it.key.action == Capture
    requires db.deposits[it.deposit].auction in db.manifests
    ensures Books(init, CaptureTx(db, it), it.deposit)
  {
    var d := it.deposit;
    var t := TransitionRow(d, Some(Held), Captured, DepositCaptured, Some(it.key));
    var l := LedgerRow(d, DepositCaptured, db.deposits[d].amount, Some(it.key));
    BooksGrow(init, db, CaptureTx(db, it), d, Captured, t, l);
  }

  lemma RefundInitBooks(init: Db, db: Db, it: Item)
    requires StatusOf(db, it.deposit) == Some(Held) && Books(init, db, it.deposit)
    requires it.key == KeyFor(db, it.deposit) && it.key.action == Refund
    requires db.deposits[it.deposit].auction in db.manifests
    ensures !RefundInitRaises(db, it)
    ensures Books(init, RefundInitTx(db, it), it.deposit)
  {
    hide TransitionsOf, LedgerOf, PlannedAction;
    var d := it.deposit;
    var t := TransitionRow(d, Some(Held), RefundPending, DepositRefundInitiated, Some(it.key));
    var l := LedgerRow(d, DepositRefundInitiated, db.deposits[d].amount, Some(it.key));
    BooksGrow(init, db, RefundInitTx(db, it), d, RefundPending, t, l);
  }

  lemma RefundDoneBooks(init: Db, db: Db, it: Item)
    requires StatusOf(db, it.deposit) == Some(RefundPending) && Books(init, db, it.deposit)
    requires it.key == KeyFor(db, it.deposit) && it.key.action == Refund
    ensures Books(init, RefundDoneTx(db, it), it.deposit)
  {
    var d := it.deposit;
    var t := TransitionRow(d, Some(RefundPending), Refunded, DepositRefunded, Some(it.key));
    var l := LedgerRow(d, DepositRefunded, db.deposits[d].amount, Some(it.key));
    BooksGrow(init, db, RefundDoneTx(db, it), d, Refunded, t, l);
  }

  lemma NothingMoves(init: Db, x: World)
    requires WorldInv(init, x)
    ensures Evolves(x, x)
  {
    assert forall a :: a in x.db.manifests ==> Stored(init, x.db, a);
  }

  lemma CaptureKeeps(init: Db, x: World, it: Item)
    requires WorldInv(init, x) && EffectOk(init, x, Captures(it))
    ensures WorldInv(init, World(CaptureTx(x.db, it), x.pos))
    ensures Evolves(x, World(CaptureTx(x.db, it), x.pos))
  {
    if StatusOf(x.db, it.deposit) == Some(Held) {
      CaptureBooks(init, x.db, it);
      MoveKeeps(init, x, CaptureTx(x.db, it), it.deposit, Captured, it.key);
    } else {
      NothingMoves(init, x);
    }
  }

  lemma RefundInitKeeps(init: Db, x: World, it: Item)
    requires WorldInv(init, x) && EffectOk(init, x, InitiatesRefund(it))
    ensures WorldInv(init, World(RefundInitTx(x.db, it), x.pos))
    ensures Evolves(x, World(RefundInitTx(x.db, it), x.pos))
  {
    hide GatewaySound, Evolves, DepositsKept, CopyOf;
    if StatusOf(x.db, it.deposit) == Some(Held) {
      RefundInitBooks(init, x.db, it);
      MoveKeeps(init, x, RefundInitTx(x.db, it), it.deposit, RefundPending, it.key);
    } else {
      NothingMoves(init, x);
    }
  }

  lemma RefundDoneKeeps(init: Db, x: World, it: Item)
    requires WorldInv(init, x) && EffectOk(init, x, CompletesRefund(it))
    ensures WorldInv(init, World(RefundDoneTx(x.db, it), x.pos))
    ensures Evolves(x, World(RefundDoneTx(x.db, it), x.pos))
  {
    hide GatewaySound, Evolves, DepositsKept, CopyOf;
    if StatusOf(x.db, it.deposit) == Some(RefundPending) {
      RefundDoneBooks(init, x.db, it);
      MoveKeeps(init, x, RefundDoneTx(x.db, it), it.deposit, Refunded, it.key);
    } else {
      NothingMoves(init, x);
    }
  }

  // ---- Preservation: auction rows and manifests -----------------------

  lemma SameStaticPlanned(init: Db, db: Db, a: AuctionId, x: Item, y: Item)
    requires Static(x) == Static(y) && Planned(init, db, a, x)
    ensures Planned(init, db, a, y)
  {
    assert x.deposit == Static(x).deposit && y.deposit == Static(y).deposit;
    assert x.user == Static(x).user && y.user == Static(y).user;
    assert x.amount == Static(x).amount && y.amount == Static(y).amount;
    assert x.key == Static(x).key && y.key == Static(y).key;
    assert x.action == Static(x).action && y.action == Static(y).action;
  }

  lemma SamePlanPlan(init: Db, db: Db, a: AuctionId, xs: seq<Item>, ys: seq<Item>)
    requires SamePlan(xs, ys) && Plan(init, db, a, xs)
    ensures Plan(init, db, a, ys)
  {
    forall i | 0 <= i < |ys| ensures Planned(init, db, a, ys[i]) && ys[i].deposit == xs[i].deposit {
      SameStaticPlanned(init, db, a, xs[i], ys[i]);
      assert xs[i].deposit == Static(xs[i]).deposit;
    }
  }

  function WithRow(db: Db, a: AuctionId, row: Auction): Db {
    db.(auctions := db.auctions[a := row])
  }

  /** `db'` has the same deposits and logs as `db`, and every auction with a manifest keeps its
      manifest and its winner. */
  ghost predicate SameMoney(db: Db, db': Db) {
    && db'.deposits == db.deposits && db'.transitions == db.transitions
    && db'.ledger == db.ledger && db'.refunds == db.refunds && db'.participants == db.participants
    && (forall a :: a in db.manifests ==>
          && a in db'.manifests && a in db.auctions && a in db'.auctions
          && db'.auctions[a].winnerId == db.auctions[a].winnerId)
  }

  lemma SameMoneyBooks(init: Db, db: Db, db': Db, d: DepositId)
    requires SameMoney(db, db') && d in db.deposits && Books(init, db, d)
    ensures Books(init, db', d)
  {
  }

  lemma SameMoneyPlanned(init: Db, db: Db, db': Db, a: AuctionId, it: Item)
    requires SameMoney(db, db') && a in db.manifests && Planned(init, db, a, it)
    ensures Planned(init, db', a, it)
  {
  }

  lemma SameMoneyStored(init: Db, db: Db, db': Db, a: AuctionId)
    requires SameMoney(db, db') && a in db.manifests && Stored(init, db, a)
    requires db'.manifests[a] == db.manifests[a] && InSettlement(db'.auctions[a].status)
    ensures Stored(init, db', a)
  {
    var items := db.manifests[a].items;
    forall i | 0 <= i < |items| ensures Planned(init, db', a, items[i]) && TruthfulItem(db', items[i]) {
      SameMoneyPlanned(init, db, db', a, items[i]);
      assert TruthfulItem(db, items[i]);
    }
  }

  lemma SameMoneyGateway(init: Db, db: Db, db': Db, pos: Pos)
    requires SameMoney(db, db') && GatewaySound(init, World(db, pos))
    requires forall d :: d in db.deposits && Tracked(init, d) ==> Books(init, db, d)
    ensures GatewaySound(init, World(db', pos))
  {
    forall i | 0 <= i < |pos.requests| ensures SoundRequest(init, db', pos.requests[i]) {
      assert SoundRequest(init, db, pos.requests[i]);
    }
    forall d | d in db'.deposits && Tracked(init, d)
               && (db'.deposits[d].status == Captured || db'.deposits[d].status == Refunded)
      ensures KeyFor(db', d) in pos.approved
    {
      assert Books(init, db, d);
    }
  }

  lemma SameMoneyKeeps(init: Db, x: World, db': Db)
    requires WorldInv(init, x) && SameMoney(x.db, db')
    requires forall a :: a in db'.manifests ==> Stored(init, db', a)
    requires forall a :: a in x.db.manifests ==>
               && SamePlan(x.db.manifests[a].items, db'.manifests[a].items)
               && SameOutcome(x.db.auctions[a], db'.auctions[a])
    ensures WorldInv(init, World(db', x.pos))
    ensures Evolves(x, World(db', x.pos))
  {
    forall d | d in db'.deposits && Tracked(init, d) ensures Books(init, db', d) {
      SameMoneyBooks(init, x.db, db', d);
    }
    SameMoneyGateway(init, x.db, db', x.pos);
  }

  /** Writing an auction row is harmless as long as a settlement keeps its outcome. */
  lemma RowKeeps(init: Db, x: World, a: AuctionId, row: Auction)
    requires WorldInv(init, x) && a in x.db.auctions
    requires a in x.db.manifests ==> SameOutcome(x.db.auctions[a], row) && InSettlement(row.status)
    ensures WorldInv(init, World(WithRow(x.db, a, row), x.pos))
    ensures Evolves(x, World(WithRow(x.db, a, row), x.pos))
  {
    hide Books, Plan, CopyOf, NoSent, GatewaySound, DepositsKept, Evolves;
    var db' := WithRow(x.db, a, row);
    assert forall b :: b in x.db.manifests ==> Stored(init, x.db, b);
    forall b | b in x.db.manifests ensures Stored(init, db', b) {
      SameMoneyStored(init, x.db, db', b);
    }
    SameMoneyKeeps(init, x, db');
  }

  lemma ManifestKeeps(init: Db, x: World, db': Db, a: AuctionId)
    requires WorldInv(init, x)
    requires a in db'.manifests && db' == x.db.(manifests := x.db.manifests[a := db'.manifests[a]])
    requires Stored(init, db', a)
    requires a in x.db.manifests ==> SamePlan(x.db.manifests[a].items, db'.manifests[a].items)
    ensures WorldInv(init, World(db', x.pos))
    ensures Evolves(x, World(db', x.pos))
  {
    hide Books, Plan, CopyOf, NoSent, GatewaySound, DepositsKept, Evolves;
    assert forall b :: b in x.db.manifests ==> Stored(init, x.db, b);
    forall b | b in db'.manifests ensures Stored(init, db', b) {
      if b != a { SameMoneyStored(init, x.db, db', b); }
    }
    SameMoneyKeeps(init, x, db');
  }

  lemma SaveKeeps(init: Db, x: World, m: Manifest)
    requires WorldInv(init, x) && CopyOf(x.db, m) && NoSent(m.items)
    ensures WorldInv(init, World(SaveTx(x.db, m), x.pos))
    ensures Evolves(x, World(SaveTx(x.db, m), x.pos))
  {
    hide Books, GatewaySound, DepositsKept, Evolves;
    var db', a := SaveTx(x.db, m), m.auction;
    assert Stored(init, x.db, a);
    SamePlanPlan(init, x.db, a, x.db.manifests[a].items, m.items);
    forall i | 0 <= i < |m.items| ensures Planned(init, db', a, m.items[i]) {
      assert Planned(init, x.db, a, m.items[i]);
    }
    ManifestKeeps(init, x, db', a);
  }

  lemma EvolvesTransitive(x: World, y: World, z: World)
    requires Evolves(x, y) && Evolves(y, z)
    ensures Evolves(x, z)
  {
    forall d | d in x.db.deposits
      ensures z.db.deposits[d] == x.db.deposits[d].(status := z.db.deposits[d].status)
    {
      assert y.db.deposits[d] == x.db.deposits[d].(status := y.db.deposits[d].status);
      assert z.db.deposits[d] == y.db.deposits[d].(status := z.db.deposits[d].status);
    }
  }

  lemma CloseKeeps(init: Db, x: World, m: Manifest, to: AuctionStatus)
    requires WorldInv(init, x) && CopyOf(x.db, m) && NoSent(m.items) && InSettlement(to)
    ensures WorldInv(init, World(CloseTx(x.db, m, to), x.pos))
    ensures Evolves(x, World(CloseTx(x.db, m, to), x.pos))
  {
    hide Books, Stored, GatewaySound, Evolves, DepositsKept, NoSent;
    if AuctionSettling(x.db, m.auction) {
      var row := WithStatus(x.db.auctions[m.auction], to);
      var mid := World(WithRow(x.db, m.auction, row), x.pos);
      RowKeeps(init, x, m.auction, row);
      SaveKeeps(init, mid, m);
      EvolvesTransitive(x, mid, World(CloseTx(x.db, m, to), x.pos));
    } else {
      NothingMoves(init, x);
    }
  }

  lemma FinalizeKeeps(init: Db, x: World, m: Manifest)
    requires WorldInv(init, x) && CopyOf(x.db, m) && NoSent(m.items)
    ensures WorldInv(init, World(FinalizeTx(x.db, m), x.pos))
    ensures Evolves(x, World(FinalizeTx(x.db, m), x.pos))
  {
    var n := AckCount(m.items);
    match Judge(m.items)
    case AllAcknowledged => CloseKeeps(init, x, m.(status := Completed, acked := n), Settled);
    case RetriesExhausted => CloseKeeps(init, x, m.(status := Escalated, acked := n), SettlementFailed);
    case InProgress => SaveKeeps(init, x, m.(acked := n));
  }

  lemma ResetKeepsCopy(db: Db, m: Manifest)
    requires CopyOf(db, m) && NoSent(m.items)
    ensures CopyOf(db, m.(items := ResetItems(m.items), status := Active)) && NoSent(ResetItems(m.items))
  {
    var r := ResetItems(m.items);
    forall i | 0 <= i < |r| ensures Static(r[i]) == Static(m.items[i]) && TruthfulItem(db, r[i]) {
      assert r[i] == ResetItem(m.items[i]) && TruthfulItem(db, m.items[i]);
    }
  }

  lemma RetryKeeps(init: Db, x: World, m: Manifest, retryEdge: bool)
    requires WorldInv(init, x) && CopyOf(x.db, m) && NoSent(m.items)
    ensures WorldInv(init, World(RetryTx(x.db, m, retryEdge), x.pos))
    ensures Evolves(x, World(RetryTx(x.db, m, retryEdge), x.pos))
  {
    hide Books, Stored, GatewaySound, Evolves, DepositsKept, NoSent, ResetItems, TriggerAdmits;
    if CanRetry(x.db, m, retryEdge) {
      var row := WithStatus(x.db.auctions[m.auction], Settling);
      var mid := World(WithRow(x.db, m.auction, row), x.pos);
      RowKeeps(init, x, m.auction, row);
      ResetKeepsCopy(mid.db, m);
      SaveKeeps(init, mid, m.(items := ResetItems(m.items), status := Active));
      EvolvesTransitive(x, mid, World(RetryTx(x.db, m, retryEdge), x.pos));
    } else {
      NothingMoves(init, x);
    }
  }

  /** The items made at initiation are the plan: each, pending, for the held deposit of an eligible
      participant, none twice, and every such participant among them. */
  lemma {:induction false} PlanItemsSound(init: Db, db: Db, a: AuctionId, ps: seq<Participant>)
    requires DepositsKept(init, db) && a in db.auctions
    requires forall i :: 0 <= i < |ps| && ps[i].deposit in db.deposits ==> OwnDeposit(db, a, ps[i])
    requires forall i, j :: 0 <= i < j < |ps| ==> ps[i].deposit != ps[j].deposit
    ensures var items := PlanItems(db, a, ps);
            && Plan(init, db, a, items)
            && (forall j :: 0 <= j < |items| ==> items[j].status == Pending && items[j].retries == 0)
            && (forall j :: 0 <= j < |items| ==> Behind(db, ps, items[j].deposit))
            && (forall i :: 0 <= i < |ps| && Qualifies(db, ps[i]) ==>
                  exists j :: 0 <= j < |items| && items[j].deposit == ps[i].deposit)
  {
    if ps != [] {
      var k := |ps| - 1;
      PlanItemsSound(init, db, a, ps[..k]);
      var before, items := PlanItems(db, a, ps[..k]), PlanItems(db, a, ps);
      if Qualifies(db, ps[k]) {
        assert items == before + [NewItem(db, a, ps[k])];
        assert Planned(init, db, a, items[|before|]);
      } else {
        assert items == before;
      }
      forall j | 0 <= j < |items| ensures Behind(db, ps, items[j].deposit) {
        if j < |before| {
          assert items[j] == before[j];
          var i :| 0 <= i < k && Qualifies(db, ps[..k][i]) && ps[..k][i].deposit == before[j].deposit;
          assert Qualifies(db, ps[i]) && ps[i].deposit == items[j].deposit;
        } else {
          assert Qualifies(db, ps[k]) && ps[k].deposit == items[j].deposit;
        }
      }
      forall i | 0 <= i < |ps| && Qualifies(db, ps[i])
        ensures exists j :: 0 <= j < |items| && items[j].deposit == ps[i].deposit
      {
        if i < k {
          assert Qualifies(db, ps[..k][i]);
          var j :| 0 <= j < |before| && before[j].deposit == ps[..k][i].deposit;
          assert items[j].deposit == ps[i].deposit;
        } else {
          assert items[|before|].deposit == ps[i].deposit;
        }
      }
    }
  }

  /** An eligible participant whose deposit is held is behind `d`. */
  predicate Behind(db: Db, ps: seq<Participant>, d: DepositId) {
    exists i :: 0 <= i < |ps| && Qualifies(db, ps[i]) && ps[i].deposit == d
  }

  lemma InitiateKeeps(init: Db, x: World, a: AuctionId, now: int)
    requires WorldInv(init, x)
    ensures WorldInv(init, World(InitiateTx(x.db, a, now), x.pos))
    ensures Evolves(x, World(InitiateTx(x.db, a, now), x.pos))
  {
    hide Books, GatewaySound, Evolves, PlanItems;
    if CanInitiate(x.db, a) {
      var row, m := WithStatus(x.db.auctions[a], Settling), NewManifest(x.db, a, now);
      var mid, db' := World(WithRow(x.db, a, row), x.pos), InitiateTx(x.db, a, now);
      PlanItemsSound(init, x.db, a, ParticipantsOf(x.db, a));
      RowKeeps(init, x, a, row);
      forall i | 0 <= i < |m.items| ensures Planned(init, db', a, m.items[i]) {
        assert Planned(init, x.db, a, m.items[i]);
      }
      ManifestKeeps(init, mid, db', a);
      EvolvesTransitive(x, mid, World(db', x.pos));
    } else {
      NothingMoves(init, x);
    }
  }

  lemma ConcludeKeeps(init: Db, x: World, a: AuctionId, winner: Option<(BidId, UserId, int)>, now: int)
    requires WorldInv(init, x)
    ensures WorldInv(init, World(ConcludeTx(x.db, a, winner, now), x.pos))
    ensures Evolves(x, World(ConcludeTx(x.db, a, winner, now), x.pos))
  {
    if a in x.db.auctions && x.db.auctions[a].status == Ending {
      assert a in x.db.manifests ==> Stored(init, x.db, a);
      RowKeeps(init, x, a, EndedRow(x.db.auctions[a], winner, now));
    } else {
      NothingMoves(init, x);
    }
  }

  lemma ManualKeeps(init: Db, x: World, a: AuctionId, to: AuctionStatus, now: int)
    requires WorldInv(init, x)
    ensures WorldInv(init, World(ManualTx(x.db, a, to, now), x.pos))
    ensures Evolves(x, World(ManualTx(x.db, a, to, now), x.pos))
  {
    hide Books, GatewaySound, Evolves, DepositsKept, CopyOf, NoSent, Plan;
    if a in x.db.auctions && ManualMove(x.db.auctions[a].status, to) {
      assert a in x.db.manifests ==> Stored(init, x.db, a);
      RowKeeps(init, x, a, ManualRow(x.db.auctions[a], to, now));
    } else {
      NothingMoves(init, x);
    }
  }

  // ---- Preservation: the gateway --------------------------------------

  lemma RequestKeeps(init: Db, x: World, it: Item)
    requires WorldInv(init, x) && EffectOk(init, x, Requests(it))
    ensures WorldInv(init, World(x.db, PerformPos(x.pos, Requests(it))))
    ensures Evolves(x, World(x.db, PerformPos(x.pos, Requests(it))))
    ensures WasRequested(PerformPos(x.pos, Requests(it)), it.key)
  {
    hide Books, Stored, DepositsKept;
    var pos' := PerformPos(x.pos, Requests(it));
    NothingMoves(init, x);
    assert pos'.requests[|x.pos.requests|] == PosRequest(it.key, it.amount);
    forall i | 0 <= i < |pos'.requests| ensures SoundRequest(init, x.db, pos'.requests[i]) {
      if i < |x.pos.requests| { assert SoundRequest(init, x.db, x.pos.requests[i]); }
    }
    forall k | k in pos'.moved ensures WasRequested(pos', k) {
      var i :| 0 <= i < |x.pos.requests| && x.pos.requests[i].key == k;
      assert pos'.requests[i].key == k;
    }
  }

  lemma AnswerKeeps(init: Db, x: World, e: Effect)
    requires WorldInv(init, x) && EffectOk(init, x, e) && (e.Approves? || e.Acts?)
    ensures WorldInv(init, World(x.db, PerformPos(x.pos, e)))
    ensures Evolves(x, World(x.db, PerformPos(x.pos, e)))
  {
    hide Books, Stored, DepositsKept;
    var pos' := PerformPos(x.pos, e);
    NothingMoves(init, x);
    forall i | 0 <= i < |pos'.requests| ensures SoundRequest(init, x.db, pos'.requests[i]) {
      assert SoundRequest(init, x.db, x.pos.requests[i]);
    }
    forall k | k in pos'.moved ensures WasRequested(pos', k) {
      assert WasRequested(x.pos, k);
      var i :| 0 <= i < |x.pos.requests| && x.pos.requests[i].key == k;
      assert pos'.requests[i].key == k;
    }
  }

  /** Every effect whose actor met its guarantee keeps the invariant and the rely condition. */
  lemma PerformKeeps(init: Db, x: World, e: Effect, retryEdge: bool)
    requires WorldInv(init, x) && EffectOk(init, x, e)
    ensures WorldInv(init, Perform(x, e, retryEdge))
    ensures Evolves(x, Perform(x, e, retryEdge))
  {
    hide WorldInv, Evolves, CopyOf, NoSent, ItemOk;
    match e
    case Nop => NothingMoves(init, x);
    case Captures(it) => CaptureKeeps(init, x, it);
    case InitiatesRefund(it) => RefundInitKeeps(init, x, it);
    case CompletesRefund(it) => RefundDoneKeeps(init, x, it);
    case Saves(m) => SaveKeeps(init, x, m);
    case Finalizes(m) => FinalizeKeeps(init, x, m);
    case ForceCloses(m) =>
      if AuctionSettling(x.db, m.auction) { CloseKeeps(init, x, m, SettlementFailed); } else { SaveKeeps(init, x, m); }
    case Initiates(a, now) => InitiateKeeps(init, x, a, now);
    case Retries(m) => RetryKeeps(init, x, m, retryEdge);
    case Concludes(a, winner, now) => ConcludeKeeps(init, x, a, winner, now);
    case Moves(a, to, now) => ManualKeeps(init, x, a, to, now);
    case Requests(it) => RequestKeeps(init, x, it);
    case Approves(_) => AnswerKeeps(init, x, e);
    case Acts(_) => AnswerKeeps(init, x, e);
  }
}
