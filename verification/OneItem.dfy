/**
 Worker 1 alone with the manifest of auction 0, which has one item, a capture: what its moves do to
 the tables.  The concrete runs of settlement are put together from these.
 */
module OneItem {
  import opened Wrappers
  import opened Auctions
  import opened Settlement
  import opened SettlementMachine

  function AsEvents(works: seq<Work>): (events: seq<Event>)
    ensures |events| == |works|
    ensures forall i :: 0 <= i < |works| ==> events[i] == Worker(1, works[i])
  {
    seq(|works|, i requires 0 <= i < |works| => Worker(1, works[i]))
  }

  /** The tables and the worker's point, and what its moves make of them. */
  datatype Scene = Scene(db: Db, pc: Pc)

  function Act(x: Scene, work: Work, retryEdge: bool): Scene {
    Scene(PerformDb(x.db, Emit(x.pc, work), retryEdge), Goto(x.db, x.pc, work))
  }

  function Drive(x: Scene, works: seq<Work>, retryEdge: bool): Scene {
    if works == [] then x
    else Act(Drive(x, works[..|works| - 1], retryEdge), works[|works| - 1], retryEdge)
  }

  lemma One(x: Scene, work: Work, retryEdge: bool)
    ensures Drive(x, [work], retryEdge) == Act(x, work, retryEdge)
  {
    assert [work][..0] == [];
  }

  lemma {:induction false} Then(x: Scene, works: seq<Work>, more: seq<Work>, retryEdge: bool)
    ensures Drive(x, works + more, retryEdge) == Drive(Drive(x, works, retryEdge), more, retryEdge)
  {
    hide Act;
    if more == [] {
      assert works + more == works;
    } else {
      var k := |more| - 1;
      Then(x, works, more[..k], retryEdge);
      assert (works + more)[..|works + more| - 1] == works + more[..k];
    }
  }

  lemma Two(x: Scene, w1: Work, w2: Work, retryEdge: bool)
    ensures Drive(x, [w1, w2], retryEdge) == Act(Act(x, w1, retryEdge), w2, retryEdge)
  {
    hide Act;
    assert [w1, w2] == [w1] + [w2];
    Then(x, [w1], [w2], retryEdge);
    One(x, w1, retryEdge);
    One(Act(x, w1, retryEdge), w2, retryEdge);
  }

  lemma Three(x: Scene, w1: Work, w2: Work, w3: Work, retryEdge: bool)
    ensures Drive(x, [w1, w2, w3], retryEdge) == Act(Act(Act(x, w1, retryEdge), w2, retryEdge), w3, retryEdge)
  {
    hide Act;
    assert [w1, w2, w3] == [w1, w2] + [w3];
    Then(x, [w1, w2], [w3], retryEdge);
    Two(x, w1, w2, retryEdge);
    One(Act(Act(x, w1, retryEdge), w2, retryEdge), w3, retryEdge);
  }

  function SceneOf(s: Sys): Scene {
    Scene(s.world.db, PcOf(s, 1))
  }

  /** A run of worker 1 is what its moves make of the scene, and leaves the administrators alone. */
  lemma {:induction false} DriveIsRun(s: Sys, works: seq<Work>, retryEdge: bool)
    ensures SceneOf(Run(s, AsEvents(works), retryEdge)) == Drive(SceneOf(s), works, retryEdge)
    ensures Run(s, AsEvents(works), retryEdge).admins == s.admins
  {
    hide Goto, Emit, PerformDb;
    if works != [] {
      var k := |works| - 1;
      DriveIsRun(s, works[..k], retryEdge);
      assert AsEvents(works)[..k] == AsEvents(works[..k]);
    }
  }

  // ---- A tick ---------------------------------------------------------

  /** The stored manifest of auction 0: active, with this one item to capture and its deposit held. */
  predicate Waiting(db: Db, m: Manifest, it: Item) {
    && 0 in db.manifests && db.manifests[0] == m && m.auction == 0 && m.status == Active && m.items == [it]
    && m.expiresAt >= 0 && Processable(it) && it.action == Capture && StatusOf(db, it.deposit) == Some(Held)
    && AuctionSettling(db, 0)
  }

  function JobFor(m: Manifest): Job {
    Job(m, 0, 0, [], 0)
  }

  lemma Loads(db: Db, m: Manifest)
    requires 0 in db.manifests && db.manifests[0] == m && m.status == Active
    ensures Distinct([0]) && ActiveManifests(db, [0]) == [m]
  {
    assert [0][..0] == [];
    assert ActiveManifests(db, [0]) == ActiveManifests(db, []) + [m];
  }

  /** The tick loads the manifest and comes to its item. */
  lemma Opens(db: Db, m: Manifest, it: Item, retryEdge: bool)
    requires Waiting(db, m, it)
    ensures Drive(Scene(db, Idle), [Load([0]), Take(true, 0), Scan], retryEdge) == Scene(db, At(JobFor(m), ReadDeposit))
  {
    hide Drive;
    Three(Scene(db, Idle), Load([0]), Take(true, 0), Scan, retryEdge);
    Loads(db, m);
    assert Act(Scene(db, Idle), Load([0]), retryEdge) == Scene(db, Tick([m], 0));
    assert Act(Scene(db, Tick([m], 0)), Take(true, 0), retryEdge) == Scene(db, At(JobFor(m), Loop));
  }

  /** It reads the deposit, marks the item `sent` and finds the circuit open or closed. */
  lemma Calls(db: Db, m: Manifest, it: Item, circuitOpen: bool, retryEdge: bool)
    requires Waiting(db, m, it)
    ensures var sent := Put(JobFor(m), it.(status := Sent));
            Drive(Scene(db, At(JobFor(m), ReadDeposit)), [Read(true), Call(circuitOpen)], retryEdge)
            == Scene(db, if circuitOpen then FailItem(sent) else At(sent, AwaitPos))
  {
    hide Drive;
    Two(Scene(db, At(JobFor(m), ReadDeposit)), Read(true), Call(circuitOpen), retryEdge);
  }

  /** The copy with its item replaced, as it is saved. */
  function Saved(m: Manifest, it: Item): Manifest {
    Counted(m.(items := [it]))
  }

  function JobAfter(m: Manifest): Job {
    Job(m, 1, 1, [], 0)
  }

  /** The item is saved, and the loop is at its end. */
  lemma SavesItem(db: Db, m: Manifest, x: Item, it: Item, retryEdge: bool)
    requires m.auction == 0 && m.items == [x]
    ensures Drive(Scene(db, At(Put(JobFor(m), it), SaveItem)), [Commit(Committed), Scan], retryEdge)
         == Scene(SaveTx(db, Saved(m, it)), At(JobAfter(Saved(m, it)), Finalize))
  {
    hide Drive, AckCount, SaveTx;
    var j := Put(JobFor(m), it);
    assert j.m.items == [it];
    Two(Scene(db, At(j, SaveItem)), Commit(Committed), Scan, retryEdge);
    assert Act(Scene(db, At(j, SaveItem)), Commit(Committed), retryEdge)
        == Scene(SaveTx(db, Saved(m, it)), At(JobAfter(Saved(m, it)), Loop));
  }

  /** The verdict, and the end of the tick. */
  lemma Ends(db: Db, m: Manifest, retryEdge: bool)
    ensures Drive(Scene(db, At(JobAfter(m), Finalize)), [Commit(Committed), Take(true, 0)], retryEdge)
         == Scene(FinalizeTx(db, m), Idle)
  {
    hide Drive, FinalizeTx;
    Two(Scene(db, At(JobAfter(m), Finalize)), Commit(Committed), Take(true, 0), retryEdge);
  }

  /** The approval is answered and recorded. */
  lemma Charges(db: Db, m: Manifest, sent: Item, retryEdge: bool)
    requires m.items == [sent] && sent.action == Capture
    ensures Drive(Scene(db, At(JobFor(m), AwaitPos)), [Receive(Approved), Commit(Committed)], retryEdge)
         == Scene(CaptureTx(db, sent), AckItem(JobFor(m)))
  {
    hide Drive, CaptureTx;
    Two(Scene(db, At(JobFor(m), AwaitPos)), Receive(Approved), Commit(Committed), retryEdge);
    assert Act(Scene(db, At(JobFor(m), AwaitPos)), Receive(Approved), retryEdge)
        == Scene(db, At(JobFor(m), CaptureDb(0)));
  }

  // ---- A tick that fails ----------------------------------------------

  /** One tick in which the circuit is open. */
  function FailingTick(): seq<Work> {
    [Load([0]), Take(true, 0), Scan] + [Read(true), Call(true)] + [Commit(Committed), Scan]
    + [Commit(Committed), Take(true, 0)]
  }

  lemma FailingTickLeads(db: Db, m: Manifest, it: Item, retryEdge: bool)
    requires Waiting(db, m, it)
    ensures var failed := Saved(m, Fail(it));
            Drive(Scene(db, Idle), FailingTick(), retryEdge) == Scene(FinalizeTx(SaveTx(db, failed), failed), Idle)
  {
    hide Drive, SaveTx, FinalizeTx, Counted, StatusOf, AuctionSettling, Processable;
    var failed, j, sent := Saved(m, Fail(it)), JobFor(m), Put(JobFor(m), it.(status := Sent));
    var x0 := Scene(db, Idle);
    Opens(db, m, it, retryEdge);
    Calls(db, m, it, true, retryEdge);
    assert FailItem(sent) == At(Put(j, Fail(it)), SaveItem);
    SavesItem(db, m, it, Fail(it), retryEdge);
    Ends(SaveTx(db, failed), failed, retryEdge);
    var w1, w2, w3, w4 := [Load([0]), Take(true, 0), Scan], [Read(true), Call(true)], [Commit(Committed), Scan],
      [Commit(Committed), Take(true, 0)];
    Then(x0, w1, w2, retryEdge);
    Then(x0, w1 + w2, w3, retryEdge);
    Then(x0, w1 + w2 + w3, w4, retryEdge);
  }

  // ---- A tick that charges --------------------------------------------

  /** A tick in which the POS approves, up to the verdict. */
  function ChargingMoves(): seq<Work> {
    [Load([0]), Take(true, 0), Scan] + [Read(true), Call(false)] + [Receive(Approved), Commit(Committed)]
    + [Commit(Committed), Scan]
  }

  lemma ChargingLeads(db: Db, m: Manifest, it: Item, retryEdge: bool)
    requires Waiting(db, m, it)
    ensures var acked := Saved(m, Ack(it));
            Drive(Scene(db, Idle), ChargingMoves(), retryEdge)
            == Scene(SaveTx(CaptureTx(db, it), acked), At(JobAfter(acked), Finalize))
  {
    hide Drive, SaveTx, Counted, AuctionSettling, Processable;
    var j, sent := JobFor(m), it.(status := Sent);
    var x0, sending := Scene(db, Idle), Put(j, sent);
    Opens(db, m, it, retryEdge);
    Calls(db, m, it, false, retryEdge);
    assert sending.m.items == [sent] && sending == JobFor(sending.m);
    Charges(db, sending.m, sent, retryEdge);
    SameCapture(db, it, sent);
    assert AckItem(sending) == At(Put(j, Ack(it)), SaveItem);
    SavesItem(CaptureTx(db, it), m, it, Ack(it), retryEdge);
    var w1, w2, w3, w4 := [Load([0]), Take(true, 0), Scan], [Read(true), Call(false)],
      [Receive(Approved), Commit(Committed)], [Commit(Committed), Scan];
    Then(x0, w1, w2, retryEdge);
    Then(x0, w1 + w2, w3, retryEdge);
    Then(x0, w1 + w2 + w3, w4, retryEdge);
  }

  lemma SameCapture(db: Db, it: Item, sent: Item)
    requires sent == it.(status := Sent)
    ensures CaptureTx(db, sent) == CaptureTx(db, it)
  {
  }

  // ---- A tick that expires --------------------------------------------

  /** The worker stops, and when it is back finds the manifest expired. */
  function ExpiringMoves(m: Manifest): seq<Work> {
    [Drop, Load([0])] + [Take(true, m.expiresAt + 1), Commit(Committed)]
  }

  lemma ExpiringLeads(db: Db, pc: Pc, m: Manifest, retryEdge: bool)
    requires pc.At? && pc.point == Finalize && 0 in db.manifests && db.manifests[0] == m && m.status == Active
    ensures Drive(Scene(db, pc), ExpiringMoves(m), retryEdge) == Scene(ForceCloseTx(db, ExpiredCopy(m)), Tick([], 1))
  {
    hide Drive, ForceCloseTx;
    var now := m.expiresAt + 1;
    Two(Scene(db, pc), Drop, Load([0]), retryEdge);
    Loads(db, m);
    assert Act(Scene(db, pc), Drop, retryEdge) == Scene(db, Idle);
    assert Act(Scene(db, Idle), Load([0]), retryEdge) == Scene(db, Tick([m], 0));
    Two(Scene(db, Tick([m], 0)), Take(true, now), Commit(Committed), retryEdge);
    assert Act(Scene(db, Tick([m], 0)), Take(true, now), retryEdge) == Scene(db, At(JobFor(m), Expire));
    Then(Scene(db, pc), [Drop, Load([0])], [Take(true, now), Commit(Committed)], retryEdge);
  }
}
