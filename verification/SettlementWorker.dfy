/**
 The settlement worker's loop over active manifests and its bounded loop over items, and the
 number of ticks a manifest can take.
 */
module SettlementWorker {
  import opened Wrappers
  import opened Auctions
  import opened Settlement
  import opened SettlementMachine
  import opened SettlementRuns
  import opened SettlementTheorems
  import opened SettlementLockstep
  import opened SettlementTicks
  import opened SettlementAttempts
  import opened Deployment
  import opened SettlementService

  /** The manifest row that `finalizeManifest` leaves while the auction is settling. */
  function Verdicted(m: Manifest): Manifest {
    var n := AckCount(m.items);
    match Judge(m.items)
    case AllAcknowledged => m.(status := Completed, acked := n)
    case RetriesExhausted => m.(status := Escalated, acked := n)
    case InProgress => m.(acked := n)
  }

  /** Seen from auction `a` being served: its row is there and settling, the rest is undisturbed. */
  ghost predicate Serving(x: Db, y: Db, a: AuctionId) {
    && a in y.manifests
    && y.manifests - {a} == x.manifests - {a}
    && AuctionSettling(y, a)
    && forall b :: AuctionSettling(x, b) ==> AuctionSettling(y, b)
  }

  lemma ServingSettles(x: Db, y: Db, a: AuctionId)
    requires Serving(x, y, a)
    ensures AuctionSettling(y, a)
  {
  }

  lemma ServingQuiet(x: Db, y: Db, z: Db, a: AuctionId)
    requires Serving(x, y, a) && SettlementUntouched(y, z)
    ensures Serving(x, z, a)
  {
  }

  lemma ServingSave(x: Db, y: Db, z: Db, m: Manifest)
    requires Serving(x, y, m.auction) && SettlementUntouched(SaveTx(y, m), z)
    ensures Serving(x, z, m.auction)
  {
    assert AuctionSettling(SaveTx(y, m), m.auction);
    assert z.manifests - {m.auction} == y.manifests - {m.auction};
    forall b | AuctionSettling(x, b) ensures AuctionSettling(z, b) {
      assert AuctionSettling(y, b) && AuctionSettling(SaveTx(y, m), b);
    }
  }

  /** What serving a manifest leaves behind in a calm deployment. */
  ghost predicate ServedAs(x: Db, z: Db, m: Manifest) {
    && z.manifests == x.manifests[m.auction := Verdicted(m)]
    && (Judge(m.items) == InProgress ==> AuctionSettling(z, m.auction))
    && forall b :: b != m.auction && AuctionSettling(x, b) ==> AuctionSettling(z, b)
  }

  lemma ClosedRows(y: Db, m: Manifest, to: AuctionStatus)
    requires AuctionSettling(y, m.auction)
    ensures CloseTx(y, m, to).manifests == y.manifests[m.auction := m]
    ensures forall b :: b != m.auction && AuctionSettling(y, b) ==> AuctionSettling(CloseTx(y, m, to), b)
  {
    hide WithStatus;
  }

  /** Finalizing while the auction is settling writes the verdict and touches nobody else. */
  lemma FinalizedRows(y: Db, m: Manifest)
    requires AuctionSettling(y, m.auction)
    ensures FinalizeTx(y, m).manifests == y.manifests[m.auction := Verdicted(m)]
    ensures Judge(m.items) == InProgress ==> AuctionSettling(FinalizeTx(y, m), m.auction)
    ensures forall b :: b != m.auction && AuctionSettling(y, b) ==> AuctionSettling(FinalizeTx(y, m), b)
  {
    hide AckCount, AnyExhausted, CloseTx;
    var n := AckCount(m.items);
    match Judge(m.items)
    case AllAcknowledged => ClosedRows(y, m.(status := Completed, acked := n), Settled);
    case RetriesExhausted => ClosedRows(y, m.(status := Escalated, acked := n), SettlementFailed);
    case InProgress => forall b | AuctionSettling(y, b) ensures AuctionSettling(FinalizeTx(y, m), b) {}
  }

  lemma SameButOne(x: map<AuctionId, Manifest>, y: map<AuctionId, Manifest>, a: AuctionId, m: Manifest)
    requires y - {a} == x - {a}
    ensures y[a := m] == x[a := m]
  {
    forall b | b in y && b != a ensures b in x && x[b] == y[b] {
      assert b in y - {a};
    }
    forall b | b in x && b != a ensures b in y { assert b in x - {a}; }
  }

  lemma ServingFinal(x: Db, y: Db, z: Db, m: Manifest)
    requires Serving(x, y, m.auction) && SettlementUntouched(FinalizeTx(y, m), z)
    ensures ServedAs(x, z, m)
  {
    hide FinalizeTx, Verdicted, Judge, AuctionSettling;
    FinalizedRows(y, m);
    SameButOne(x.manifests, y.manifests, m.auction, Verdicted(m));
  }

  // ---- One tick, seen from one auction --------------------------------

  /** What a tick does to auction `a`: if it serves the manifest, one pass over the items, in which nothing
      fails if the gateway approves everything (`g`), and the verdict on the result; otherwise nothing. */
  ghost predicate TickOutcome(x: Db, z: Db, a: AuctionId, served: bool, g: bool) {
    a in x.manifests ==>
      && a in z.manifests
      && if served then
           var xs, zs := x.manifests[a].items, z.manifests[a].items;
           && z.manifests[a].auction == x.manifests[a].auction
           && |zs| == |xs| && Pass(xs, zs, 0, 0) && (g ==> NoneFails(xs, zs))
           && z.manifests[a].status == StatusAfter(Judge(zs))
           && (Judge(zs) == InProgress ==> AuctionSettling(z, a))
         else
           && z.manifests[a] == x.manifests[a]
           && (AuctionSettling(x, a) ==> AuctionSettling(z, a))
  }

  function StatusAfter(v: Verdict): ManifestStatus {
    match v
    case AllAcknowledged => Completed
    case RetriesExhausted => Escalated
    case InProgress => Active
  }

  lemma OutcomeStarts(x: Db, a: AuctionId, g: bool)
    ensures TickOutcome(x, x, a, false, g)
  {
  }

  lemma OutcomeThenOnly(x: Db, y: Db, z: Db, a: AuctionId, b: AuctionId, served: bool, g: bool)
    requires TickOutcome(x, y, a, served, g) && OnlyAuction(y, z, b) && a != b
    ensures TickOutcome(x, z, a, served, g)
  {
  }

  lemma OutcomeThenQuiet(x: Db, y: Db, z: Db, a: AuctionId, served: bool, g: bool)
    requires TickOutcome(x, y, a, served, g) && SettlementUntouched(y, z)
    ensures TickOutcome(x, z, a, served, g)
  {
  }

  lemma OutcomeServed(x: Db, y: Db, z: Db, m: Manifest, c: Manifest, g: bool)
    requires TickOutcome(x, y, m.auction, false, g) && ServedAs(y, z, c)
    requires m.auction in y.manifests && y.manifests[m.auction] == m && m.status == Active
    requires |c.items| == |m.items| && Pass(m.items, c.items, 0, 0) && c == m.(items := c.items, acked := c.acked)
    requires g ==> NoneFails(m.items, c.items)
    ensures TickOutcome(x, z, m.auction, true, g)
  {
    assert z.manifests[m.auction] == Verdicted(c);
  }

  lemma ServedOnly(x: Db, z: Db, m: Manifest)
    requires ServedAs(x, z, m)
    ensures OnlyAuction(x, z, m.auction)
  {
  }

  /** The manifests still to be served in this tick are as stored, and their auctions settling. */
  ghost predicate Fresh(db: Db, q: seq<Manifest>) {
    (forall i :: 0 <= i < |q| ==> FreshCopy(db, q[i])) && Apart(q)
  }

  predicate Apart(q: seq<Manifest>) {
    forall i, j :: 0 <= i < j < |q| ==> q[i].auction != q[j].auction
  }

  predicate FreshCopy(db: Db, m: Manifest) {
    && m.auction in db.manifests && db.manifests[m.auction] == m && m.status == Active
    && AuctionSettling(db, m.auction)
  }

  lemma {:induction false} LoadedFresh(db: Db, order: seq<AuctionId>)
    requires Lockstep(db) && Distinct(order)
    ensures Fresh(db, ActiveManifests(db, order))
    ensures forall i :: 0 <= i < |ActiveManifests(db, order)| ==> ActiveManifests(db, order)[i].auction in order
  {
    if order != [] {
      LoadedFresh(db, order[..|order| - 1]);
      var a := order[|order| - 1];
      if a in db.manifests && db.manifests[a].status == Active {
        assert LockstepAt(db, a);
        assert FreshCopy(db, db.manifests[a]);
      }
      assert a !in order[..|order| - 1];
    }
  }

  lemma FreshQuiet(x: Db, z: Db, q: seq<Manifest>)
    requires Fresh(x, q) && SettlementUntouched(x, z)
    ensures Fresh(z, q)
  {
    forall i | 0 <= i < |q| ensures FreshCopy(z, q[i]) { assert FreshCopy(x, q[i]); }
  }

  lemma FreshTail(x: Db, z: Db, q: seq<Manifest>)
    requires |q| > 0 && Fresh(x, q) && OnlyAuction(x, z, q[0].auction)
    ensures Fresh(z, q[1..])
  {
    forall i | 0 <= i < |q[1..]| ensures FreshCopy(z, q[1..][i]) {
      assert FreshCopy(x, q[i + 1]);
      assert q[0].auction != q[i + 1].auction;
    }
  }

  lemma QuietThenOnly(x: Db, y: Db, z: Db, a: AuctionId)
    requires SettlementUntouched(x, y) && OnlyAuction(y, z, a)
    ensures OnlyAuction(x, z, a)
  {
  }

  lemma OutcomesQuiet(x: Db, y: Db, z: Db, a: AuctionId, g: bool)
    requires SettlementUntouched(y, z)
    ensures TickOutcome(x, y, a, false, g) ==> TickOutcome(x, z, a, false, g)
  {
  }

  predicate Small(db: Db, a: AuctionId) {
    a in db.manifests ==> |db.manifests[a].items| <= 500
  }

  /** Auction `a` is among the first manifests of the list, which are the ones a tick serves. */
  predicate Reached(q: seq<Manifest>, n: nat, a: AuctionId) {
    exists i :: 0 <= i < |q| && i < n && q[i].auction == a
  }

  lemma ReachedStarts(q: seq<Manifest>, a: AuctionId)
    ensures !Reached(q, 0, a)
  {
  }

  lemma ReachedEnds(q: seq<Manifest>, t: nat, n: nat, a: AuctionId)
    requires t == n || (t == |q| && t <= n)
    ensures Reached(q, t, a) <==> Reached(q, n, a)
  {
  }

  lemma ReachedNext(q: seq<Manifest>, n: nat, a: AuctionId)
    requires n < |q|
    ensures Reached(q, n + 1, a) <==> Reached(q, n, a) || q[n].auction == a
  {
  }

  class SettlementWorker {
    const d: Deployment
    const service: SettlementService

    constructor (d: Deployment)
      ensures this.d == d && service.d == d && fresh(service)
    {
      this.d := d;
      service := new SettlementService(d);
    }

    /** The loop body for a processable item: process it, put it back, save the copy. */
    method ServeItem(w: WorkerId, m: Manifest, i: nat, n: nat, ghost queue: seq<Manifest>, ghost served: nat)
      returns (ok: bool, after: Manifest)
      requires service.d == d && d.Valid() && (d.calm ==> w == d.sole) && i < |m.items|
      requires PcOf(d.State(), w) == At(Job(m, i, n, queue, served), ReadDeposit)
      modifies d, d.tables
      ensures d.Valid() && (d.calm ==> ok)
      ensures ok ==> |after.items| == |m.items| && Attempted(m.items[i], after.items[i])
      ensures ok ==> after.items == m.items[i := after.items[i]] && after == Counted(m.(items := after.items))
      ensures ok && d.calm && d.approving ==> after.items[i] == Ack(m.items[i])
      ensures PcOf(d.State(), w)
           == if ok then At(Job(after, i + 1, n + 1, queue, served), Loop) else Tick(queue, served)
      ensures d.calm && Serving(old(d.tables.Tables()), old(d.tables.Tables()), m.auction) ==>
                Serving(old(d.tables.Tables()), d.tables.Tables(), m.auction)
    {
      hide Deployment.Valid, Serving;
      ghost var x := d.tables.Tables();
      ghost var j := Job(m, i, n, queue, served);
      after := m;
      var item := service.ProcessManifestItem(w, m.items[i], j);
      if item.None? { return false, after; }
      ghost var y := d.tables.Tables();
      after := Counted(m.(items := m.items[i := item.value]));
      ok := d.SaveCopy(w, after, Put(j, item.value));
      if d.calm && Serving(x, x, m.auction) {
        ServingQuiet(x, x, y, m.auction);
        ServingSave(x, y, d.tables.Tables(), after);
      }
    }

    /** One turn of the loop at item `i`. */
    method ServeTurn(w: WorkerId, c: Manifest, i: nat, n: nat, ghost queue: seq<Manifest>, ghost served: nat)
      returns (ok: bool, after: Manifest, m: nat)
      requires service.d == d && d.Valid() && (d.calm ==> w == d.sole)
      requires i < |c.items| && n < ITEMS_PER_TICK
      requires PcOf(d.State(), w) == At(Job(c, i, n, queue, served), Loop)
      modifies d, d.tables
      ensures d.Valid() && (d.calm ==> ok)
      ensures ok ==> Turned(c, after, i, d.calm && d.approving) && m == n + if Processable(c.items[i]) then 1 else 0
      ensures PcOf(d.State(), w) == if ok then At(Job(after, i + 1, m, queue, served), Loop) else Tick(queue, served)
      ensures d.calm && Serving(old(d.tables.Tables()), old(d.tables.Tables()), c.auction) ==>
                Serving(old(d.tables.Tables()), d.tables.Tables(), c.auction)
    {
      hide Deployment.Valid, Serving, AckCount;
      d.Move(w, Scan);
      if Processable(c.items[i]) {
        ok, after := ServeItem(w, c, i, n, queue, served);
        m := n + 1;
      } else {
        ok, after, m := true, c, n;
      }
    }

    /** The bounded pass over the items of one manifest. */
    method PassItems(w: WorkerId, m: Manifest, ghost queue: seq<Manifest>, ghost served: nat)
      returns (ok: bool, after: Manifest, ghost i: nat, ghost k: nat)
      requires service.d == d && d.Valid() && (d.calm ==> w == d.sole)
      requires PcOf(d.State(), w) == At(Job(m, 0, 0, queue, served), Loop)
      modifies d, d.tables
      ensures d.Valid() && (d.calm ==> ok)
      ensures PcOf(d.State(), w) == if ok then At(Job(after, i, k, queue, served), Loop) else Tick(queue, served)
      ensures ok ==> Passing(m, after, i, k, d.calm && d.approving) && (k >= ITEMS_PER_TICK || i == |m.items|)
      ensures d.calm && Serving(old(d.tables.Tables()), old(d.tables.Tables()), m.auction) ==>
                Serving(old(d.tables.Tables()), d.tables.Tables(), m.auction)
    {
      hide Deployment.Valid, Serving, Turned, PassedTo, AckCount, Processable;
      ghost var x := d.tables.Tables();
      var at: nat, n: nat := 0, 0;
      after, ok := m, true;
      i, k := 0, 0;
      PassingStarts(m, d.calm && d.approving);
      while n < ITEMS_PER_TICK && at < |after.items|
        invariant d.Valid() && ok && PcOf(d.State(), w) == At(Job(after, at, n, queue, served), Loop)
        invariant Passing(m, after, at, n, d.calm && d.approving) && i == at && k == n
        invariant d.calm && Serving(x, x, m.auction) ==> Serving(x, d.tables.Tables(), m.auction)
        decreases |m.items| - at
      {
        ghost var y, before, n0 := d.tables.Tables(), after, n;
        ok, after, n := ServeTurn(w, after, at, n, queue, served);
        if d.calm && Serving(x, x, m.auction) { ServingAgain(x, y, d.tables.Tables(), m.auction); }
        if !ok { return; }
        PassingTurn(m, before, after, at, n0, d.calm && d.approving);
        at := at + 1;
        i, k := at, n;
      }
    }

    /** One manifest of the tick: the bounded pass over its items, then finalization. */
    method ServeManifest(w: WorkerId, m: Manifest, ghost queue: seq<Manifest>, ghost served: nat)
      returns (ok: bool, after: Manifest)
      requires service.d == d && d.Valid() && (d.calm ==> w == d.sole)
      requires PcOf(d.State(), w) == At(Job(m, 0, 0, queue, served), Loop)
      modifies d, d.tables
      ensures d.Valid() && (d.calm ==> ok)
      ensures PcOf(d.State(), w) == Tick(queue, if ok then served + 1 else served)
      ensures ok ==> |after.items| == |m.items| && Pass(m.items, after.items, 0, 0)
      ensures ok && d.calm && d.approving ==> NoneFails(m.items, after.items)
      ensures ok ==> after == m.(items := after.items, acked := after.acked)
      ensures d.calm && Serving(old(d.tables.Tables()), old(d.tables.Tables()), m.auction) ==>
                ServedAs(old(d.tables.Tables()), d.tables.Tables(), after)
    {
      hide Deployment.Valid, Serving, ServedAs, Pass, Passing, Processable;
      ghost var x := d.tables.Tables();
      ghost var i, n;
      ok, after, i, n := PassItems(w, m, queue, served);
      if !ok { return; }
      PassingEnds(m, after, i, n, d.calm && d.approving);
      d.Move(w, Scan);
      ghost var y := d.tables.Tables();
      if d.calm && Serving(x, x, m.auction) { ServingSettles(x, y, m.auction); }
      ok := d.FinalizeManifest(w, after, Job(after, i, n, queue, served));
      if d.calm && Serving(x, x, m.auction) { ServingFinal(x, y, d.tables.Tables(), after); }
    }

    /** Serving a manifest within its expiry and size. */
    method ServeWithin(w: WorkerId, q: seq<Manifest>, served: nat, ghost x: Db) returns (ok: bool)
      requires service.d == d && d.Valid() && (d.calm ==> w == d.sole)
      requires q != [] && PcOf(d.State(), w) == At(Job(q[0], 0, 0, q[1..], served), Loop)
      requires d.calm ==> FreshCopy(d.tables.Tables(), q[0])
      modifies d, d.tables
      ensures d.Valid() && PcOf(d.State(), w) == Tick(q[1..], if ok then served + 1 else served)
      ensures d.calm ==> ok && OnlyAuction(old(d.tables.Tables()), d.tables.Tables(), q[0].auction)
      ensures d.calm && TickOutcome(x, old(d.tables.Tables()), q[0].auction, false, d.approving) ==>
                TickOutcome(x, d.tables.Tables(), q[0].auction, true, d.approving)
    {
      ghost var y := d.tables.Tables();
      var after;
      ok, after := ServeManifest(w, q[0], q[1..], served);
      if d.calm {
        ServedOnly(y, d.tables.Tables(), after);
        if TickOutcome(x, y, q[0].auction, false, d.approving) {
          OutcomeServed(x, y, d.tables.Tables(), q[0], after, d.approving);
        }
      }
    }

    /** The lock for the next manifest, and the clock. */
    method Acquire(w: WorkerId, q: seq<Manifest>, ghost served: nat) returns (granted: bool, now: int)
      requires d.Valid() && (d.calm ==> w == d.sole)
      requires q != [] && served < MAX_MANIFESTS_PER_TICK && PcOf(d.State(), w) == Tick(q, served)
      modifies d, d.tables
      ensures d.Valid() && PcOf(d.State(), w) == AfterTake(q, served, granted, now)
      ensures d.calm ==> granted && now <= q[0].expiresAt
      ensures d.calm ==> SettlementUntouched(old(d.tables.Tables()), d.tables.Tables())
    {
      hide Deployment.Valid;
      d.Interleave(w);
      granted, now := *, *;
      if d.calm {
        granted := true;
        if now > q[0].expiresAt { now := q[0].expiresAt; }
      }
      d.Move(w, Take(granted, now));
    }

    /** Serving the manifest the lock was granted for: when it has expired or is too large it is closed and
        its auction fails, otherwise its items are passed over once. */
    method ServeLocked(w: WorkerId, q: seq<Manifest>, served: nat, now: int, ghost x: Db) returns (ok: bool)
      requires service.d == d && d.Valid() && (d.calm ==> w == d.sole)
      requires q != [] && served < MAX_MANIFESTS_PER_TICK
      requires PcOf(d.State(), w) == AfterTake(q, served, true, now)
      requires d.calm ==> FreshCopy(d.tables.Tables(), q[0])
      modifies d, d.tables
      ensures d.Valid() && PcOf(d.State(), w) == Tick(q[1..], if ok then served + 1 else served)
      ensures d.calm ==> ok && OnlyAuction(old(d.tables.Tables()), d.tables.Tables(), q[0].auction)
      ensures d.calm && now > q[0].expiresAt ==> ForceClosed(d.tables.Tables(), ExpiredCopy(q[0]))
      ensures d.calm && now <= q[0].expiresAt && |q[0].items| > 500 ==>
                ForceClosed(d.tables.Tables(), OversizedCopy(q[0]))
      ensures d.calm && now <= q[0].expiresAt && |q[0].items| <= 500
              && TickOutcome(x, old(d.tables.Tables()), q[0].auction, false, d.approving) ==>
                TickOutcome(x, d.tables.Tables(), q[0].auction, true, d.approving)
    {
      hide Deployment.Valid, TickOutcome;
      ghost var j := Job(q[0], 0, 0, q[1..], served);
      if now > q[0].expiresAt {
        ok := d.ForceClose(w, q[0], Expire, j);
      } else if |q[0].items| > MEMORY_SAFETY_ITEMS_LIMIT {
        ok := d.ForceClose(w, q[0], Oversize, j);
      } else {
        ok := ServeWithin(w, q, served, x);
      }
    }

    /** One turn of the loop over the active manifests, with the lock granted or not. */
    method ServeNext(w: WorkerId, q: seq<Manifest>, served: nat, ghost x: Db) returns (more: nat)
      requires service.d == d && d.Valid() && (d.calm ==> w == d.sole)
      requires q != [] && served < MAX_MANIFESTS_PER_TICK && PcOf(d.State(), w) == Tick(q, served)
      requires d.calm ==> Fresh(d.tables.Tables(), q)
      modifies d, d.tables
      ensures d.Valid() && PcOf(d.State(), w) == Tick(q[1..], more) && served <= more <= served + 1
      ensures d.calm ==> more == served + 1 && OnlyAuction(old(d.tables.Tables()), d.tables.Tables(), q[0].auction)
      ensures d.calm && |q[0].items| <= 500
              && TickOutcome(x, old(d.tables.Tables()), q[0].auction, false, d.approving) ==>
                TickOutcome(x, d.tables.Tables(), q[0].auction, true, d.approving)
    {
      hide Deployment.Valid, TickOutcome;
      ghost var y0 := d.tables.Tables();
      var granted, now := Acquire(w, q, served);
      if !granted { return served; }
      ghost var y := d.tables.Tables();
      if d.calm {
        FreshQuiet(y0, y, q);
        OutcomesQuiet(x, y0, y, q[0].auction, d.approving);
        assert FreshCopy(y, q[0]);
      }
      var ok := ServeLocked(w, q, served, now, x);
      more := if ok then served + 1 else served;
      if d.calm { QuietThenOnly(y0, y, d.tables.Tables(), q[0].auction); }
    }

    /** The turn for the `t`-th loaded manifest, followed from auction `a`. */
    method ServeOne(w: WorkerId, q: seq<Manifest>, n: nat, ghost all: seq<Manifest>, ghost t: nat,
                    ghost x: Db, ghost a: AuctionId, ghost before: bool)
      returns (more: nat, ghost served: bool)
      requires service.d == d && d.Valid() && (d.calm ==> w == d.sole)
      requires t < |all| && q == all[t..] && n < MAX_MANIFESTS_PER_TICK && PcOf(d.State(), w) == Tick(q, n)
      requires d.calm ==> Apart(all) && Fresh(d.tables.Tables(), q) && t == n && before == Reached(all, t, a)
      requires d.calm && Small(x, a) ==> TickOutcome(x, d.tables.Tables(), a, before, d.approving)
      modifies d, d.tables
      ensures d.Valid() && PcOf(d.State(), w) == Tick(q[1..], more) && n <= more <= n + 1
      ensures d.calm ==> Fresh(d.tables.Tables(), q[1..]) && more == n + 1 && served == Reached(all, t + 1, a)
      ensures d.calm && Small(x, a) ==> TickOutcome(x, d.tables.Tables(), a, served, d.approving)
    {
      hide Deployment.Valid;
      ghost var y := d.tables.Tables();
      more := ServeNext(w, q, n, x);
      served := before;
      if d.calm {
        assert q[0] == all[t];
        FreshTail(y, d.tables.Tables(), q);
        ReachedNext(all, t, a);
        assert FreshCopy(y, q[0]);
        served := before || q[0].auction == a;
        if q[0].auction != a && Small(x, a) {
          OutcomeThenOnly(x, y, d.tables.Tables(), a, q[0].auction, served, d.approving);
        }
      }
    }

    /** The query for active manifests, in whatever order they come. */
    method LoadActive(w: WorkerId, order: seq<AuctionId>) returns (q: seq<Manifest>)
      requires d.Valid() && (d.calm ==> w == d.sole) && PcOf(d.State(), w) == Idle && Distinct(order)
      modifies d`workers, d`history
      ensures d.Valid() && PcOf(d.State(), w) == Tick(q, 0) && d.tables.Tables() == old(d.tables.Tables())
      ensures q == ActiveManifests(d.tables.Tables(), order)
      ensures d.calm ==> Apart(q) && Fresh(d.tables.Tables(), q)
    {
      q := ActiveManifests(d.tables.Tables(), order);
      if d.calm {
        LockstepForOneInstance(d.init, d.history, w, d.retryEdge);
        LoadedFresh(d.tables.Tables(), order);
      }
      d.Move(w, Load(order));
    }

    /** `processActiveManifests`: load the active manifests and serve them one after the other until the
        bound. */
    method ProcessActiveManifests(w: WorkerId, order: seq<AuctionId>, ghost a: AuctionId)
      returns (ghost served: bool)
      requires service.d == d && d.Valid() && (d.calm ==> w == d.sole)
      requires PcOf(d.State(), w) == Idle && Distinct(order)
      modifies d, d.tables
      ensures d.Valid() && PcOf(d.State(), w) == Idle
      ensures d.calm ==>
                served == Reached(ActiveManifests(old(d.tables.Tables()), order), 3, a)
      ensures d.calm && Small(old(d.tables.Tables()), a) ==>
                TickOutcome(old(d.tables.Tables()), d.tables.Tables(), a, served, d.approving)
    {
      hide Deployment.Valid, TickOutcome, ActiveManifests, Fresh, Apart, Reached, Small;
      ghost var x := d.tables.Tables();
      var all := LoadActive(w, order);
      var q := all;
      var manifestsProcessed: nat := 0;
      ghost var t: nat := 0;
      served := false;
      OutcomeStarts(x, a, d.approving);
      ReachedStarts(all, a);
      assert q == all[t..];
      while q != [] && manifestsProcessed < MAX_MANIFESTS_PER_TICK
        invariant d.Valid() && PcOf(d.State(), w) == Tick(q, manifestsProcessed)
        invariant t <= |all| && q == all[t..] && manifestsProcessed <= MAX_MANIFESTS_PER_TICK
        invariant d.calm ==> Apart(all) && Fresh(d.tables.Tables(), q)
        invariant d.calm ==> t == manifestsProcessed && served == Reached(all, t, a)
        invariant d.calm && Small(x, a) ==> TickOutcome(x, d.tables.Tables(), a, served, d.approving)
        decreases |q|
      {
        manifestsProcessed, served := ServeOne(w, q, manifestsProcessed, all, t, x, a, served);
        t := t + 1;
        assert all[t..] == q[1..];
        q := q[1..];
      }
      if d.calm { ReachedEnds(all, t, 3, a); }
      EndOfTick(w, q, manifestsProcessed);
    }

    method EndOfTick(w: WorkerId, q: seq<Manifest>, served: nat)
      requires d.Valid() && (d.calm ==> w == d.sole)
      requires PcOf(d.State(), w) == Tick(q, served) && (q == [] || served >= MAX_MANIFESTS_PER_TICK)
      modifies d`workers, d`history
      ensures d.Valid() && PcOf(d.State(), w) == Idle && d.tables.Tables() == old(d.tables.Tables())
    {
      hide Deployment.Valid;
      d.Move(w, Take(false, 0));
    }

    // ---- The whole tick ---------------------------------------------

    /** Initiating one ended auction, if the lock is granted; a manifest without items is finalized at once. */
    method InitiateOne(w: WorkerId, b: AuctionId, ghost x: Db, ghost a: AuctionId)
      requires d.Valid() && (d.calm ==> w == d.sole) && PcOf(d.State(), w) == Idle
      modifies d, d.tables
      ensures d.Valid() && PcOf(d.State(), w) == Idle
      ensures d.calm && TickOutcome(x, old(d.tables.Tables()), a, false, d.approving) ==>
                TickOutcome(x, d.tables.Tables(), a, false, d.approving)
      ensures d.calm ==> OnlyAuction(old(d.tables.Tables()), d.tables.Tables(), b)
      ensures d.calm ==> OthersAwait(old(d.tables.Tables()), d.tables.Tables(), b)
      ensures d.calm && b in old(d.tables.manifests) ==>
                SettlementUntouched(old(d.tables.Tables()), d.tables.Tables())
      ensures d.calm && CanInitiate(old(d.tables.Tables()), b) ==>
                Initiated(old(d.tables.Tables()), d.tables.Tables(), b)
    {
      hide Deployment.Valid, OnlyAuction, OthersAwait, TickOutcome, CanInitiate, Initiated, PlanItems, FinalizeTx,
           InitiationUntouched;
      var granted: bool := *;
      if d.calm { granted := true; }
      if !granted { return; }
      ghost var y := d.tables.Tables();
      var created := d.InitiateSettlement(w, b);
      ghost var z := d.tables.Tables();
      if created.Some? && created.value.items == [] {
        var _ := d.FinalizeManifest(w, created.value, Job(created.value, 0, 0, [], 0));
        ghost var f := d.tables.Tables();
        d.Move(w, Take(false, 0));
        if d.calm { EmptyFinalized(y, z, f, created.value); }
      }
      if d.calm {
        if created.Some? && CanInitiate(y, b) { InitiatedAs(y, z, d.tables.Tables(), created.value); }
        if TickOutcome(x, y, a, false, d.approving) { OutcomeInitiated(x, y, d.tables.Tables(), a, b, d.approving); }
      }
    }

    /** `initiateNewSettlements`, over the auctions its query found: in a calm deployment each that was
        ended without a manifest gets the manifest planned for it, and is completed at once if there is
        nothing to do. */
    method InitiateNewSettlements(w: WorkerId, ended: seq<AuctionId>, ghost a: AuctionId)
      requires d.Valid() && (d.calm ==> w == d.sole) && PcOf(d.State(), w) == Idle
      modifies d, d.tables
      ensures d.Valid() && PcOf(d.State(), w) == Idle
      ensures d.calm ==> TickOutcome(old(d.tables.Tables()), d.tables.Tables(), a, false, d.approving)
      ensures d.calm ==> forall b :: b in ended && CanInitiate(old(d.tables.Tables()), b) ==>
                                       Initiated(old(d.tables.Tables()), d.tables.Tables(), b)
    {
      hide Deployment.Valid, TickOutcome, Progress, OthersAwait, OnlyAuction, SettlementUntouched, Initiated,
           CanInitiate;
      ghost var x := d.tables.Tables();
      OutcomeStarts(x, a, d.approving);
      ProgressStarts(x);
      for i := 0 to |ended|
        invariant d.Valid() && PcOf(d.State(), w) == Idle
        invariant d.calm ==> TickOutcome(x, d.tables.Tables(), a, false, d.approving)
        invariant d.calm ==> Progress(x, d.tables.Tables(), ended[..i])
      {
        ghost var y := d.tables.Tables();
        InitiateOne(w, ended[i], x, a);
        if d.calm { ProgressNext(x, y, d.tables.Tables(), ended[..i], ended[i]); }
        assert ended[..i + 1] == ended[..i] + [ended[i]];
      }
      assert ended[..|ended|] == ended;
      if d.calm { ProgressEnds(x, d.tables.Tables(), ended); }
    }

    /** `tick`.  The lists are whatever order the two queries return.  `loaded` is the state in which the
        active manifests were loaded: the tick serves auction `a` iff Redis is healthy and the auction is
        among the first three of them. */
    method RunTick(w: WorkerId, healthy: bool, ended: seq<AuctionId>, order: seq<AuctionId>, ghost a: AuctionId)
      returns (ghost served: bool, ghost loaded: Db)
      requires service.d == d && d.Valid() && (d.calm ==> w == d.sole)
      requires PcOf(d.State(), w) == Idle && Distinct(order)
      modifies d, d.tables
      ensures d.Valid() && PcOf(d.State(), w) == Idle
      ensures d.calm && Small(old(d.tables.Tables()), a) ==>
                TickOutcome(old(d.tables.Tables()), d.tables.Tables(), a, served, d.approving)
      ensures d.calm ==> TickOutcome(old(d.tables.Tables()), loaded, a, false, d.approving)
      ensures d.calm ==> (served <==> healthy && Reached(ActiveManifests(loaded, order), 3, a))
      ensures d.calm && served && a in old(d.tables.manifests) ==> old(d.tables.manifests)[a].status == Active
    {
      served, loaded := false, d.tables.Tables();
      if !healthy {
        OutcomeStarts(loaded, a, d.approving);
        return;
      }
      ghost var x := d.tables.Tables();
      InitiateNewSettlements(w, ended, a);
      loaded := d.tables.Tables();
      if d.calm { LockstepForOneInstance(d.init, d.history, w, d.retryEdge); LoadedFresh(loaded, order); }
      served := ProcessActiveManifests(w, order, a);
      if d.calm && served && a in x.manifests { ReachedActive(loaded, order, 3, a); }
    }

    /** A manifest that is stored in a calm deployment, however it got there, has a live auction while it is
        active and items that the bound applies to. */
    lemma StoredStarts(w: WorkerId, a: AuctionId)
      requires d.Valid() && d.calm && w == d.sole && a in d.tables.manifests && d.tables.manifests[a].status == Active
      ensures AuctionSettling(d.tables.Tables(), a) && Servable(d.tables.manifests[a].items)
      ensures d.tables.manifests[a].auction == a
    {
      hide Servable, SolePc;
      LockstepForOneInstance(d.init, d.history, w, d.retryEdge);
      StoredServable(d.init, d.history, d.retryEdge, a);
      ActiveSettling(d.tables.Tables(), a);
    }

    /** Any number of ticks in a calm deployment, with the gateway declining and timing out as it
        likes.  Three of them at most serve every five of the items still unacknowledged, or fewer at the
        end, and the last one completes or escalates the manifest.  A schedule that puts the auction
        among the first three manifests in that many healthy ticks therefore closes it.  If the gateway
        approves every call, and no item was out of attempts to begin with, one tick serves every five
        items, or fewer at the end, and the last one completes the manifest. */
    method RunTicks(w: WorkerId, schedule: seq<TickInput>, a: AuctionId) returns (ghost count: nat)
      requires service.d == d && d.Valid() && d.calm && w == d.sole && PcOf(d.State(), w) == Idle
      requires forall k :: 0 <= k < |schedule| ==> Distinct(schedule[k].order)
      requires a in d.tables.manifests && d.tables.manifests[a].status == Active
      requires |d.tables.manifests[a].items| <= 500
      modifies d, d.tables
      ensures d.Valid() && PcOf(d.State(), w) == Idle && a in d.tables.manifests
      ensures var items := old(d.tables.manifests)[a].items;
              var bound := TicksFor(Open(items, 0, |items|));
              && count <= bound
              && (count == bound ==> d.tables.manifests[a].status != Active)
              && (Chances(schedule, a) >= bound ==> d.tables.manifests[a].status != Active)
      ensures d.tables.manifests[a].status != Active ==>
                d.tables.manifests[a].status == Completed || d.tables.manifests[a].status == Escalated
      ensures var items := old(d.tables.manifests)[a].items;
              d.approving && Alive(items) ==>
                var n := ApprovedTicks(Open(items, 0, |items|));
                && count <= n && (count == n <==> d.tables.manifests[a].status == Completed)
                && (Chances(schedule, a) >= n ==> d.tables.manifests[a].status == Completed)
    {
      hide Deployment.Valid, TickOutcome, Chances, Servable, Reached, ActiveManifests, Open, TicksFor,
           ApprovedTicks, Alive;
      StoredStarts(w, a);
      ghost var items := d.tables.manifests[a].items;
      ghost var lists := [items];
      count := 0;
      NoChancesYet(a);
      assert schedule[..0] == [];
      for k := 0 to |schedule|
        invariant d.Valid() && PcOf(d.State(), w) == Idle
        invariant Serviced(d.tables.Tables(), a, items, lists, count, d.approving)
        invariant d.tables.manifests[a].status == Active ==> Chances(schedule[..k], a) <= count
      {
        ghost var x := d.tables.Tables();
        ghost var served, loaded;
        served, loaded := RunTick(w, schedule[k].healthy, schedule[k].ended, schedule[k].order, a);
        ChanceTaken(x, loaded, schedule, k, a, d.approving);
        if served {
          count := count + 1;
          ServicedTick(x, d.tables.Tables(), a, items, lists, count, d.approving);
          if d.tables.manifests[a].status == Active { lists := lists + [d.tables.manifests[a].items]; }
        } else {
          ServicedPause(x, d.tables.Tables(), a, items, lists, count, d.approving);
        }
      }
      assert schedule[..|schedule|] == schedule;
      SettlementTerminates(lists);
      if d.approving && Alive(items) { ServedInFull(d.tables.Tables(), a, items, lists, count); }
    }

    /** From the end of the auction to the end of its settlement: the manifest planned for it is completed or
        escalated once the schedule has given it three chances for every five, or fewer at the end, of its
        eligible participants with a held deposit.  If the gateway approves every call it is completed, and
        after one chance for every five. */
    method SettleEnded(w: WorkerId, schedule: seq<TickInput>, a: AuctionId)
      requires service.d == d && d.Valid() && d.calm && w == d.sole && PcOf(d.State(), w) == Idle
      requires forall k :: 0 <= k < |schedule| ==> Distinct(schedule[k].order)
      requires CanInitiate(d.tables.Tables(), a)
      requires |PlanItems(d.tables.Tables(), a, ParticipantsOf(d.tables.Tables(), a))| <= 500
      modifies d, d.tables
      ensures d.Valid() && a in d.tables.manifests
      ensures var n := |PlanItems(old(d.tables.Tables()), a, ParticipantsOf(old(d.tables.Tables()), a))|;
              && (Chances(schedule, a) >= TicksFor(n) ==>
                    d.tables.manifests[a].status == Completed || d.tables.manifests[a].status == Escalated)
              && (d.approving && Chances(schedule, a) >= ApprovedTicks(n) ==>
                    d.tables.manifests[a].status == Completed)
    {
      hide Deployment.Valid, TickOutcome, Chances, PlanItems, Open, TicksFor, ApprovedTicks, Alive;
      ghost var x := d.tables.Tables();
      PlanAlive(x, a, ParticipantsOf(x, a));
      PlanFresh(x, a, ParticipantsOf(x, a));
      AllOpen(PlanItems(x, a, ParticipantsOf(x, a)), 0);
      InitiateNewSettlements(w, [a], a);
      if d.tables.manifests[a].status == Active { var _ := RunTicks(w, schedule, a); }
    }
  }

  // ---- Initiation, over the auctions the query found ------------------

  /** Auction `b` has been initiated since `x`: its manifest has the items planned for it in `x`, active
      while the auction is settling, or completed if there is nothing to do. */
  predicate Initiated(x: Db, z: Db, b: AuctionId)
    requires b in x.auctions
  {
    && b in z.manifests
    && z.manifests[b].items == PlanItems(x, b, ParticipantsOf(x, b))
    && if z.manifests[b].items == [] then z.manifests[b].status == Completed
       else z.manifests[b].status == Active && AuctionSettling(z, b)
  }

  lemma EmptyFinalized(y: Db, z: Db, f: Db, m: Manifest)
    requires m.items == [] && AuctionSettling(z, m.auction) && SettlementUntouched(FinalizeTx(z, m), f)
    requires OnlyAuction(y, z, m.auction) && OthersAwait(y, z, m.auction) && InitiationUntouched(z, f)
    ensures m.auction in f.manifests && f.manifests[m.auction].items == [] && f.manifests[m.auction].status == Completed
    ensures OnlyAuction(y, f, m.auction) && OthersAwait(y, f, m.auction)
  {
    hide FinalizeTx;
    FinalizedRows(z, m);
    FinalizeOnly(z, f, m);
    QuietThenOnlyBoth(y, z, f, m.auction);
  }

  lemma InitiatedAs(y: Db, z: Db, f: Db, m: Manifest)
    requires CanInitiate(y, m.auction) && m.items == PlanItems(y, m.auction, ParticipantsOf(y, m.auction))
    requires m.items == [] ==>
               && m.auction in f.manifests && f.manifests[m.auction].items == []
               && f.manifests[m.auction].status == Completed
    requires m.items != [] ==>
               && f == z && m.auction in z.manifests && z.manifests[m.auction] == m && m.status == Active
               && AuctionSettling(z, m.auction)
    ensures Initiated(y, f, m.auction)
  {
  }

  lemma OutcomeInitiated(x: Db, y: Db, z: Db, a: AuctionId, b: AuctionId, g: bool)
    requires TickOutcome(x, y, a, false, g) && OnlyAuction(y, z, b)
    requires b in y.manifests ==> SettlementUntouched(y, z)
    ensures TickOutcome(x, z, a, false, g)
  {
    if a in x.manifests {
      if a == b { OutcomeThenQuiet(x, y, z, a, false, g); } else { OutcomeThenOnly(x, y, z, a, b, false, g); }
    }
  }

  /** Of the auctions that could be initiated in `x`, those in `done` have been and the others still can. */
  ghost predicate Progress(x: Db, y: Db, done: seq<AuctionId>) {
    && y.deposits == x.deposits && y.participants == x.participants
    && forall b :: CanInitiate(x, b) ==>
                     if b in done then Initiated(x, y, b) else CanInitiate(y, b) && y.auctions[b] == x.auctions[b]
  }

  lemma ProgressStarts(x: Db)
    ensures Progress(x, x, [])
  {
  }

  lemma ProgressNext(x: Db, y: Db, z: Db, done: seq<AuctionId>, c: AuctionId)
    requires Progress(x, y, done) && OnlyAuction(y, z, c) && OthersAwait(y, z, c)
    requires c in y.manifests ==> SettlementUntouched(y, z)
    requires CanInitiate(y, c) ==> Initiated(y, z, c)
    ensures Progress(x, z, done + [c])
  {
    hide PlanItems;
    forall b | CanInitiate(x, b)
      ensures if b in done + [c] then Initiated(x, z, b) else CanInitiate(z, b) && z.auctions[b] == x.auctions[b]
    {
      if b == c && b !in done { SamePlanItems(x, y, c, ParticipantsOf(x, c)); }
    }
  }

  lemma ProgressEnds(x: Db, y: Db, ended: seq<AuctionId>)
    requires Progress(x, y, ended)
    ensures forall b :: b in ended && CanInitiate(x, b) ==> Initiated(x, y, b)
  {
    hide Initiated;
  }

  // ---- Schedules ------------------------------------------------------

  /** What a tick finds: whether Redis is healthy, and what its two queries return in which order. */
  datatype TickInput = TickInput(healthy: bool, ended: seq<AuctionId>, order: seq<AuctionId>)

  predicate FirstThree(order: seq<AuctionId>, a: AuctionId) {
    exists i :: 0 <= i < |order| && i < 3 && order[i] == a
  }

  /** How many of the ticks are bound to serve auction `a` while its manifest is active. */
  function Chances(schedule: seq<TickInput>, a: AuctionId): nat {
    if schedule == [] then 0
    else
      var t := schedule[|schedule| - 1];
      Chances(schedule[..|schedule| - 1], a) + if t.healthy && FirstThree(t.order, a) then 1 else 0
  }

  lemma NoChancesYet(a: AuctionId)
    ensures Chances([], a) == 0
  {
  }

  /** Loading keeps the order, so an active manifest comes no later than its auction. */
  lemma {:induction false} LoadedNoLater(db: Db, order: seq<AuctionId>, i: nat) returns (k: nat)
    requires i < |order| && order[i] in db.manifests && db.manifests[order[i]].status == Active
    ensures k <= i && k < |ActiveManifests(db, order)| && ActiveManifests(db, order)[k] == db.manifests[order[i]]
    ensures |ActiveManifests(db, order)| <= |order|
  {
    var n := |order| - 1;
    ActiveAtMost(db, order[..n]);
    if i < n {
      k := LoadedNoLater(db, order[..n], i);
    } else {
      k := |ActiveManifests(db, order[..n])|;
    }
  }

  lemma {:induction false} ActiveAtMost(db: Db, order: seq<AuctionId>)
    ensures |ActiveManifests(db, order)| <= |order|
  {
    if order != [] { ActiveAtMost(db, order[..|order| - 1]); }
  }

  /** A tick with a chance serves the manifest if it is still active. */
  lemma ChanceTaken(x: Db, loaded: Db, schedule: seq<TickInput>, k: nat, a: AuctionId, g: bool)
    requires k < |schedule| && a in x.manifests && TickOutcome(x, loaded, a, false, g)
    requires x.manifests[a].auction == a
    ensures var t := schedule[k];
            var chance := t.healthy && FirstThree(t.order, a);
            && Chances(schedule[..k + 1], a) == Chances(schedule[..k], a) + (if chance then 1 else 0)
            && (chance && x.manifests[a].status == Active ==>
                  Reached(ActiveManifests(loaded, t.order), 3, a))
  {
    assert schedule[..k + 1][..k] == schedule[..k];
    var t := schedule[k];
    if FirstThree(t.order, a) && x.manifests[a].status == Active {
      var i :| 0 <= i < |t.order| && i < 3 && t.order[i] == a;
      var n := LoadedNoLater(loaded, t.order, i);
    }
  }

  lemma ActiveSettling(db: Db, a: AuctionId)
    requires Lockstep(db) && a in db.manifests && db.manifests[a].status == Active
    ensures AuctionSettling(db, a) && db.manifests[a].auction == a
  {
    assert LockstepAt(db, a);
  }

  lemma FinalizeOnly(z: Db, f: Db, m: Manifest)
    requires AuctionSettling(z, m.auction) && SettlementUntouched(FinalizeTx(z, m), f)
    ensures OnlyAuction(z, f, m.auction)
  {
    hide FinalizeTx, Verdicted, Judge, AuctionSettling;
    FinalizedRows(z, m);
  }

  lemma QuietThenOnlyBoth(x: Db, y: Db, z: Db, a: AuctionId)
    requires OnlyAuction(x, y, a) && OnlyAuction(y, z, a)
    ensures OnlyAuction(x, z, a)
  {
  }

  lemma ReachedActive(db: Db, order: seq<AuctionId>, n: nat, a: AuctionId)
    requires Reached(ActiveManifests(db, order), n, a) && a in db.manifests
    requires Fresh(db, ActiveManifests(db, order))
    ensures db.manifests[a].status == Active
  {
    var q := ActiveManifests(db, order);
    var i :| 0 <= i < |q| && i < n && q[i].auction == a;
    assert FreshCopy(db, q[i]);
  }

  /** Nothing has failed since the ticks began, and if they have closed the manifest, it was for good. */
  ghost predicate ApprovedSoFar(db: Db, a: AuctionId, lists: seq<seq<Item>>)
    requires a in db.manifests && lists != []
  {
    var last := lists[|lists| - 1];
    && (forall t :: 0 <= t < |lists| - 1 ==> ApprovedAt(lists, t))
    && (db.manifests[a].status != Active ==> db.manifests[a].status == Completed && Open(last, 0, |last|) <= 5)
  }

  /** How far `count` ticks have taken a manifest that began with `items`. */
  ghost predicate Serviced(db: Db, a: AuctionId, items: seq<Item>, lists: seq<seq<Item>>, count: nat, g: bool) {
    && a in db.manifests && |db.manifests[a].items| == |items| <= 500
    && db.manifests[a].auction == a
    && InProgressTicks(lists) && lists[0] == items && Servable(items)
    && (if db.manifests[a].status == Active then
          AuctionSettling(db, a) && db.manifests[a].items == lists[|lists| - 1] && count == |lists| - 1
        else
          (db.manifests[a].status == Completed || db.manifests[a].status == Escalated) && count == |lists|)
    && (g && Alive(items) ==> ApprovedSoFar(db, a, lists))
  }

  lemma ServicedPause(
    x: Db, z: Db, a: AuctionId, items: seq<Item>, lists: seq<seq<Item>>, count: nat, g: bool)
    requires Serviced(x, a, items, lists, count, g) && TickOutcome(x, z, a, false, g)
    ensures Serviced(z, a, items, lists, count, g)
  {
  }

  lemma ServicedTick(
    x: Db, z: Db, a: AuctionId, items: seq<Item>, lists: seq<seq<Item>>, count: nat, g: bool)
    requires count > 0 && Serviced(x, a, items, lists, count - 1, g) && x.manifests[a].status == Active
    requires TickOutcome(x, z, a, true, g)
    ensures a in z.manifests
    ensures z.manifests[a].status == Active ==> Serviced(z, a, items, lists + [z.manifests[a].items], count, g)
    ensures z.manifests[a].status != Active ==> Serviced(z, a, items, lists, count, g)
  {
    hide Pass, Judge, Open, NoneFails, Servable;
    var more := lists + [z.manifests[a].items];
    if z.manifests[a].status == Active {
      forall t | 0 <= t < |more| - 1 ensures TickAt(more, t) {
        if t < |lists| - 1 { assert TickAt(lists, t); }
      }
    }
    if g && Alive(items) {
      ApprovedTicksLeave(lists, |lists| - 1);
      ApprovedTick(lists[|lists| - 1], z.manifests[a].items);
      forall t | 0 <= t < |more| - 1 ensures ApprovedAt(more, t) {
        if t < |lists| - 1 { assert ApprovedAt(lists, t); }
      }
    }
  }

  /** With every call approved, each tick but the last leaves five fewer and the last one completes it. */
  lemma ServedInFull(db: Db, a: AuctionId, items: seq<Item>, lists: seq<seq<Item>>, count: nat)
    requires Serviced(db, a, items, lists, count, true) && Alive(items)
    ensures var n := ApprovedTicks(Open(items, 0, |items|));
            && count <= n && (count == n <==> db.manifests[a].status == Completed)
            && (db.manifests[a].status == Active || db.manifests[a].status == Completed)
  {
    hide Pass, Judge, Open;
    ApprovedTicksLeave(lists, |lists| - 1);
  }

  /** What one turn of the loop does to the copy: the item at `i` is attempted if it is processable, and
      acknowledged if the gateway approves everything. */
  predicate Turned(c: Manifest, e: Manifest, i: nat, g: bool)
    requires i < |c.items|
  {
    if Processable(c.items[i]) then
      && |e.items| == |c.items| && Attempted(c.items[i], e.items[i]) && (g ==> e.items[i] == Ack(c.items[i]))
      && e.items == c.items[i := e.items[i]] && e == Counted(c.(items := e.items))
    else e == c
  }

  /** The loop has passed over `m` up to `i`, leaving the copy `c`. */
  predicate Passing(m: Manifest, c: Manifest, i: nat, n: nat, g: bool) {
    && i <= |m.items| && |c.items| == |m.items|
    && c == m.(items := c.items, acked := c.acked)
    && PassedTo(m.items, c.items, i, n) && c.items[i..] == m.items[i..]
    && (g ==> NoneFails(m.items, c.items))
  }

  lemma PassingStarts(m: Manifest, g: bool)
    ensures Passing(m, m, 0, 0, g)
  {
  }

  lemma PassingEnds(m: Manifest, c: Manifest, i: nat, n: nat, g: bool)
    requires Passing(m, c, i, n, g) && (n >= ITEMS_PER_TICK || i == |m.items|)
    ensures |c.items| == |m.items| && Pass(m.items, c.items, 0, 0) && (g ==> NoneFails(m.items, c.items))
    ensures c == m.(items := c.items, acked := c.acked)
    ensures n >= ITEMS_PER_TICK || i >= |c.items|
  {
    PassStops(m.items, c.items, i, n);
    PassCompletes(m.items, c.items, i, n);
  }

  lemma PassingTurn(m: Manifest, c: Manifest, e: Manifest, i: nat, n: nat, g: bool)
    requires Passing(m, c, i, n, g) && i < |m.items| && n < ITEMS_PER_TICK && Turned(c, e, i, g)
    ensures Passing(m, e, i + 1, if Processable(c.items[i]) then n + 1 else n, g)
  {
    assert c.items[i] == c.items[i..][0] == m.items[i..][0] == m.items[i];
    PassedToDependsOnPrefix(m.items, c.items, e.items, i, n);
    assert e.items[i + 1..] == c.items[i + 1..] == c.items[i..][1..] == m.items[i..][1..] == m.items[i + 1..];
  }

  lemma ServingAgain(x: Db, y: Db, z: Db, a: AuctionId)
    requires Serving(x, y, a) && Serving(y, y, a) ==> Serving(y, z, a)
    requires Serving(x, y, a)
    ensures Serving(x, z, a)
  {
    assert Serving(y, y, a);
    forall b | AuctionSettling(x, b) ensures AuctionSettling(z, b) { assert AuctionSettling(y, b); }
  }
}
