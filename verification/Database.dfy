/**
 The tables as one mutable object, and the service's transactions on it, write by write.
 Every transaction takes its `fate` from the environment: an error before the commit rolls
 every write back, and an error after it leaves them all in place.
 */
module Database {
  import opened Wrappers
  import opened Auctions
  import opened Settlement
  import opened SettlementMachine

  class Database {
    var auctions: map<AuctionId, Auction>
    var participants: map<AuctionId, seq<Participant>>
    var deposits: map<DepositId, Deposit>
    var transitions: seq<TransitionRow>
    var ledger: seq<LedgerRow>
    var refunds: map<Key, RefundRow>
    var manifests: map<AuctionId, Manifest>

    function Tables(): Db
      reads this
    {
      Db(auctions, participants, deposits, transitions, ledger, refunds, manifests)
    }

    constructor (db: Db)
      ensures Tables() == db
    {
      auctions, participants, deposits := db.auctions, db.participants, db.deposits;
      transitions, ledger, refunds, manifests := db.transitions, db.ledger, db.refunds, db.manifests;
    }

    /** Puts the tables back as they were: ROLLBACK, or another client's commit. */
    method Restore(db: Db)
      modifies this
      ensures Tables() == db
    {
      auctions, participants, deposits := db.auctions, db.participants, db.deposits;
      transitions, ledger, refunds, manifests := db.transitions, db.ledger, db.refunds, db.manifests;
    }

    method FindDeposit(d: DepositId) returns (found: Option<Deposit>)
      ensures found == DepositOf(Tables(), d)
    {
      if d in deposits { found := Some(deposits[d]); } else { found := None; }
    }

    /** `recordCaptureInDb`: deposit row, transition row and ledger row, or none of them. */
    method RecordCapture(it: Item, fate: Fate)
      modifies this
      ensures Tables() == if Lands(fate) then CaptureTx(old(Tables()), it) else old(Tables())
    {
      var before := Tables();
      var locked := FindDeposit(it.deposit);
      if locked.None? || locked.value.status != Held { return; }
      deposits := deposits[it.deposit := locked.value.(status := Captured)];
      transitions := transitions
      + [TransitionRow(it.deposit, Some(Held), Captured, DepositCaptured, Some(it.key))];
      ledger := ledger + [LedgerRow(it.deposit, DepositCaptured, locked.value.amount, Some(it.key))];
      if fate.Aborted? { Restore(before); }
    }

    /** `recordRefundInitiationInDb`: true iff this call moved the deposit.  A duplicate refund key
        raises, which rolls back like any other error. */
    method RecordRefundInitiation(it: Item, fate: Fate) returns (initiated: bool, raised: bool)
      modifies this
      ensures Tables() == if Lands(fate) then RefundInitTx(old(Tables()), it) else old(Tables())
      ensures raised <==> RefundInitRaises(old(Tables()), it)
      ensures initiated <==> StatusOf(old(Tables()), it.deposit) == Some(Held) && !raised
    {
      var before := Tables();
      var locked := FindDeposit(it.deposit);
      if locked.None? || locked.value.status != Held { return false, false; }
      deposits := deposits[it.deposit := locked.value.(status := RefundPending)];
      transitions := transitions
      + [TransitionRow(it.deposit, Some(Held), RefundPending, DepositRefundInitiated, Some(it.key))];
      ledger := ledger + [LedgerRow(it.deposit, DepositRefundInitiated, locked.value.amount, Some(it.key))];
      if it.key in refunds {
        Restore(before);
        return false, true;
      }
      refunds := refunds[it.key := RefundRow(it.deposit, locked.value.amount, RefundOpen)];
      if fate.Aborted? { Restore(before); }
      return true, false;
    }

    /** `recordRefundCompletionInDb`. */
    method RecordRefundCompletion(it: Item, fate: Fate)
      modifies this
      ensures Tables() == if Lands(fate) then RefundDoneTx(old(Tables()), it) else old(Tables())
    {
      var before := Tables();
      var locked := FindDeposit(it.deposit);
      if locked.None? || locked.value.status != RefundPending { return; }
      deposits := deposits[it.deposit := locked.value.(status := Refunded)];
      transitions := transitions
      + [TransitionRow(it.deposit, Some(RefundPending), Refunded, DepositRefunded, Some(it.key))];
      ledger := ledger + [LedgerRow(it.deposit, DepositRefunded, locked.value.amount, Some(it.key))];
      if it.key in refunds { refunds := refunds[it.key := refunds[it.key].(status := RefundCompleted)]; }
      if fate.Aborted? { Restore(before); }
    }

    method SaveManifest(m: Manifest, fate: Fate)
      modifies this
      ensures Tables() == if Lands(fate) then SaveTx(old(Tables()), m) else old(Tables())
    {
      if Lands(fate) { manifests := manifests[m.auction := m]; }
    }

    /** `completeSettlement` and `escalateSettlement`: the auction row is locked and re-read, and
        both rows are saved or neither. */
    method CloseSettlement(m: Manifest, to: AuctionStatus, fate: Fate)
      modifies this
      ensures Tables() == if Lands(fate) then CloseTx(old(Tables()), m, to) else old(Tables())
    {
      var before := Tables();
      if m.auction !in auctions || auctions[m.auction].status != Settling { return; }
      auctions := auctions[m.auction := WithStatus(auctions[m.auction], to)];
      manifests := manifests[m.auction := m];
      if fate.Aborted? { Restore(before); }
    }

    /** `finalizeManifest`: complete when everything is acknowledged, escalate when something is out of
        attempts, otherwise record progress. */
    method FinalizeManifest(m: Manifest, fate: Fate)
      modifies this
      ensures Tables() == if Lands(fate) then FinalizeTx(old(Tables()), m) else old(Tables())
    {
      var acked := AckCount(m.items);
      if acked == |m.items| {
        CloseSettlement(m.(status := Completed, acked := acked), Settled, fate);
      } else if AnyExhausted(m.items) {
        CloseSettlement(m.(status := Escalated, acked := acked), SettlementFailed, fate);
      } else {
        SaveManifest(m.(acked := acked), fate);
      }
    }

    /** `handleManifestExpiry` and `escalateOversizedManifest`: the manifest is saved even when the
        auction is no longer settling. */
    method ForceClose(m: Manifest, fate: Fate)
      modifies this
      ensures Tables() == if Lands(fate) then ForceCloseTx(old(Tables()), m) else old(Tables())
    {
      var before := Tables();
      if m.auction in auctions && auctions[m.auction].status == Settling {
        auctions := auctions[m.auction := WithStatus(auctions[m.auction], SettlementFailed)];
      }
      manifests := manifests[m.auction := m];
      if fate.Aborted? { Restore(before); }
    }

    /** The loop over participants that fills a new manifest: one pending item for each eligible
        participant whose deposit is held, in participant order, and nobody else. */
    method BuildItems(a: AuctionId) returns (items: seq<Item>)
      requires a in auctions
      ensures items == PlanItems(Tables(), a, ParticipantsOf(Tables(), a))
    {
      var ps := if a in participants then participants[a] else [];
      items := [];
      for i := 0 to |ps|
        invariant items == PlanItems(Tables(), a, ps[..i])
      {
        var p := ps[i];
        assert ps[..i + 1][..i] == ps[..i];
        if p.eligible && p.deposit in deposits && deposits[p.deposit].status == Held {
          var act := if auctions[a].winnerId == Some(p.user) then Capture else Refund;
          items := items
          + [Item(p.deposit, p.user, act, deposits[p.deposit].amount, Pending, Key(a, p.deposit, act), 0)];
        }
      }
      assert ps[..|ps|] == ps;
    }

    /** `initiateSettlement`: the manifest it created, if any, which expires in 48 hours. */
    method InitiateSettlement(a: AuctionId, now: int, fate: Fate) returns (created: Option<Manifest>)
      modifies this
      ensures Tables() == if Lands(fate) then InitiateTx(old(Tables()), a, now) else old(Tables())
      ensures created.Some? <==> a in old(auctions) && old(auctions)[a].status == Ended && a !in old(manifests)
      ensures created.Some? ==> created.value == NewManifest(old(Tables()), a, now)
      ensures created.Some? ==> created.value.expiresAt == now + 172_800_000
    {
      var before := Tables();
      if a !in auctions || auctions[a].status != Ended || a in manifests { return None; }
      var items := BuildItems(a);
      var m := Manifest(a, items, Active, |items|, 0, now + MANIFEST_EXPIRY_MS);
      manifests := manifests[a := m];
      auctions := auctions[a := WithStatus(auctions[a], Settling)];
      if fate.Aborted? { Restore(before); }
      return Some(m);
    }

    /** The retry endpoint, from the copy `m` it loaded before taking the lock: rejected, or the
        failed items reset and both rows moved back, unless the trigger raises on the auction row. */
    method RetrySettlement(m: Manifest, retryEdge: bool, fate: Fate) returns (accepted: bool)
      modifies this
      ensures Tables() == if Lands(fate) then RetryTx(old(Tables()), m, retryEdge) else old(Tables())
      ensures accepted <==> CanRetry(old(Tables()), m, retryEdge)
    {
      var before := Tables();
      if m.status != Escalated || m.auction !in auctions || auctions[m.auction].status != SettlementFailed {
        return false;
      }
      var items, itemsReset := ResetFailed(m.items);
      if itemsReset == 0 { return false; }
      manifests := manifests[m.auction := m.(items := items, status := Active)];
      var row := WithStatus(auctions[m.auction], Settling);
      if !TriggerAdmits(auctions[m.auction], row, retryEdge) {
        Restore(before);
        return false;
      }
      auctions := auctions[m.auction := row];
      if fate.Aborted? { Restore(before); }
      return true;
    }
  }

  /** The retry endpoint's loop over the items, overwriting them one by one. */
  method ResetFailed(loaded: seq<Item>) returns (items: seq<Item>, itemsReset: nat)
    ensures items == ResetItems(loaded)
    ensures itemsReset > 0 <==> AnyFailed(loaded)
  {
    items, itemsReset := loaded, 0;
    for i := 0 to |items|
      invariant |items| == |loaded|
      invariant forall k :: 0 <= k < i ==> items[k] == ResetItem(loaded[k])
      invariant forall k :: i <= k < |items| ==> items[k] == loaded[k]
      invariant itemsReset > 0 <==> AnyFailed(loaded[..i])
    {
      var it := items[i];
      assert loaded[..i + 1] == loaded[..i] + [it];
      AnyFailedAppend(loaded[..i], it);
      if it.status == Failed {
        items := items[i := it.(status := Pending, retries := if it.retries >= MAX_RETRIES then 0 else it.retries)];
        itemsReset := itemsReset + 1;
      }
    }
    assert loaded[..|items|] == loaded;
    assert items == ResetItems(loaded);
  }

  lemma AnyFailedAppend(items: seq<Item>, it: Item)
    ensures AnyFailed(items + [it]) <==> AnyFailed(items) || it.status == Failed
  {
    var more := items + [it];
    if AnyFailed(items) {
      var i :| 0 <= i < |items| && items[i].status == Failed;
      assert more[i].status == Failed;
    }
    if it.status == Failed { assert more[|items|].status == Failed; }
  }
}
