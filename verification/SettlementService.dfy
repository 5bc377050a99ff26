/**
 The settlement code as written, awaiting where it awaits.  Each method follows the source
 branch by branch over its local variables; its contract says that it went through the machine
 from one program point to the next, with the same item, whatever the others did meanwhile.
 So every theorem about runs is a theorem about this code.
 */
module SettlementService {
  import opened Wrappers
  import opened Auctions
  import opened Settlement
  import opened SettlementMachine
  import opened SettlementTicks
  import opened Deployment

  /** Overwriting the same slot twice keeps the last item. */
  lemma PutTwice(j: Job, x: Item, y: Item)
    requires HasItem(j)
    ensures Put(Put(j, x), y) == Put(j, y)
  {
    assert j.m.items[j.i := x][j.i := y] == j.m.items[j.i := y];
  }

  class SettlementService {
    const d: Deployment

    constructor (d: Deployment)
      ensures this.d == d
    {
      this.d := d;
    }

    /** `processCaptureItem`: the item as it is returned to the loop, or nothing if an exception
        escaped. */
    method ProcessCaptureItem(w: WorkerId, loaded: Item, ghost j: Job) returns (item: Option<Item>)
      requires d.Valid() && (d.calm ==> w == d.sole)
      requires PcOf(d.State(), w) == At(j, ReadDeposit) && HasItem(j) && loaded == Current(j)
      requires loaded.action == Capture
      modifies d, d.tables
      ensures d.Valid()
      ensures item.Some? ==> PcOf(d.State(), w) == At(Put(j, item.value), SaveItem)
      ensures item.Some? ==> Attempted(loaded, item.value)
      ensures d.calm && StatusOf(old(d.tables.Tables()), loaded.deposit) == Some(Captured) ==>
                item == Some(loaded.(status := Acknowledged))
      ensures d.calm && d.approving ==> item == Some(loaded.(status := Acknowledged))
      ensures item.None? ==> PcOf(d.State(), w) == Abandon(j)
      ensures d.calm ==> item.Some? && SettlementUntouched(old(d.tables.Tables()), d.tables.Tables())
    {
      hide Deployment.Valid;
      var ok, status := d.FindOne(w, loaded.deposit, j, ReadDeposit);
      if !ok { return None; }
      if status.None? { return Some(loaded.(status := Failed, retries := loaded.retries + 1)); }
      if status.value == Captured { return Some(loaded.(status := Acknowledged)); }
      if status.value != Held { return Some(loaded.(status := Failed, retries := loaded.retries + 1)); }
      item := ChargeAndRecord(w, loaded, j);
    }

    /** The rest of `processCaptureItem`, from the `sent` mark on: the POS call and its `try`. */
    method ChargeAndRecord(w: WorkerId, loaded: Item, ghost j: Job) returns (item: Option<Item>)
      requires d.Valid() && (d.calm ==> w == d.sole)
      requires HasItem(j) && loaded == Current(j) && loaded.action == Capture
      requires PcOf(d.State(), w) == SendItem(j)
      modifies d, d.tables
      ensures d.Valid()
      ensures item.Some? ==> PcOf(d.State(), w) == At(Put(j, item.value), SaveItem)
      ensures item.Some? ==> Attempted(loaded, item.value)
      ensures d.calm && d.approving ==> item == Some(loaded.(status := Acknowledged))
      ensures item.None? ==> PcOf(d.State(), w) == Abandon(j)
      ensures d.calm ==> item.Some? && SettlementUntouched(old(d.tables.Tables()), d.tables.Tables())
    {
      hide Deployment.Valid;
      var it := loaded.(status := Sent);
      ghost var sent := Put(j, it);
      forall x { PutTwice(j, it, x); }
      var answer := d.CallGateway(w, it, sent);
      if answer == CircuitOpen || answer == Answered(Declined) {
        return Some(it.(status := Failed, retries := it.retries + 1));
      }
      if answer == Answered(Approved) {
        var recorded, _, _ := d.ExecuteWithRetry(w, CaptureRow, it, sent);
        if recorded { return Some(it.(status := Acknowledged)); }
      }
      // The POS may have charged the card although the call or the write failed.
      var ok, status := d.FindOne(w, it.deposit, sent, Recheck);
      if !ok { return None; }
      if status == Some(Captured) { return Some(it.(status := Acknowledged)); }
      return Some(it.(status := Failed, retries := it.retries + 1));
    }

    /** `processRefundItem`. */
    method ProcessRefundItem(w: WorkerId, loaded: Item, ghost j: Job) returns (item: Option<Item>)
      requires d.Valid() && (d.calm ==> w == d.sole)
      requires PcOf(d.State(), w) == At(j, ReadDeposit) && HasItem(j) && loaded == Current(j)
      requires loaded.action == Refund
      modifies d, d.tables
      ensures d.Valid()
      ensures item.Some? ==> PcOf(d.State(), w) == At(Put(j, item.value), SaveItem)
      ensures item.Some? ==> Attempted(loaded, item.value)
      ensures d.calm && StatusOf(old(d.tables.Tables()), loaded.deposit) == Some(Refunded) ==>
                item == Some(loaded.(status := Acknowledged))
      ensures d.calm && d.approving ==> item == Some(loaded.(status := Acknowledged))
      ensures item.None? ==> PcOf(d.State(), w) == Abandon(j)
      ensures d.calm ==> item.Some? && SettlementUntouched(old(d.tables.Tables()), d.tables.Tables())
    {
      hide Deployment.Valid;
      var ok, status := d.FindOne(w, loaded.deposit, j, ReadDeposit);
      if !ok { return None; }
      if status.None? { return Some(loaded.(status := Failed, retries := loaded.retries + 1)); }
      if status.value == Refunded { return Some(loaded.(status := Acknowledged)); }
      if status.value == RefundPending {
        item := ExecuteRefundPosCall(w, loaded, j);
        return;
      }
      if status.value != Held { return Some(loaded.(status := Failed, retries := loaded.retries + 1)); }

      item := InitiateRefund(w, loaded, j);
    }

    /** The rest of `processRefundItem`, for a deposit that was held: the durable initiation, and a second look
        if somebody else was first. */
    method InitiateRefund(w: WorkerId, loaded: Item, ghost j: Job) returns (item: Option<Item>)
      requires d.Valid() && (d.calm ==> w == d.sole)
      requires HasItem(j) && loaded == Current(j) && loaded.action == Refund
      requires PcOf(d.State(), w) == At(j, RefundInitDb(0))
      requires d.calm ==> StatusOf(d.tables.Tables(), loaded.deposit) == Some(Held)
      modifies d, d.tables
      ensures d.Valid()
      ensures item.Some? ==> PcOf(d.State(), w) == At(Put(j, item.value), SaveItem)
      ensures item.Some? ==> Attempted(loaded, item.value)
      ensures d.calm && d.approving ==> item == Some(loaded.(status := Acknowledged))
      ensures item.None? ==> PcOf(d.State(), w) == Abandon(j)
      ensures d.calm ==> item.Some? && SettlementUntouched(old(d.tables.Tables()), d.tables.Tables())
    {
      hide Deployment.Valid;
      var returned, initiated, _ := d.ExecuteWithRetry(w, RefundInitRow, loaded, j);
      if !returned { return None; }
      if !initiated {
        var ok, status := d.FindOne(w, loaded.deposit, j, InitRecheck);
        if !ok { return None; }
        if status == Some(Refunded) { return Some(loaded.(status := Acknowledged)); }
        if status != Some(RefundPending) {
          return Some(loaded.(status := Failed, retries := loaded.retries + 1));
        }
      }
      item := ExecuteRefundPosCall(w, loaded, j);
    }

    /** `executeRefundPosCall`, entered with the item about to be marked `sent`. */
    method ExecuteRefundPosCall(w: WorkerId, loaded: Item, ghost j: Job) returns (item: Option<Item>)
      requires d.Valid() && (d.calm ==> w == d.sole)
      requires HasItem(j) && loaded == Current(j) && loaded.action == Refund
      requires PcOf(d.State(), w) == SendItem(j)
      modifies d, d.tables
      ensures d.Valid()
      ensures item.Some? ==> PcOf(d.State(), w) == At(Put(j, item.value), SaveItem)
      ensures item.Some? ==> Attempted(loaded, item.value)
      ensures d.calm && d.approving ==> item == Some(loaded.(status := Acknowledged))
      ensures item.None? ==> PcOf(d.State(), w) == Abandon(j)
      ensures d.calm ==> item.Some? && SettlementUntouched(old(d.tables.Tables()), d.tables.Tables())
    {
      hide Deployment.Valid;
      var it := loaded.(status := Sent);
      ghost var sent := Put(j, it);
      forall x { PutTwice(j, it, x); }
      var answer := d.CallGateway(w, it, sent);
      if answer == CircuitOpen || answer == Answered(Declined) {
        return Some(it.(status := Failed, retries := it.retries + 1));
      }
      if answer == Answered(Approved) {
        var recorded, _, _ := d.ExecuteWithRetry(w, RefundDoneRow, it, sent);
        if recorded { return Some(it.(status := Acknowledged)); }
      }
      var ok, status := d.FindOne(w, it.deposit, sent, Recheck);
      if !ok { return None; }
      if status == Some(Refunded) { return Some(it.(status := Acknowledged)); }
      return Some(it.(status := Failed, retries := it.retries + 1));
    }

    /** `processManifestItem`. */
    method ProcessManifestItem(w: WorkerId, loaded: Item, ghost j: Job) returns (item: Option<Item>)
      requires d.Valid() && (d.calm ==> w == d.sole)
      requires PcOf(d.State(), w) == At(j, ReadDeposit) && HasItem(j) && loaded == Current(j)
      modifies d, d.tables
      ensures d.Valid()
      ensures item.Some? ==> PcOf(d.State(), w) == At(Put(j, item.value), SaveItem)
      ensures item.Some? ==> Attempted(loaded, item.value)
      ensures d.calm && d.approving ==> item == Some(loaded.(status := Acknowledged))
      ensures item.None? ==> PcOf(d.State(), w) == Abandon(j)
      ensures d.calm ==> item.Some? && SettlementUntouched(old(d.tables.Tables()), d.tables.Tables())
    {
      hide Deployment.Valid;
      if loaded.action == Capture { item := ProcessCaptureItem(w, loaded, j); }
      else { item := ProcessRefundItem(w, loaded, j); }
    }
  }
}
