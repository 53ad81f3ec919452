/** What a committed unit of work leaves on the rows themselves: who still holds a
    licence, what is still queued for payout, and what is owed back. */
module Effects {
  import opened Money
  import opened Ledger
  import opened Orders
  import opened Postings
  import opened Settlements
  import opened Books
  import opened Chargebacks
  import F = RefundSteps
  import C = Captures
  import L = LossSteps

  /** After a recorded payment the order is fulfilled, every item has an active
      licence, and each net above zero waits in the queue under its own amount. */
  lemma CaptureEffects(db: Db, o: nat, c: Capture, ready: set<nat>, i: nat)
    requires Inv(db) && o < |db.orders| && db.orders[o].status == AwaitingPayment && i < |db.orders[o].items|
    requires ConfirmSpec(db, o, c, ready).Ok?
    ensures var after := ConfirmSpec(db, o, c, ready).value;
            && |after.orders| == |db.orders| && |after.orders[o].items| == |db.orders[o].items|
            && after.orders[o].status == Fulfilled
            && var it := after.orders[o].items[i];
            && it.licence == Some(Active) && it.status == ItemFulfilled && it.bd == db.orders[o].items[i].bd
            && (it.bd.sellerNet > 0 ==> OpenTransfer(it) && it.transfer.value.amount == it.bd.sellerNet
                                        && (it.transfer.value.status == OnHold <==> it.seller in ready))
            && (it.bd.sellerNet <= 0 ==> it.transfer.None?)
  {
    hide Inv, RecordCaptureSpec, OrderOk, CaptureEntry, PostTo, ChargeFee;
    C.InvFacts(db, o);
    C.RecordCaptureShape(db, o, c, ready);
    CapturedItem(db.orders[o], i, ready);
  }

  lemma CapturedItem(ord: Order, i: nat, ready: set<nat>)
    requires OrderOk(ord) && !Captured(ord.status) && i < |ord.items|
    ensures var it := CaptureItem(ord.items[i], ready);
            && it.licence == Some(Active) && it.status == ItemFulfilled && it.bd == ord.items[i].bd
            && (it.bd.sellerNet > 0 ==> OpenTransfer(it) && it.transfer.value.amount == it.bd.sellerNet
                                        && (it.transfer.value.status == OnHold <==> it.seller in ready))
            && (it.bd.sellerNet <= 0 ==> it.transfer.None?)
  {
    assert Untouched(ord.items[i]);
  }

  /** After a refund the buyer's licence is withdrawn and the amount is on the item.
      If the seller had been paid, exactly the share is recorded for recovery and
      the transfer stays; if not, nothing is recorded and the transfer is out of
      the queue. No other item changes. */
  predicate RefundLeaves(before: Order, after: Order, i: nat, amount: int)
    requires i < |before.items|
  {
    && |after.items| == |before.items|
    && (forall x :: 0 <= x < |before.items| && x != i ==> after.items[x] == before.items[x])
    && after.refunded == before.refunded + amount
    && var was, it := before.items[i], after.items[i];
    && it.refunded == was.refunded + amount && it.licence == Some(Withdrawn) && it.bd == was.bd
    && it.seller == was.seller
    && (it.status == ItemRefunded <==> it.refunded == it.bd.buyerTotal)
    && (it.status == ItemRefunded || it.status == ItemPartlyRefunded)
    && (if IsSettled(was) then it.transfer == was.transfer else !OpenTransfer(it) && !IsSettled(it))
  }

  lemma RefundEffects(db: Db, o: nat, i: nat, q: RefundRequest)
    requires Inv(db) && RefundSpec(db, o, i, q).Ok?
    ensures o < |db.orders| && i < |db.orders[o].items| && RefundAmount(db.orders[o].items[i], q.requested).Ok?
    ensures var after := RefundSpec(db, o, i, q).value;
            var was := db.orders[o].items[i];
            var amount := RefundAmount(was, q.requested).value;
            var share := ShareOf(was, SellerNet, amount);
            && |after.orders| == |db.orders| && RefundLeaves(db.orders[o], after.orders[o], i, amount)
            && (IsSettled(was) && share > 0 ==>
                  after.offsets == db.offsets + [Offset(was.seller, share, 0, Outstanding)])
            && (!(IsSettled(was) && share > 0) ==> after.offsets == db.offsets)
  {
    hide Inv, RefundSpec, RefundEntry, PostTo, ShareOf, OrderOk, RefundAmount, IsSettled, RefundItem, RefundLeaves;
    C.InvFacts(db, o);
    F.RefundShape(db, o, i, q);
    RefundedRows(db.orders[o], i, RefundAmount(db.orders[o].items[i], q.requested).value, q.reversal);
  }

  lemma RefundedRows(ord: Order, i: nat, amount: int, reversal: bool)
    requires OrderOk(ord) && F.Refundable(ord, i, amount)
    ensures RefundLeaves(ord, F.RefundedOrder(ord, i, amount, reversal), i, amount)
  {
    hide SumOf, BorneBySellers;
    assert Delivered(ord.items[i]) && ItemOk(ord.items[i]);
    match ord.items[i].licence {
      case Some(Active) =>
      case Some(Withdrawn) =>
    }
  }

  /** While a dispute is open every transfer of the order that could still be paid
      out is on hold. */
  lemma DisputeHoldsTransfers(db: Db, payment: nat, amount: int, i: nat)
    requires DisputedOrder(db, payment).Some? && i < |db.orders[DisputedOrder(db, payment).value].items|
    requires DisputeOpenedSpec(db, payment, amount).Ok?
    ensures var o := DisputedOrder(db, payment).value;
            var after := DisputeOpenedSpec(db, payment, amount).value;
            && o < |after.orders| && after.orders[o].status == Disputed
            && |after.orders[o].items| == |db.orders[o].items|
            && var was, it := db.orders[o].items[i], after.orders[o].items[i];
            && (OpenTransfer(was) ==> it.transfer == Some(was.transfer.value.(status := OnHold)))
            && (!OpenTransfer(was) ==> it == was)
  {
    hide Allowed;
  }

  /** After a lost dispute nothing of the order is left to pay out, and what sellers
      already received is owed back in full. */
  lemma LossEffects(db: Db, payment: nat, dispute: nat, amount: int, i: nat)
    requires Inv(db) && DisputedOrder(db, payment).Some? && i < |db.orders[DisputedOrder(db, payment).value].items|
    requires DisputeLostSpec(db, payment, dispute, amount).Ok?
    ensures var o := DisputedOrder(db, payment).value;
            var after := DisputeLostSpec(db, payment, dispute, amount).value;
            && OwingTotal(after.offsets) == OwingTotal(db.offsets) + LossReceivable(db.orders[o].items)
            && o < |after.orders| && |after.orders[o].items| == |db.orders[o].items|
            && (db.orders[o].status == Disputed ==> after.orders[o].status == ChargebackLost)
            && !OpenTransfer(after.orders[o].items[i])
            && (IsSettled(after.orders[o].items[i]) <==> IsSettled(db.orders[o].items[i]))
  {
    hide Inv, DisputeLostSpec, Sound, Balance, HasKey, CapturesOf, LossEffect, LossRows, LossOffsets, OrderOk,
         OwingTotal, LossReceivable, LossItem, IsSettled;
    var o := DisputedOrder(db, payment).value;
    C.InvFacts(db, o);
    L.LossJournal(db, payment, dispute, amount);
    L.OrderIsConserving(db.orders[o]);
    LossOffsetsMatch(db.orders[o].items);
    OwingConcat(db.offsets, LossOffsets(db.orders[o].items));
    LostItem(db.orders[o], i);
  }

  lemma LostItem(ord: Order, i: nat)
    requires OrderOk(ord) && i < |ord.items|
    ensures !OpenTransfer(LossItem(ord.items[i])) && (IsSettled(LossItem(ord.items[i])) <==> IsSettled(ord.items[i]))
  {
    assert if Captured(ord.status) then Delivered(ord.items[i]) else Untouched(ord.items[i]);
  }
}
