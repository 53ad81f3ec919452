/** A refund keeps the books: the order advances, the entry is new, and the share
    taken back is either owed as a recovery or taken from the seller's payable. */
module RefundSteps {
  import opened Ledger
  import opened Orders
  import opened Postings
  import opened Settlements
  import opened Books
  import opened Steps
  import opened Refunds
  import C = Captures

  function RefundedOrder(ord: Order, i: nat, amount: int, reversal: bool): Order
    requires i < |ord.items|
  {
    ord.(items := ord.items[i := RefundItem(ord.items[i], amount, reversal)],
         refunded := ord.refunded + amount,
         status := if ord.refunded + amount >= ord.grandTotal then Refunded else PartiallyRefunded)
  }

  /** What a successful refund leaves of the tables. */
  ghost predicate RefundedInto(db: Db, after: Db, o: nat, i: nat, amount: int, q: RefundRequest)
    requires o < |db.orders| && i < |db.orders[o].items|
  {
    var it := db.orders[o].items[i];
    var share := ShareOf(it, SellerNet, amount);
    && after.orders == db.orders[o := RefundedOrder(db.orders[o], i, amount, q.reversal)]
    && after.offsets == db.offsets
       + (if IsSettled(it) && share > 0 then [Offset(it.seller, share, 0, Outstanding)] else [])
    && after.refunds == db.refunds + [RefundRowFor(o, i, it, amount, RefOf(q.answer))]
    && after.releases == db.releases && after.losses == db.losses
    && Sound(after.journal) && db.journal <= after.journal
    && (forall a :: Balance(after.journal, a) == Balance(db.journal, a) + RefundEffect(it, amount, IsSettled(it), a))
    && (forall k :: HasKey(after.journal, k) ==> HasKey(db.journal, k) || k == RefundKey(|db.refunds|))
    && (forall x :: CapturesOf(after.journal, x) == CapturesOf(db.journal, x))
  }

  /** The guards a refund passes. */
  predicate Refundable(ord: Order, i: nat, amount: int) {
    && i < |ord.items| && Captured(ord.status) && ord.status != Refunded && ord.status != Disputed
    && 0 < amount && ord.items[i].refunded + amount <= ord.items[i].bd.buyerTotal
  }

  lemma RefundShape(db: Db, o: nat, i: nat, q: RefundRequest)
    requires RefundSpec(db, o, i, q).Ok?
    requires o < |db.orders| ==> OrderOk(db.orders[o])
    ensures o < |db.orders| && i < |db.orders[o].items| && RefundAmount(db.orders[o].items[i], q.requested).Ok?
    ensures var it := db.orders[o].items[i];
            var amount := RefundAmount(it, q.requested).value;
            var posted := PostTo(db, RefundEntry(|db.refunds|, it, amount, IsSettled(it)));
            var share := ShareOf(it, SellerNet, amount);
            var after := RefundSpec(db, o, i, q).value;
            && Refundable(db.orders[o], i, amount)
            && posted.Ok?
            && after.journal == posted.value.journal
            && after.orders == db.orders[o := RefundedOrder(db.orders[o], i, amount, q.reversal)]
            && after.offsets == db.offsets
               + (if IsSettled(it) && share > 0 then [Offset(it.seller, share, 0, Outstanding)] else [])
            && after.refunds == db.refunds + [RefundRowFor(o, i, it, amount, RefOf(q.answer))]
            && after.releases == posted.value.releases && after.losses == posted.value.losses
            && after.payments == posted.value.payments
  {
    hide PostTo, RefundEntry, ShareOf, Scales, RefundItem, HasPayment, OrderOk, RefundStatus, RefundAmount, IsSettled;
    var ord := db.orders[o];
    var it := ord.items[i];
    var amount := RefundAmount(it, q.requested).value;
    RefundStatusIs(ord.(items := ord.items[i := RefundItem(it, amount, q.reversal)]), amount);
    PostedRefundIsPositive(db, |db.refunds|, it, amount, IsSettled(it));
  }

  /** The two transitions of a refund go through only from a captured order that is
      neither disputed nor already refunded. */
  lemma RefundStatusIs(ord: Order, amount: int)
    requires ord.status in {Paid, Fulfilled, Completed, PartiallyRefunded, Disputed}
    ensures RefundStatus(ord, amount).Ok? <==> ord.status != Disputed
    ensures RefundStatus(ord, amount).Ok? ==>
              RefundStatus(ord, amount).value
              == ord.(refunded := ord.refunded + amount,
                      status := if ord.refunded + amount >= ord.grandTotal then Refunded else PartiallyRefunded)
  {
  }

  /** A line of no value cannot be refunded: its entry would carry a line of zero. */
  lemma PostedRefundIsPositive(db: Db, refund: nat, it: Item, amount: int, settledAway: bool)
    requires PostTo(db, RefundEntry(refund, it, amount, settledAway)).Ok?
    ensures amount > 0
  {
    hide Total, ComponentLines, ResidueLine, ShareOf, Accepted, HasKey;
    var e := RefundEntry(refund, it, amount, settledAway);
    ValidateAcceptsIff(e);
    var last := Cr(Clearing, amount);
    assert e.lines[|e.lines| - 1] == last;
    assert last in e.lines;
  }

  lemma PostedRefundPositive(db: Db, it: Item, amount: int)
    ensures PostTo(db, RefundEntry(|db.refunds|, it, amount, IsSettled(it))).Ok? ==> amount > 0
  {
    hide RefundEntry, PostTo, IsSettled;
    if PostTo(db, RefundEntry(|db.refunds|, it, amount, IsSettled(it))).Ok? {
      PostedRefundIsPositive(db, |db.refunds|, it, amount, IsSettled(it));
    }
  }

  lemma RefundJournal(db: Db, o: nat, i: nat, q: RefundRequest)
    requires Inv(db) && RefundSpec(db, o, i, q).Ok?
    ensures o < |db.orders| && i < |db.orders[o].items| && RefundAmount(db.orders[o].items[i], q.requested).Ok?
    ensures var amount := RefundAmount(db.orders[o].items[i], q.requested).value;
            && Refundable(db.orders[o], i, amount)
            && RefundedInto(db, RefundSpec(db, o, i, q).value, o, i, amount, q)
  {
    hide Inv, RefundSpec, Sound, Balance, HasKey, CapturesOf, Net, PostTo, RefundEntry, RefundEffect, ShareOf,
         Accepted, KeysOk, Total, RefundItem, RefundAmount, IsSettled, OrderOk, ItemOk;
    C.InvFacts(db, o);
    RefundShape(db, o, i, q);
    var it := db.orders[o].items[i];
    var amount := RefundAmount(it, q.requested).value;
    var e := RefundEntry(|db.refunds|, it, amount, IsSettled(it));
    PostToEffect(db, e);
    RefundKeyIsNew(db);
    ItemIsOk(db.orders[o], i);
    assert 0 < amount <= it.bd.buyerTotal && e.key == RefundKey(|db.refunds|) by { RefundableAmount(db, o, i, amount); }
    RefundEntryAccepted(|db.refunds|, it, amount, IsSettled(it));
  }

  lemma ItemIsOk(ord: Order, i: nat)
    requires OrderOk(ord) && i < |ord.items|
    ensures ItemOk(ord.items[i])
  {
  }

  lemma RefundableAmount(db: Db, o: nat, i: nat, amount: int)
    requires o < |db.orders| && OrderOk(db.orders[o]) && Refundable(db.orders[o], i, amount)
    ensures 0 < amount <= db.orders[o].items[i].bd.buyerTotal
    ensures forall it, s :: RefundEntry(|db.refunds|, it, amount, s).key == RefundKey(|db.refunds|)
  {
    ItemIsOk(db.orders[o], i);
  }

  lemma RefundKeyIsNew(db: Db)
    requires KeysOk(db)
    ensures !HasKey(db.journal, RefundKey(|db.refunds|))
  {
    hide HasKey;
    assert !KeyOk(db, RefundKey(|db.refunds|));
  }

  // ---- the order ----------------------------------------------------------------

  lemma RefundItemFacts(it: Item, amount: int, reversal: bool)
    requires ItemOk(it) && Delivered(it) && 0 < amount && it.refunded + amount <= it.bd.buyerTotal
    ensures var after := RefundItem(it, amount, reversal);
            && ItemOk(after) && Delivered(after) && LaterItem(it, after)
            && after.seller == it.seller && after.bd == it.bd && after.refunded == it.refunded + amount
  {
  }

  lemma {:induction false} SumUpdate(items: seq<Item>, i: nat, it: Item, p: Part)
    requires i < |items|
    ensures SumOf(items[i := it], p) == SumOf(items, p) - PartOf(items[i], p) + PartOf(it, p)
  {
    hide PartOf;
    var n := |items| - 1;
    if i < n {
      SumUpdate(items[..n], i, it, p);
      assert items[i := it][..n] == items[..n][i := it];
    } else {
      assert items[i := it][..n] == items[..n];
    }
  }

  lemma RefundedOrderOk(ord: Order, i: nat, amount: int, reversal: bool)
    requires OrderOk(ord) && Refundable(ord, i, amount)
    ensures var after := RefundedOrder(ord, i, amount, reversal);
            && OrderOk(after) && LaterOrder(ord, after)
            && (forall s :: NetsOf(after, s) == NetsOf(ord, s))
            && |after.items| == |ord.items| && after.items[i].refunded == ord.items[i].refunded + amount
            && (forall x :: 0 <= x < |ord.items| && x != i ==> after.items[x] == ord.items[x])
  {
    var it, items := ord.items[i], ord.items[i := RefundItem(ord.items[i], amount, reversal)];
    assert ItemOk(it) && Delivered(it);
    RefundItemFacts(it, amount, reversal);
    hide RefundItem;
    forall x | 0 <= x < |items|
      ensures LaterItem(ord.items[x], items[x]) && Delivered(items[x]) && ItemOk(items[x])
      ensures items[x].seller == ord.items[x].seller && items[x].bd == ord.items[x].bd
    {
      LaterItemRefl(ord.items[x]);
    }
    hide LaterItem, Delivered, ItemOk, Untouched;
    SameBooks(ord.items, items);
    SumUpdate(ord.items, i, items[i], RefundedSoFar);
    PartsBounded(items, RefundedSoFar);
  }

  // ---- the books -----------------------------------------------------------------

  lemma RefundKeys(db: Db, after: Db, o: nat, i: nat, amount: int, q: RefundRequest)
    requires o < |db.orders| && i < |db.orders[o].items| && RefundedInto(db, after, o, i, amount, q) && KeysOk(db)
    requires LaterOrders(db.orders, after.orders)
    ensures KeysOk(after)
  {
    hide HasKey, Sound, Balance, CapturesOf, LaterOrders, RefundedOrder, ShareOf, RefundEffect;
    KeysStayOk(db, after);
  }

  /** What a refund does to a seller's accounts, and to the rows behind them. */
  lemma RefundMoves(db: Db, after: Db, o: nat, i: nat, amount: int, q: RefundRequest)
    requires o < |db.orders| && i < |db.orders[o].items| && RefundedInto(db, after, o, i, amount, q)
    ensures var it := db.orders[o].items[i];
            var share := ShareOf(it, SellerNet, amount);
            && (forall s: nat ::
                  Balance(after.journal, Payable(s))
                  == Balance(db.journal, Payable(s)) + if !IsSettled(it) && s == it.seller then share else 0)
            && (forall s: nat :: Balance(after.journal, Reserve(s)) == Balance(db.journal, Reserve(s)))
            && Balance(after.journal, SellerOffset)
               == Balance(db.journal, SellerOffset) + if IsSettled(it) then share else 0
    ensures after.releases == db.releases && after.losses == db.losses
    ensures after.orders == db.orders[o := RefundedOrder(db.orders[o], i, amount, q.reversal)]
    ensures after.refunds == db.refunds + [RefundRowFor(o, i, db.orders[o].items[i], amount, RefOf(q.answer))]
  {
    hide HasKey, Sound, Balance, CapturesOf, ShareOf, RefundedOrder, IsSettled, RefundRowFor;
  }

  lemma RefundKeepsNets(db: Db, o: nat, i: nat, amount: int, q: RefundRequest, s: nat)
    requires o < |db.orders| && OrderOk(db.orders[o]) && Refundable(db.orders[o], i, amount)
    ensures CapturedNets(db.orders[o := RefundedOrder(db.orders[o], i, amount, q.reversal)], s)
            == CapturedNets(db.orders, s)
  {
    hide OrderOk, Refundable, RefundedOrder, NetsOf, CapturedNets;
    RefundableIndex(db.orders[o], i, amount);
    RefundedOrderOk(db.orders[o], i, amount, q.reversal);
    CapturedNetsUpdate(db.orders, o, RefundedOrder(db.orders[o], i, amount, q.reversal), s);
  }

  lemma RefundKeepsPayables(db: Db, after: Db, o: nat, i: nat, amount: int, q: RefundRequest)
    requires o < |db.orders| && OrderOk(db.orders[o]) && Refundable(db.orders[o], i, amount)
    requires i < |db.orders[o].items| && RefundedInto(db, after, o, i, amount, q) && PayablesOk(db)
    ensures PayablesOk(after)
  {
    hide OrderOk, Refundable, RefundedInto, RefundedOrder, Balance, ShareOf, IsSettled, CapturedNets, Released, Lost,
         Reversals;
    var it := db.orders[o].items[i];
    RefundMoves(db, after, o, i, amount, q);
    RefundAppended(db.refunds, RefundRowFor(o, i, it, amount, RefOf(q.answer)));
    forall s: nat ensures Balance(after.journal, Payable(s)) == -PayableOf(after, s) {
      RefundKeepsNets(db, o, i, amount, q, s);
      assert Balance(db.journal, Payable(s)) == -PayableOf(db, s);
    }
  }

  lemma RefundKeepsReserves(db: Db, after: Db, o: nat, i: nat, amount: int, q: RefundRequest)
    requires o < |db.orders| && i < |db.orders[o].items| && RefundedInto(db, after, o, i, amount, q) && ReservesOk(db)
    ensures ReservesOk(after)
  {
    hide RefundedInto, Balance, ShareOf, IsSettled, Reserved, RefundRowFor, RefundedOrder;
    RefundMoves(db, after, o, i, amount, q);
  }

  lemma RefundKeepsReceivable(db: Db, after: Db, o: nat, i: nat, amount: int, q: RefundRequest)
    requires o < |db.orders| && OrderOk(db.orders[o]) && Refundable(db.orders[o], i, amount)
    requires i < |db.orders[o].items| && RefundedInto(db, after, o, i, amount, q) && ReceivableOk(db)
    ensures ReceivableOk(after)
  {
    hide OrderOk, Refundable, RefundedInto, Balance, ShareOf, IsSettled, OwingTotal, Replayed, Unposted, ItemOk,
         RefundRowFor, RefundedOrder;
    var it := db.orders[o].items[i];
    ItemIsOk(db.orders[o], i);
    RefundableAmount(db, o, i, amount);
    ShareIsNearest(it, SellerNet, amount);
    RefundMoves(db, after, o, i, amount, q);
    RefundReceivable(db, after, o, i, amount, q);
  }

  lemma RefundBalances(db: Db, after: Db, o: nat, i: nat, amount: int, q: RefundRequest)
    requires o < |db.orders| && OrderOk(db.orders[o]) && Refundable(db.orders[o], i, amount)
    requires RefundedInto(db, after, o, i, amount, q)
    requires ReceivableOk(db) && PayablesOk(db) && ReservesOk(db)
    ensures ReceivableOk(after) && PayablesOk(after) && ReservesOk(after)
  {
    assert i < |db.orders[o].items| by { RefundableIndex(db.orders[o], i, amount); }
    hide OrderOk, Refundable, RefundedInto, ReceivableOk, PayablesOk, ReservesOk;
    RefundKeepsReceivable(db, after, o, i, amount, q);
    RefundKeepsPayables(db, after, o, i, amount, q);
    RefundKeepsReserves(db, after, o, i, amount, q);
  }

  lemma RefundReceivable(db: Db, after: Db, o: nat, i: nat, amount: int, q: RefundRequest)
    requires o < |db.orders| && i < |db.orders[o].items| && RefundedInto(db, after, o, i, amount, q)
    requires ShareOf(db.orders[o].items[i], SellerNet, amount) >= 0
    ensures OwingTotal(after.offsets)
            == OwingTotal(db.offsets)
               + if IsSettled(db.orders[o].items[i]) then ShareOf(db.orders[o].items[i], SellerNet, amount) else 0
  {
    hide HasKey, Sound, Balance, CapturesOf, ShareOf, RefundedOrder, RefundEffect, IsSettled, OwingTotal;
    var it := db.orders[o].items[i];
    var added := Offset(it.seller, ShareOf(it, SellerNet, amount), 0, Outstanding);
    OwingConcat(db.offsets, [added]);
    OwingOne(added);
    assert db.offsets + [] == db.offsets;
  }

  /** The refunded totals of the items, and the amounts on their rows, move together. */
  lemma RefundTotals(orders: seq<Order>, rows: seq<RefundRow>, o: nat, i: nat, done: Order, row: RefundRow)
    requires o < |orders| && i < |orders[o].items| == |done.items| && row.order == o && row.item == i
    requires done.items[i].refunded == orders[o].items[i].refunded + row.amount
    requires forall x :: 0 <= x < |done.items| && x != i ==> done.items[x] == orders[o].items[x]
    requires forall x, y :: 0 <= x < |orders| && 0 <= y < |orders[x].items| ==>
                              orders[x].items[y].refunded == SumAmounts(AmountsOn(rows, x, y))
    ensures var after := orders[o := done];
            forall x, y :: 0 <= x < |after| && 0 <= y < |after[x].items| ==>
                             after[x].items[y].refunded == SumAmounts(AmountsOn(rows + [row], x, y))
  {
    hide AmountsOn, SumAmounts;
    var after := orders[o := done];
    forall x, y | 0 <= x < |after| && 0 <= y < |after[x].items|
      ensures after[x].items[y].refunded == SumAmounts(AmountsOn(rows + [row], x, y))
    {
      assert x != o ==> after[x] == orders[x];
      assert orders[x].items[y].refunded == SumAmounts(AmountsOn(rows, x, y));
      AmountsAppended(rows, row, x, y);
    }
  }

  lemma RefundRows(orders: seq<Order>, rows: seq<RefundRow>, o: nat, i: nat, amount: int, q: RefundRequest)
    requires RefundsOk(orders, rows) && o < |orders| && OrderOk(orders[o]) && Refundable(orders[o], i, amount)
    ensures var row := RefundRowFor(o, i, orders[o].items[i], amount, RefOf(q.answer));
            RefundsOk(orders[o := RefundedOrder(orders[o], i, amount, q.reversal)], rows + [row])
  {
    hide OrderOk, LaterOrders, LaterOrder, ItemOk, ShareOf, AmountsOn, SumAmounts;
    var row := RefundRowFor(o, i, orders[o].items[i], amount, RefOf(q.answer));
    assert RefundRowOk(orders, row) by { ItemIsOk(orders[o], i); RefundableItem(orders[o], i, amount); }
    hide RefundRowOk;
    RefundedOrderOk(orders[o], i, amount, q.reversal);
    var done := RefundedOrder(orders[o], i, amount, q.reversal);
    hide RefundedOrder, Refundable;
    RefundTotals(orders, rows, o, i, done, row);
    var after := orders[o := done];
    ReplaceLater(orders, o, done);
    forall n | 0 <= n < |rows| ensures RefundRowOk(after, rows[n]) { RefundRowStaysOk(orders, after, rows[n]); }
    RefundRowStaysOk(orders, after, row);
  }

  lemma RefundableItem(ord: Order, i: nat, amount: int)
    requires Refundable(ord, i, amount) && ItemOk(ord.items[i])
    ensures 0 < amount <= ord.items[i].bd.buyerTotal
  {
  }

  lemma AmountsAppended(rows: seq<RefundRow>, r: RefundRow, o: nat, i: nat)
    ensures AmountsOn(rows + [r], o, i) == AmountsOn(rows, o, i) + if r.order == o
            && r.item == i then [r.amount] else []
    ensures SumAmounts(AmountsOn(rows + [r], o, i)) == SumAmounts(AmountsOn(rows, o, i)) + if r.order == o
            && r.item == i then r.amount else 0
  {
    assert (rows + [r])[..|rows|] == rows;
    var xs := AmountsOn(rows, o, i);
    assert (xs + [r.amount])[..|xs|] == xs;
    assert xs + [] == xs;
  }

  lemma RefundTables(db: Db, after: Db, o: nat, i: nat, amount: int, q: RefundRequest)
    requires o < |db.orders| && OrderOk(db.orders[o]) && Refundable(db.orders[o], i, amount)
    requires RefundedInto(db, after, o, i, amount, q)
    requires SaneOffsets(db.offsets) && RefundsOk(db.orders, db.refunds)
    ensures var done := RefundedOrder(db.orders[o], i, amount, q.reversal);
            && after.orders == db.orders[o := done] && OrderOk(done) && LaterOrder(db.orders[o], done)
            && RefundsOk(after.orders, after.refunds)
            && after.releases == db.releases && Sound(after.journal) && SaneOffsets(after.offsets)
            && done.grandTotal == db.orders[o].grandTotal && (Captured(done.status) <==> Captured(db.orders[o].status))
            && (forall x :: CapturesOf(after.journal, x) == CapturesOf(db.journal, x))
  {
    RefundRows(db.orders, db.refunds, o, i, amount, q);
    hide Sound, OrderOk, LaterOrder, Balance, HasKey, CapturesOf, ShareOf, RefundEffect, RefundsOk, ItemOk,
         RefundItem, IsSettled;
    RefundedOrderOk(db.orders[o], i, amount, q.reversal);
    ItemIsOk(db.orders[o], i);
    RefundableItem(db.orders[o], i, amount);
    SharesStorable(db.orders[o].items[i], amount, SellerNet);
  }

  lemma SameCaptures(db: Db, after: Db)
    requires CapturesOk(db) && |after.orders| == |db.orders|
    requires forall x :: CapturesOf(after.journal, x) == CapturesOf(db.journal, x)
    requires forall x :: 0 <= x < |db.orders| ==>
                           after.orders[x].grandTotal == db.orders[x].grandTotal
                           && (Captured(after.orders[x].status) <==> Captured(db.orders[x].status))
    ensures CapturesOk(after)
  {
    hide CapturesOf, Captured, Total;
    forall x: nat ensures CaptureOk(after.journal, x, after.orders) { assert CaptureOk(db.journal, x, db.orders); }
  }

  lemma RefundKeepsInv(db: Db, o: nat, i: nat, q: RefundRequest)
    requires Inv(db) && RefundSpec(db, o, i, q).Ok?
    ensures Inv(RefundSpec(db, o, i, q).value)
  {
    hide RefundSpec, Inv, RefundedInto, Refundable, RefundAmount;
    RefundJournal(db, o, i, q);
    RefundedIntoKeepsInv(db, RefundSpec(db, o, i, q).value, o, i,
                         RefundAmount(db.orders[o].items[i], q.requested).value, q);
  }

  lemma RefundedIntoKeepsInv(db: Db, after: Db, o: nat, i: nat, amount: int, q: RefundRequest)
    requires Inv(db) && o < |db.orders| && Refundable(db.orders[o], i, amount)
             && RefundedInto(db, after, o, i, amount, q)
    ensures Inv(after)
  {
    hide Sound, OrderOk, ReleasesOk, SaneOffsets, CapturesOk, KeysOk, ReceivableOk, PayablesOk, ReservesOk,
         LaterOrder, LaterOrders, RefundedInto, RefundedOrder, Captured, Refundable, CapturesOf;
    assert OrderOk(db.orders[o]);
    assert i < |db.orders[o].items| by { RefundableIndex(db.orders[o], i, amount); }
    RefundTables(db, after, o, i, amount, q);
    RefundBalances(db, after, o, i, amount, q);
    ReplaceLater(db.orders, o, after.orders[o]);
    RefundKeys(db, after, o, i, amount, q);
    SameCaptures(db, after);
    RowsStayOk(db.orders, after.orders, db.refunds, db.releases);
  }

  lemma RefundableIndex(ord: Order, i: nat, amount: int)
    requires Refundable(ord, i, amount)
    ensures i < |ord.items|
  {
  }
}
