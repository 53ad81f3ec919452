/** Each unit of work keeps the books: one group of lemmas per operation. */
module Steps {
  import opened Money
  import opened Ledger
  import opened Orders
  import opened Postings
  import opened Settlements
  import opened Books
  import R = Refunds
  import T = Tax

  // ---- posting ------------------------------------------------------------------

  lemma PostToEffect(db: Db, e: Entry)
    requires Sound(db.journal) && PostTo(db, e).Ok?
    ensures var after := PostTo(db, e).value;
            var repeated := HasKey(db.journal, e.key);
            && after == db.(journal := after.journal)
            && Sound(after.journal) && db.journal <= after.journal
            && (!repeated ==> Accepted(e))
            && (forall a ::
                  Balance(after.journal, a) == Balance(db.journal, a) + if repeated then 0 else Net(e.lines, a))
            && (forall key :: HasKey(after.journal, key) <==> HasKey(db.journal, key) || key == e.key)
            && (forall o :: CapturesOf(after.journal, o)
                            == CapturesOf(db.journal, o)
                               + if !repeated && e.key.CaptureKey? && e.key.order == o then [e] else [])
  {
    hide Accepted, Net, ValidateSpec, Balance, CapturesOf;
    var j := db.journal;
    PostCases(j, e);
    PostKeepsSound(j, e);
    hide Sound, PostSpec;
    KeysAfterAppend(j, e);
    hide HasKey;
    forall a ensures Balance(j + [e], a) == Balance(j, a) + Net(e.lines, a) { BalanceAppend(j, e, a); }
    forall o
      ensures CapturesOf(j + [e], o) == CapturesOf(j, o) + if e.key.CaptureKey? && e.key.order == o then [e] else []
    {
      CapturesAppend(j, e, o);
    }
  }

  // ---- changes that leave the books alone ------------------------------------------

  /** A change of status or of a transfer that moves no money. */
  predicate QuietOrder(a: Order, b: Order) {
    && LaterOrder(a, b) && b.refunded == a.refunded
    && (Captured(b.status) <==> Captured(a.status))
    && (b.status == Refunded <==> a.status == Refunded)
    && forall i :: 0 <= i < |a.items| ==> QuietItem(a.items[i], b.items[i])
  }

  predicate QuietItem(a: Item, b: Item) {
    b.refunded == a.refunded && b.licence == a.licence && (b.transfer.Some? <==> a.transfer.Some?)
  }

  lemma QuietOrderOk(a: Order, b: Order)
    requires OrderOk(a) && QuietOrder(a, b)
    ensures OrderOk(b)
    ensures forall s :: NetsOf(b, s) == NetsOf(a, s)
  {
    forall i | 0 <= i < |a.items|
      ensures b.items[i].seller == a.items[i].seller && b.items[i].bd == a.items[i].bd
              && b.items[i].refunded == a.items[i].refunded
      ensures ItemOk(b.items[i])
      ensures Delivered(a.items[i]) ==> Delivered(b.items[i])
      ensures Untouched(a.items[i]) ==> Untouched(b.items[i])
    {
      assert LaterItem(a.items[i], b.items[i]) && QuietItem(a.items[i], b.items[i]) && ItemOk(a.items[i]);
    }
    hide ItemOk, Delivered, Untouched, LaterItem, QuietItem;
    SameBooks(a.items, b.items);
  }

  lemma QuietKeepsInv(db: Db, o: nat, ord: Order)
    requires Inv(db) && o < |db.orders| && QuietOrder(db.orders[o], ord)
    ensures Inv(db.(orders := db.orders[o := ord]))
  {
    hide Sound, KeysOk, SaneOffsets, ReleasesOk, CaptureOk, OrderOk, NetsOf, RefundRowOk, HasKey;
    var after := db.(orders := db.orders[o := ord]);
    QuietOrderOk(db.orders[o], ord);
    QuietFacts(db.orders[o], ord);
    hide QuietOrder;
    ReplaceLater(db.orders, o, ord);
    KeysStayOk(db, after);
    RowsStayOk(db.orders, after.orders, db.refunds, db.releases);
    forall x: nat ensures CaptureOk(after.journal, x, after.orders) {
      assert CaptureOk(db.journal, x, db.orders);
      QuietCapture(db.journal, x, db.orders, o, ord);
    }
    forall s: nat
      ensures CapturedNets(after.orders, s) == CapturedNets(db.orders, s)
    {
      CapturedNetsUpdate(db.orders, o, ord, s);
    }
  }

  lemma QuietFacts(a: Order, b: Order)
    requires QuietOrder(a, b)
    ensures LaterOrder(a, b) && |b.items| == |a.items|
    ensures forall i :: 0 <= i < |a.items| ==> b.items[i].refunded == a.items[i].refunded
    ensures b.grandTotal == a.grandTotal && (Captured(b.status) <==> Captured(a.status))
  {
    forall i | 0 <= i < |a.items|
      ensures b.items[i].refunded == a.items[i].refunded
    {
      assert QuietItem(a.items[i], b.items[i]);
    }
  }

  lemma QuietCapture(j: seq<Entry>, x: nat, orders: seq<Order>, o: nat, ord: Order)
    requires o < |orders| && CaptureOk(j, x, orders)
    requires ord.grandTotal == orders[o].grandTotal && (Captured(ord.status) <==> Captured(orders[o].status))
    ensures CaptureOk(j, x, orders[o := ord])
  {
  }

  lemma LaterItemRefl(it: Item)
    ensures LaterItem(it, it) && QuietItem(it, it)
  {
  }

  lemma StatusMoveIsQuiet(ord: Order, to: Status)
    requires Captured(to) <==> Captured(ord.status)
    requires ord.status != Refunded && to != Refunded
    ensures QuietOrder(ord, ord.(status := to))
  {
    forall i | 0 <= i < |ord.items|
      ensures LaterItem(ord.items[i], ord.items[i]) && QuietItem(ord.items[i], ord.items[i])
    {
      LaterItemRefl(ord.items[i]);
    }
    hide LaterItem, QuietItem;
  }

  /** Every allowed transition other than a payment or a refund keeps the order on
      its side of the capture. */
  lemma MoveKeepsInv(db: Db, o: nat, from: Status, to: Status)
    requires Inv(db) && Move(db, o, from, to).Ok?
    requires (Captured(to) <==> Captured(from)) && from != Refunded && to != Refunded
    ensures Inv(Move(db, o, from, to).value)
  {
    hide Inv, QuietOrder, Allowed;
    StatusMoveIsQuiet(db.orders[o], to);
    QuietKeepsInv(db, o, db.orders[o].(status := to));
  }

  lemma FreezeIsQuiet(it: Item)
    ensures LaterItem(it, FreezeItem(it)) && QuietItem(it, FreezeItem(it))
  {
  }

  lemma DisputeOpenedKeepsInv(db: Db, payment: nat, amount: int)
    requires Inv(db) && DisputeOpenedSpec(db, payment, amount).Ok?
    ensures Inv(DisputeOpenedSpec(db, payment, amount).value)
  {
    hide Inv, QuietOrder;
    if DisputedOrder(db, payment).Some? {
      var o := DisputedOrder(db, payment).value;
      var ord := db.orders[o];
      var after := ord.(status := Disputed, items := FreezeItems(ord.items));
      assert QuietOrder(ord, after) by { DisputeIsQuiet(ord); }
      QuietKeepsInv(db, o, after);
    }
  }

  lemma DisputeIsQuiet(ord: Order)
    requires ord.status == Disputed || Transition(ord, ord.status, Disputed).Ok?
    ensures QuietOrder(ord, ord.(status := Disputed, items := FreezeItems(ord.items)))
  {
    forall i | 0 <= i < |ord.items|
      ensures LaterItem(ord.items[i], FreezeItem(ord.items[i])) && QuietItem(ord.items[i], FreezeItem(ord.items[i]))
    {
      FreezeIsQuiet(ord.items[i]);
    }
    hide LaterItem, QuietItem, FreezeItem;
  }

  lemma TransferEventKeepsInv(db: Db, o: nat, i: nat, e: TransferEvent)
    requires Inv(db)
    ensures TransferEventSpec(db, o, i, e).Ok? && Inv(TransferEventSpec(db, o, i, e).value)
  {
    hide Inv, QuietOrder;
    if o < |db.orders| && i < |db.orders[o].items| {
      var ord := db.orders[o];
      var after := ord.(items := ord.items[i := TransferEventItem(ord.items[i], e)]);
      assert QuietOrder(ord, after) by { TransferEventIsQuiet(ord, i, e); }
      QuietKeepsInv(db, o, after);
    }
  }

  lemma TransferEventIsQuiet(ord: Order, i: nat, e: TransferEvent)
    requires i < |ord.items|
    ensures QuietOrder(ord, ord.(items := ord.items[i := TransferEventItem(ord.items[i], e)]))
  {
    var after := ord.items[i := TransferEventItem(ord.items[i], e)];
    forall x | 0 <= x < |ord.items| ensures LaterItem(ord.items[x], after[x]) && QuietItem(ord.items[x], after[x]) {
      if x != i { LaterItemRefl(ord.items[x]); }
    }
    hide LaterItem, QuietItem;
  }

  // ---- checkout -----------------------------------------------------------------

  /** What the decomposition guarantees of one line. */
  predicate PricedLine(bd: T.Breakdown) {
    T.NonNegative(bd) && T.Distributed(bd) == bd.buyerTotal && bd.buyerTotal == bd.listPrice + bd.taxTotal
  }

  lemma PricedIs(p: T.Policy, seller: T.Seller, b: T.Buyer, sale: T.Sale)
    requires sale.listPrice <= MAX_INT64 && sale.pspFeeBps >= 0 && sale.pspFeeGstBps >= 0
    ensures var r := T.ComputeSpec(p, seller, b, sale); r.Ok? ==> PricedLine(r.value) && r.value.borne == p.bearer
  {
    T.VerifyNeverFails(p, seller, b, sale);
    hide T.ComputeSpec;
  }

  lemma {:induction false} PriceAllItems(p: T.Policy, b: T.Buyer, lines: seq<CatalogueLine>)
    requires Sensible(DoCheckout(p, b, lines)) && PriceAll(p, b, lines).Ok?
    ensures var items := PriceAll(p, b, lines).value;
            && |items| == |lines|
            && forall i :: 0 <= i < |items| ==>
                             Untouched(items[i]) && PricedLine(items[i].bd) && items[i].bd.borne == p.bearer
  {
    hide SumOf, T.ComputeSpec, PricedLine;
    if lines == [] {
    } else {
      var init, l := lines[..|lines| - 1], lines[|lines| - 1];
      assert l in lines;
      assert forall x <- init :: x in lines;
      PriceAllItems(p, b, init);
      PricedIs(p, l.attributes, b, l.sale);
    }
  }

  lemma {:induction false} PricedWithin(items: seq<Item>)
    requires forall i :: 0 <= i < |items| ==> Untouched(items[i]) && PricedLine(items[i].bd)
    requires SumOf(items, BuyerTotal) <= STORE_MAX
    ensures ItemsOk(items) && SumOf(items, RefundedSoFar) == 0 && SumOf(items, BuyerTotal) >= 0
  {
    if items == [] {
    } else {
      var init, last := items[..|items| - 1], items[|items| - 1];
      SumNotNegative(init);
      PricedWithin(init);
      assert ItemOk(last);
      forall i | 0 <= i < |items| ensures ItemOk(items[i]) { if i < |init| { assert ItemOk(init[i]); } }
    }
  }

  lemma {:induction false} SumNotNegative(items: seq<Item>)
    requires forall i :: 0 <= i < |items| ==> PricedLine(items[i].bd)
    ensures SumOf(items, BuyerTotal) >= 0
  {
    if items == [] {
    } else {
      SumNotNegative(items[..|items| - 1]);
    }
  }

  /** Every order the checkout loop builds is conserving, line by line and in
      total, and its buyers' total is its list prices plus its taxes. */
  lemma CheckoutBuildsAConservingOrder(db: Db, p: T.Policy, b: T.Buyer, lines: seq<CatalogueLine>)
    requires Sensible(DoCheckout(p, b, lines)) && CheckoutSpec(db, p, b, lines).Ok?
    ensures var after := CheckoutSpec(db, p, b, lines).value;
            && |after.orders| == |db.orders| + 1
            && var ord := after.orders[|db.orders|];
            && |ord.items| == |lines| && OrderOk(ord)
            && ord.grandTotal == SumOf(ord.items, ListPrice) + SumOf(ord.items, TaxTotal)
            && (forall i :: 0 <= i < |ord.items| ==> ord.items[i].bd.borne == p.bearer)
            && !Captured(ord.status)
  {
    PriceAllItems(p, b, lines);
    var items := PriceAll(p, b, lines).value;
    hide PricedLine;
    PricedWithin(items);
    TotalsAddUp(items);
  }

  lemma {:induction false} TotalsAddUp(items: seq<Item>)
    requires ItemsOk(items)
    ensures SumOf(items, BuyerTotal) == SumOf(items, ListPrice) + SumOf(items, TaxTotal)
  {
    if items == [] {
    } else {
      ItemsOkParts(items);
      TotalsAddUp(items[..|items| - 1]);
    }
  }

  lemma CheckoutKeepsInv(db: Db, p: T.Policy, b: T.Buyer, lines: seq<CatalogueLine>)
    requires Inv(db) && Sensible(DoCheckout(p, b, lines)) && CheckoutSpec(db, p, b, lines).Ok?
    ensures Inv(CheckoutSpec(db, p, b, lines).value)
  {
    hide Inv, OrderOk, PriceAll;
    CheckoutBuildsAConservingOrder(db, p, b, lines);
    NewOrderKeepsInv(db, CheckoutSpec(db, p, b, lines).value.orders[|db.orders|]);
  }

  lemma NewOrderKeepsInv(db: Db, ord: Order)
    requires Inv(db) && OrderOk(ord) && !Captured(ord.status)
    ensures Inv(db.(orders := db.orders + [ord]))
  {
    hide Sound, KeysOk, SaneOffsets, ReleasesOk, CaptureOk, RefundRowOk, HasKey, OrderOk;
    var after := db.(orders := db.orders + [ord]);
    assert LaterOrders(db.orders, after.orders) by {
      forall x | 0 <= x < |db.orders| ensures LaterOrder(db.orders[x], after.orders[x]) { SameIsLater(db.orders[x]); }
    }
    hide LaterOrders;
    KeysStayOk(db, after);
    RowsStayOk(db.orders, after.orders, db.refunds, db.releases);
    NewOrderRefunds(db.orders, db.refunds, ord);
    hide RefundsOk;
    forall x: nat ensures CaptureOk(after.journal, x, after.orders) {
      assert CaptureOk(db.journal, x, db.orders);
      NewCapture(db.journal, x, db.orders, ord);
    }
    assert after.orders[..|db.orders|] == db.orders;
  }

  lemma NewOrderRefunds(orders: seq<Order>, rows: seq<RefundRow>, ord: Order)
    requires RefundsOk(orders, rows) && OrderOk(ord) && !Captured(ord.status)
    requires forall n :: 0 <= n < |rows| ==> RefundRowOk(orders + [ord], rows[n])
    ensures RefundsOk(orders + [ord], rows)
  {
    hide RefundRowOk, OrderOk;
    forall i | 0 <= i < |ord.items| ensures ord.items[i].refunded == R.SumAmounts(AmountsOn(rows, |orders|, i)) {
      NoAmounts(orders, rows, i);
      NothingRefunded(ord, i);
    }
  }

  lemma NothingRefunded(ord: Order, i: nat)
    requires OrderOk(ord) && !Captured(ord.status) && i < |ord.items|
    ensures ord.items[i].refunded == 0
  {
  }

  lemma NewCapture(j: seq<Entry>, x: nat, orders: seq<Order>, ord: Order)
    requires CaptureOk(j, x, orders) && !Captured(ord.status)
    ensures CaptureOk(j, x, orders + [ord])
  {
  }

  lemma {:induction false} NoAmounts(orders: seq<Order>, rows: seq<RefundRow>, i: nat)
    requires forall n :: 0 <= n < |rows| ==> RefundRowOk(orders, rows[n])
    ensures AmountsOn(rows, |orders|, i) == []
  {
    hide ShareOf;
    if rows == [] {
    } else {
      assert RefundRowOk(orders, rows[|rows| - 1]);
      NoAmounts(orders, rows[..|rows| - 1], i);
    }
  }

  // ---- capture ------------------------------------------------------------------

  /** A capture delivers every item of an order nothing has happened to. */
  lemma CaptureDelivers(it: Item, ready: set<nat>)
    requires ItemOk(it) && Untouched(it)
    ensures var after := CaptureItem(it, ready);
            LaterItem(it, after) && Delivered(after) && ItemOk(after) && after.seller == it.seller
            && after.bd == it.bd && after.refunded == 0
  {
  }

  lemma {:induction false} UntouchedSum(items: seq<Item>)
    requires forall i :: 0 <= i < |items| ==> items[i].refunded == 0
    ensures SumOf(items, RefundedSoFar) == 0
  {
    if items == [] {
    } else {
      UntouchedSum(items[..|items| - 1]);
    }
  }

  lemma CapturedOrderOk(ord: Order, ready: set<nat>)
    requires OrderOk(ord) && !Captured(ord.status)
    requires ord.grandTotal > 0 && BorneBySellers(ord.items) == 0
    ensures OrderOk(ord.(status := Fulfilled, items := CaptureItems(ord.items, ready)))
  {
    var items := CaptureItems(ord.items, ready);
    CapturedItems(ord, ready);
    hide LaterItem, Delivered, ItemOk, Untouched;
    SameBooks(ord.items, items);
    UntouchedSum(items);
  }

  lemma CapturedItems(ord: Order, ready: set<nat>)
    requires OrderOk(ord) && !Captured(ord.status)
    ensures var items := CaptureItems(ord.items, ready);
            forall i :: 0 <= i < |items| ==>
                          && LaterItem(ord.items[i], items[i]) && Delivered(items[i]) && ItemOk(items[i])
                          && items[i].seller == ord.items[i].seller && items[i].bd == ord.items[i].bd
                          && items[i].refunded == 0 == ord.items[i].refunded
  {
    forall i | 0 <= i < |ord.items|
      ensures Untouched(ord.items[i]) && ItemOk(ord.items[i])
    {
    }
    hide OrderOk, LaterItem, Delivered, ItemOk, Untouched;
    forall i | 0 <= i < |ord.items|
      ensures var it := CaptureItem(ord.items[i], ready);
              && LaterItem(ord.items[i], it) && Delivered(it) && ItemOk(it)
              && it.seller == ord.items[i].seller && it.bd == ord.items[i].bd
              && it.refunded == 0 == ord.items[i].refunded
    {
      CaptureDelivers(ord.items[i], ready);
      assert ord.items[i].refunded == 0 by { UntouchedRefunds(ord.items[i]); }
    }
  }

  lemma UntouchedRefunds(it: Item)
    requires Untouched(it)
    ensures it.refunded == 0
  {
  }

  lemma CapturedOrderIsLater(ord: Order, ready: set<nat>)
    requires OrderOk(ord) && !Captured(ord.status)
    ensures var after := ord.(status := Fulfilled, items := CaptureItems(ord.items, ready));
            && LaterOrder(ord, after)
            && (forall s :: NetsOf(after, s) == OwedTo(ord.items, s))
            && (forall i :: 0 <= i < |ord.items| ==> after.items[i].refunded == ord.items[i].refunded)
  {
    CapturedItems(ord, ready);
    hide OrderOk, LaterItem, Delivered, ItemOk;
    SameBooks(ord.items, CaptureItems(ord.items, ready));
  }

  /** The journal after both capture entries. */
  lemma ChargeFeeEffect(db: Db, o: nat, c: Capture, grandTotal: int)
    requires Sound(db.journal) && ChargeFee(db, o, c, grandTotal).Ok?
    ensures var after := ChargeFee(db, o, c, grandTotal).value;
            && after == db.(journal := after.journal)
            && Sound(after.journal) && db.journal <= after.journal
            && (forall a: Account :: a.Payable? || a.Reserve? || a == SellerOffset ==>
                  Balance(after.journal, a) == Balance(db.journal, a))
            && (forall key :: HasKey(after.journal, key) ==> HasKey(db.journal, key) || key == PspFeeKey(o, c.payment))
            && (forall key :: HasKey(db.journal, key) ==> HasKey(after.journal, key))
            && (forall x :: CapturesOf(after.journal, x) == CapturesOf(db.journal, x))
  {
    hide Sound, Balance, HasKey, CapturesOf, ApplyBasisPoints, PostTo, FeeEntry;
    var fee := OrEstimate(c.reportedFee, grandTotal, c.feeBps).value;
    var feeTax := OrEstimate(c.reportedTax, fee, c.feeGstBps).value;
    if fee > 0 || feeTax > 0 {
      PostToEffect(db, FeeEntry(o, c.payment, fee, feeTax));
      FeeTouches(o, c.payment, fee, feeTax);
    }
  }

  lemma FeeTouches(o: nat, payment: nat, fee: int, feeTax: int)
    ensures FeeEntry(o, payment, fee, feeTax).key == PspFeeKey(o, payment)
    ensures forall a: Account :: a.Payable? || a.Reserve? || a == SellerOffset ==>
              Net(FeeEntry(o, payment, fee, feeTax).lines, a) == 0
  {
    var l1, l2, l3 := Dr(PspFeeExpense, fee), Dr(InputCredit, feeTax), Cr(Clearing, fee + feeTax);
    OneLine(l1); OneLine(l2); OneLine(l3);
    forall a
      ensures Net(FeeEntry(o, payment, fee, feeTax).lines, a)
              == Net(WhenPositive(l1), a) + Net(WhenPositive(l2), a) + Signed(l3, a)
    {
      NetConcat(WhenPositive(l1), WhenPositive(l2), a);
      NetConcat(WhenPositive(l1) + WhenPositive(l2), [l3], a);
    }
  }
}
