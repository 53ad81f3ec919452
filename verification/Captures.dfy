/** Recording a capture: exactly one entry for the order, one licence an item,
    and the sellers' nets credited. */
module Captures {
  import opened Ledger
  import opened Orders
  import opened Postings
  import opened Settlements
  import opened Books
  import opened Steps

  /** The order a successful capture leaves. */
  function CapturedOrder(ord: Order, ready: set<nat>): Order {
    ord.(status := Fulfilled, items := CaptureItems(ord.items, ready))
  }

  lemma CaptureKeyIsNew(db: Db, o: nat, payment: nat)
    requires KeysOk(db) && o < |db.orders| && !Captured(db.orders[o].status)
    ensures !HasKey(db.journal, CaptureKey(o, payment))
  {
    hide HasKey;
    assert !KeyOk(db, CaptureKey(o, payment));
  }

  /** What recordCapture does to the tables: the capture entry is new, balanced
      and moves each seller's net; the fee entry touches no seller. */
  ghost predicate CapturedInto(db: Db, after: Db, o: nat, payment: nat, ready: set<nat>)
    requires o < |db.orders|
  {
    var ord := db.orders[o];
    var e := CaptureEntry(o, payment, ord);
    && after.orders == db.orders[o := CapturedOrder(ord, ready)]
    && after.offsets == db.offsets && after.refunds == db.refunds && after.releases == db.releases
    && after.losses == db.losses
    && ord.grandTotal > 0 && BorneBySellers(ord.items) == 0
    && Sound(after.journal) && db.journal <= after.journal
    && (forall a: Account :: a.Payable? || a.Reserve? || a == SellerOffset ==>
          Balance(after.journal, a) == Balance(db.journal, a) - if a.Payable? then OwedTo(ord.items, a.seller) else 0)
    && (forall k :: HasKey(after.journal, k) ==>
          HasKey(db.journal, k) || k == CaptureKey(o, payment) || k == PspFeeKey(o, payment))
    && (forall x :: CapturesOf(after.journal, x) == CapturesOf(db.journal, x) + if x == o then [e] else [])
  }

  lemma RecordCaptureShape(db: Db, o: nat, c: Capture, ready: set<nat>)
    requires o < |db.orders| && RecordCaptureSpec(db, o, c, ready).Ok?
    ensures var e := CaptureEntry(o, c.payment, db.orders[o]);
            && PostTo(db, e).Ok?
            && var charged := ChargeFee(PostTo(db, e).value, o, c, db.orders[o].grandTotal);
            && charged.Ok?
            && var after := RecordCaptureSpec(db, o, c, ready).value;
            && after.journal == charged.value.journal
            && after.orders == db.orders[o := CapturedOrder(db.orders[o], ready)]
            && after.offsets == charged.value.offsets && after.refunds == charged.value.refunds
            && after.releases == charged.value.releases && after.losses == charged.value.losses
            && after.payments == (if c.payment in db.payments then db.payments else db.payments[c.payment := o])
  {
    hide PostTo, ChargeFee, CaptureEntry, Allowed;
  }

  lemma CaptureJournal(db: Db, o: nat, c: Capture, ready: set<nat>)
    requires Inv(db) && o < |db.orders| && !Captured(db.orders[o].status)
    requires RecordCaptureSpec(db, o, c, ready).Ok?
    ensures CapturedInto(db, RecordCaptureSpec(db, o, c, ready).value, o, c.payment, ready)
  {
    hide Inv, Sound, Balance, HasKey, CapturesOf, Net, PostTo, ChargeFee, Accepted, Total, RecordCaptureSpec,
         CaptureEntry, KeysOk, ItemsOk, SumOf, BorneBySellers, CapturedOrder, Captured;
    var ord := db.orders[o];
    var e := CaptureEntry(o, c.payment, ord);
    InvFacts(db, o);
    CaptureKeyIsNew(db, o, c.payment);
    CaptureEntryKey(o, c.payment, ord);
    RecordCaptureShape(db, o, c, ready);
    PostToEffect(db, e);
    var posted := PostTo(db, e).value;
    ChargeFeeEffect(posted, o, c, ord.grandTotal);
    CaptureAcceptedIff(o, c.payment, ord);
    CaptureEntryShape(o, c.payment, ord);
  }

  lemma CaptureEntryKey(o: nat, payment: nat, ord: Order)
    ensures CaptureEntry(o, payment, ord).key == CaptureKey(o, payment)
  {
  }

  lemma InvFacts(db: Db, o: nat)
    requires Inv(db)
    ensures Sound(db.journal) && KeysOk(db)
    ensures o < |db.orders| ==> OrderOk(db.orders[o])
  {
    hide OrderOk, Sound, KeysOk;
  }

  lemma RecordCaptureKeepsInv(db: Db, o: nat, c: Capture, ready: set<nat>)
    requires Inv(db) && o < |db.orders| && !Captured(db.orders[o].status)
    requires RecordCaptureSpec(db, o, c, ready).Ok?
    ensures Inv(RecordCaptureSpec(db, o, c, ready).value)
  {
    hide RecordCaptureSpec, Inv, CapturedInto;
    CaptureJournal(db, o, c, ready);
    CapturedIntoKeepsInv(db, RecordCaptureSpec(db, o, c, ready).value, o, c.payment, ready);
  }

  lemma CapturedIntoKeepsInv(db: Db, after: Db, o: nat, payment: nat, ready: set<nat>)
    requires Inv(db) && o < |db.orders| && !Captured(db.orders[o].status) && CapturedInto(db, after, o, payment, ready)
    ensures Inv(after)
  {
    hide Sound, OrderOk, RefundRowOk, ReleasesOk, SaneOffsets, CapturesOk, KeysOk, ReceivableOk, PayablesOk,
         ReservesOk, LaterOrder, LaterOrders, CapturedInto, CapturedOrder, Captured;
    var ord, done := db.orders[o], CapturedOrder(db.orders[o], ready);
    assert OrderOk(ord);
    CaptureBalances(db, after, o, payment, ready);
    CaptureCaptures(db, after, o, payment, ready);
    CapturedTables(db, after, o, payment, ready);
    ReplaceLater(db.orders, o, done);
    CaptureKeys(db, after, o, payment, ready);
    RowsStayOk(db.orders, after.orders, db.refunds, db.releases);
  }

  lemma CapturedTables(db: Db, after: Db, o: nat, payment: nat, ready: set<nat>)
    requires o < |db.orders| && CapturedInto(db, after, o, payment, ready)
    requires !Captured(db.orders[o].status) && OrderOk(db.orders[o])
    ensures var done := CapturedOrder(db.orders[o], ready);
            && after.orders == db.orders[o := done] && OrderOk(done) && LaterOrder(db.orders[o], done)
            && |done.items| == |db.orders[o].items|
            && (forall i :: 0 <= i < |done.items| ==> done.items[i].refunded == db.orders[o].items[i].refunded)
    ensures after.offsets == db.offsets && after.refunds == db.refunds && after.releases == db.releases
            && after.losses == db.losses
    ensures Sound(after.journal)
  {
    hide Sound, OrderOk, LaterOrder, Balance, HasKey, CapturesOf, CaptureEntry, Captured;
    CapturedOrderOk(db.orders[o], ready);
    CapturedOrderIsLater(db.orders[o], ready);
  }

  lemma CaptureKeys(db: Db, after: Db, o: nat, payment: nat, ready: set<nat>)
    requires o < |db.orders| && CapturedInto(db, after, o, payment, ready) && KeysOk(db)
    requires LaterOrders(db.orders, after.orders)
    ensures KeysOk(after)
  {
    hide HasKey, Sound, Balance, CapturesOf, LaterOrders;
    KeysStayOk(db, after);
  }

  lemma CaptureCaptures(db: Db, after: Db, o: nat, payment: nat, ready: set<nat>)
    requires o < |db.orders| && CapturedInto(db, after, o, payment, ready) && CapturesOk(db)
    requires !Captured(db.orders[o].status) && OrderOk(db.orders[o])
    ensures CapturesOk(after)
  {
    hide HasKey, Sound, Balance, CapturesOf, CaptureOk, CaptureEntry, OrderOk;
    forall x: nat ensures CaptureOk(after.journal, x, after.orders) {
      assert CaptureOk(db.journal, x, db.orders);
      OneCapture(db, after, x, o, payment, CapturedOrder(db.orders[o], ready));
    }
  }

  lemma CaptureBalances(db: Db, after: Db, o: nat, payment: nat, ready: set<nat>)
    requires o < |db.orders| && CapturedInto(db, after, o, payment, ready)
    requires ReceivableOk(db) && PayablesOk(db) && ReservesOk(db)
    requires !Captured(db.orders[o].status) && OrderOk(db.orders[o])
    ensures ReceivableOk(after) && PayablesOk(after) && ReservesOk(after)
  {
    hide HasKey, Sound, Balance, CapturesOf, CaptureEntry, OrderOk, NetsOf;
    forall s: nat ensures CapturedNets(after.orders, s) == CapturedNets(db.orders, s) + OwedTo(db.orders[o].items, s) {
      CapturedNetsUpdate(db.orders, o, CapturedOrder(db.orders[o], ready), s);
      CapturedOrderOk(db.orders[o], ready);
      CapturedOrderIsLater(db.orders[o], ready);
      NotYetOwed(db.orders[o], s);
    }
  }

  lemma NotYetOwed(ord: Order, s: nat)
    requires !Captured(ord.status)
    ensures NetsOf(ord, s) == 0
  {
  }

  lemma OneCapture(db: Db, after: Db, x: nat, o: nat, payment: nat, done: Order)
    requires o < |db.orders| && after.orders == db.orders[o := done] && CaptureOk(db.journal, x, db.orders)
    requires !Captured(db.orders[o].status) && Captured(done.status) && done.grandTotal == db.orders[o].grandTotal > 0
    requires OrderOk(db.orders[o])
    requires CapturesOf(after.journal, x)
             == CapturesOf(db.journal, x) + if x == o then [CaptureEntry(o, payment, db.orders[o])] else []
    ensures CaptureOk(after.journal, x, after.orders)
  {
    hide CapturesOf, CaptureEntry, Total;
    if x == o {
      CaptureEntryShape(o, payment, db.orders[o]);
    }
  }

  lemma ConfirmKeepsInv(db: Db, o: nat, c: Capture, ready: set<nat>)
    requires Inv(db) && ConfirmSpec(db, o, c, ready).Ok?
    ensures Inv(ConfirmSpec(db, o, c, ready).value)
  {
    hide Inv, RecordCaptureSpec;
    if db.orders[o].status == AwaitingPayment {
      RecordCaptureKeepsInv(db, o, c, ready);
    }
  }
}
