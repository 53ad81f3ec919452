/** Over whole histories nothing recorded is taken back: entries, captures,
    refunded totals, licences and closed transfers stay. */
module Histories {
  import opened Money
  import opened Ledger
  import opened Orders
  import opened Settlements
  import opened Books
  import opened Steps
  import opened Runs
  import T = Tax
  import R = Refunds
  import F = RefundSteps
  import C = Captures
  import S = ReleaseSteps
  import L = LossSteps

  // ---- nothing is taken back --------------------------------------------------------

  lemma SameTablesLater(db: Db)
    ensures Later(db, db)
  {
    forall x | 0 <= x < |db.orders| ensures LaterOrder(db.orders[x], db.orders[x]) { SameIsLater(db.orders[x]); }
  }

  /** A change of one order and nothing else. */
  lemma OneOrderLater(db: Db, o: nat, ord: Order)
    requires o < |db.orders| && LaterOrder(db.orders[o], ord)
    ensures Later(db, db.(orders := db.orders[o := ord]))
  {
    hide LaterOrder, LaterOrders;
    ReplaceLater(db.orders, o, ord);
  }

  lemma MoveIsLater(db: Db, o: nat, from: Status, to: Status)
    requires Move(db, o, from, to).Ok? && (Captured(to) <==> Captured(from)) && from != Refunded && to != Refunded
    ensures Later(db, Move(db, o, from, to).value)
  {
    hide Later, QuietOrder, LaterOrder;
    StatusMoveIsQuiet(db.orders[o], to);
    QuietFacts(db.orders[o], db.orders[o].(status := to));
    OneOrderLater(db, o, db.orders[o].(status := to));
  }

  lemma SimpleMovesAreLater(db: Db, op: Op)
    requires (op.DoBeginPayment? || op.DoFailPayment? || op.DoExpire? || op.DoComplete?) && Apply(db, op).Ok?
    ensures Later(db, Apply(db, op).value)
  {
    hide Later, Move, ConfirmSpec, CheckoutSpec, RefundSpec, ReleaseSpec, DisputeOpenedSpec, DisputeWonSpec,
         DisputeLostSpec, TransferEventSpec;
    SameTablesLater(db);
    match op
    case DoBeginPayment(o) => MoveIsLater(db, o, db.orders[o].status, AwaitingPayment);
    case DoFailPayment(o) =>
      if o < |db.orders| && db.orders[o].status == AwaitingPayment {
        MoveIsLater(db, o, AwaitingPayment, PaymentFailed);
      }
    case DoExpire(o) =>
      if o < |db.orders| && db.orders[o].status in {Draft, AwaitingPayment} {
        MoveIsLater(db, o, db.orders[o].status, Expired);
      }
    case DoComplete(o) => MoveIsLater(db, o, Fulfilled, Completed);
  }

  lemma DisputeOpenedIsLater(db: Db, payment: nat, amount: int)
    requires DisputeOpenedSpec(db, payment, amount).Ok?
    ensures Later(db, DisputeOpenedSpec(db, payment, amount).value)
  {
    hide Later, QuietOrder, LaterOrder;
    SameTablesLater(db);
    if DisputedOrder(db, payment).Some? {
      var o := DisputedOrder(db, payment).value;
      var ord := db.orders[o];
      var after := ord.(status := Disputed, items := FreezeItems(ord.items));
      assert QuietOrder(ord, after) by { DisputeIsQuiet(ord); }
      QuietFacts(ord, after);
      OneOrderLater(db, o, after);
    }
  }

  lemma DisputeWonIsLater(db: Db, payment: nat)
    requires DisputeWonSpec(db, payment).Ok?
    ensures Later(db, DisputeWonSpec(db, payment).value)
  {
    hide Later, Move;
    SameTablesLater(db);
    if DisputedOrder(db, payment).Some? && db.orders[DisputedOrder(db, payment).value].status == Disputed {
      MoveIsLater(db, DisputedOrder(db, payment).value, Disputed, Fulfilled);
    }
  }

  lemma TransferEventIsLater(db: Db, o: nat, i: nat, e: TransferEvent)
    ensures TransferEventSpec(db, o, i, e).Ok? && Later(db, TransferEventSpec(db, o, i, e).value)
  {
    hide Later, QuietOrder, LaterOrder;
    SameTablesLater(db);
    if o < |db.orders| && i < |db.orders[o].items| {
      var ord := db.orders[o];
      var after := ord.(items := ord.items[i := TransferEventItem(ord.items[i], e)]);
      assert QuietOrder(ord, after) by { TransferEventIsQuiet(ord, i, e); }
      QuietFacts(ord, after);
      OneOrderLater(db, o, after);
    }
  }

  lemma CheckoutIsLater(db: Db, p: T.Policy, b: T.Buyer, lines: seq<CatalogueLine>)
    requires CheckoutSpec(db, p, b, lines).Ok?
    ensures Later(db, CheckoutSpec(db, p, b, lines).value)
  {
    hide PriceAll, LaterOrder;
    forall x | 0 <= x < |db.orders| ensures LaterOrder(db.orders[x], db.orders[x]) { SameIsLater(db.orders[x]); }
  }

  lemma ConfirmIsLater(db: Db, o: nat, c: Capture, ready: set<nat>)
    requires Inv(db) && ConfirmSpec(db, o, c, ready).Ok?
    ensures Later(db, ConfirmSpec(db, o, c, ready).value)
  {
    hide Inv, RecordCaptureSpec, Sound, OrderOk, LaterOrder, LaterOrders, Balance, HasKey, CapturesOf, CaptureEntry,
         KeysOk;
    if db.orders[o].status == AwaitingPayment {
      C.CaptureJournal(db, o, c, ready);
      C.InvFacts(db, o);
      C.CapturedTables(db, ConfirmSpec(db, o, c, ready).value, o, c.payment, ready);
      ReplaceLater(db.orders, o, C.CapturedOrder(db.orders[o], ready));
    } else {
      SameTablesLater(db);
    }
  }

  lemma RefundIsLater(db: Db, o: nat, i: nat, q: RefundRequest)
    requires Inv(db) && RefundSpec(db, o, i, q).Ok?
    ensures Later(db, RefundSpec(db, o, i, q).value)
  {
    hide Inv, RefundSpec, Sound, OrderOk, LaterOrder, LaterOrders, Balance, HasKey, CapturesOf, KeysOk,
         R.RefundEffect, ShareOf, F.RefundedOrder, F.Refundable, RefundAmount, IsSettled;
    F.RefundJournal(db, o, i, q);
    C.InvFacts(db, o);
    var amount := RefundAmount(db.orders[o].items[i], q.requested).value;
    F.RefundedOrderOk(db.orders[o], i, amount, q.reversal);
    ReplaceLater(db.orders, o, F.RefundedOrder(db.orders[o], i, amount, q.reversal));
  }

  lemma ReleaseIsLater(db: Db, o: nat, i: nat, reserveBps: nat, providerOk: bool)
    requires Inv(db) && ReleaseSpec(db, o, i, reserveBps, providerOk).Ok?
    ensures Later(db, ReleaseSpec(db, o, i, reserveBps, providerOk).value)
  {
    hide Inv, ReleaseSpec, Sound, LaterOrder, LaterOrders, Balance, HasKey, CapturesOf, S.ReleaseEffect, SaneOffsets,
         OwingTotal, OwedBetween, ReplayedFrom, QuietOrder, ApplyBasisPoints, S.ReleasedOrder, S.Releasable;
    if o < |db.orders| && S.Releasable(db.orders[o], i) {
      S.ReleasableItem(db.orders[o], i);
      S.ReleaseJournal(db, o, i, reserveBps, providerOk);
      var after := ReleaseSpec(db, o, i, reserveBps, providerOk).value;
      var reserve, n :| S.ReleasedInto(db, after, o, i, reserve, n);
      S.ReleasedOrderIsQuiet(db.orders[o], i);
      QuietFacts(db.orders[o], S.ReleasedOrder(db.orders[o], i));
      ReplaceLater(db.orders, o, S.ReleasedOrder(db.orders[o], i));
    } else {
      S.ReleaseLeavesClosed(db, o, i, reserveBps, providerOk);
      SameTablesLater(db);
    }
  }

  lemma DisputeLostIsLater(db: Db, payment: nat, dispute: nat, amount: int)
    requires Inv(db) && DisputeLostSpec(db, payment, dispute, amount).Ok?
    ensures Later(db, DisputeLostSpec(db, payment, dispute, amount).value)
  {
    hide Inv, LossEntry, Sound, LaterOrder, LaterOrders, Balance, HasKey, CapturesOf, QuietOrder, LossRows,
         LossOffsets, L.LostOrder;
    if DisputedOrder(db, payment).Some? {
      hide DisputeLostSpec;
      var o := DisputedOrder(db, payment).value;
      L.LossJournal(db, payment, dispute, amount);
      L.LostOrderIsQuiet(db.orders[o]);
      QuietFacts(db.orders[o], L.LostOrder(db.orders[o]));
      ReplaceLater(db.orders, o, L.LostOrder(db.orders[o]));
    } else {
      SameTablesLater(db);
    }
  }

  lemma ApplyIsLater(db: Db, op: Op)
    requires Inv(db) && Apply(db, op).Ok?
    ensures Later(db, Apply(db, op).value)
  {
    hide Inv, Later, Move, ConfirmSpec, CheckoutSpec, RefundSpec, ReleaseSpec, DisputeOpenedSpec, DisputeWonSpec,
         DisputeLostSpec, TransferEventSpec, BeginPaymentSpec;
    match op
    case DoCheckout(p, b, ls) => CheckoutIsLater(db, p, b, ls);
    case DoConfirm(o, c, ready) => ConfirmIsLater(db, o, c, ready);
    case DoRefund(o, i, q) => RefundIsLater(db, o, i, q);
    case DoRelease(o, i, bps, ok) => ReleaseIsLater(db, o, i, bps, ok);
    case DoOpenDispute(p, a) => DisputeOpenedIsLater(db, p, a);
    case DoWinDispute(p) => DisputeWonIsLater(db, p);
    case DoLoseDispute(p, d, a) => DisputeLostIsLater(db, p, d, a);
    case DoTransferEvent(o, i, e) => TransferEventIsLater(db, o, i, e);
    case _ => SimpleMovesAreLater(db, op);
  }

  lemma LaterItemTransitive(a: Item, b: Item, c: Item)
    requires LaterItem(a, b) && LaterItem(b, c)
    ensures LaterItem(a, c)
  {
  }

  lemma LaterTransitive(a: Db, b: Db, c: Db)
    requires Later(a, b) && Later(b, c)
    ensures Later(a, c)
  {
    forall o | 0 <= o < |a.orders| ensures LaterOrder(a.orders[o], c.orders[o]) {
      assert LaterOrder(a.orders[o], b.orders[o]) && LaterOrder(b.orders[o], c.orders[o]);
      forall i | 0 <= i < |a.orders[o].items| ensures LaterItem(a.orders[o].items[i], c.orders[o].items[i]) {
        LaterItemTransitive(a.orders[o].items[i], b.orders[o].items[i], c.orders[o].items[i]);
      }
    }
  }

  lemma PrefixSensible(ops: seq<Op>, k: nat)
    requires AllSensible(ops) && k <= |ops|
    ensures AllSensible(ops[..k])
  {
    hide Sensible;
    forall n | 0 <= n < k ensures Sensible(ops[..k][n]) { assert Sensible(ops[n]); }
  }

  /** Whatever happens later, the journal only grows, a captured order stays
      captured, a licence row stays, refunded totals only rise, and a transfer that
      left the queue does not come back. */
  lemma {:induction false} NothingIsTakenBack(ops: seq<Op>, k: nat)
    requires AllSensible(ops) && k <= |ops|
    ensures Later(Run(ops[..k]), Run(ops))
    decreases |ops|
  {
    hide Inv, Later, Apply, AllSensible;
    if k == |ops| {
      assert ops[..k] == ops;
      SameTablesLater(Run(ops));
    } else {
      var init, op := ops[..|ops| - 1], ops[|ops| - 1];
      PrefixSensible(ops, |ops| - 1);
      assert init[..k] == ops[..k];
      NothingIsTakenBack(init, k);
      EveryRunKeepsTheBooks(init);
      SameTablesLater(Run(init));
      if Apply(Run(init), op).Ok? {
        ApplyIsLater(Run(init), op);
      }
      LaterTransitive(Run(ops[..k]), Run(init), Run(ops));
    }
  }
}
