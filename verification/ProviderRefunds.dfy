/** Refunds at the provider. The key a refund is sent under names the item and the
    amount alone, so a provider that honours keys answers a second equal refund with
    the first one's id, and the unique index on that id refuses it. */
module ProviderRefunds {
  import opened Money
  import opened Ledger
  import opened Orders
  import opened Settlements
  import opened Books
  import opened Runs
  import opened Outcomes
  import H = Histories
  import F = RefundSteps
  import C = Captures
  import S = ReleaseSteps
  import L = LossSteps

  lemma OtherOpsLeaveRefunds(db: Db, op: Op)
    requires Inv(db) && !op.DoRefund? && Apply(db, op).Ok?
    ensures Apply(db, op).value.refunds == db.refunds
  {
    hide Inv, ReleaseSpec, DisputeLostSpec, ConfirmSpec, RefundSpec, PriceAll, Allowed, FreezeItems,
         TransferEventItem;
    match op
    case DoConfirm(o, c, ready) => ConfirmLeavesRefunds(db, o, c, ready);
    case DoRelease(o, i, bps, ok) => ReleaseLeavesRefunds(db, o, i, bps, ok);
    case DoLoseDispute(p, d, a) => LossLeavesRefunds(db, p, d, a);
    case _ =>
  }

  lemma ConfirmLeavesRefunds(db: Db, o: nat, c: Capture, ready: set<nat>)
    requires Inv(db) && ConfirmSpec(db, o, c, ready).Ok?
    ensures ConfirmSpec(db, o, c, ready).value.refunds == db.refunds
  {
    hide Inv, RecordCaptureSpec, Sound, Balance, HasKey, CapturesOf, CaptureEntry;
    if db.orders[o].status == AwaitingPayment {
      C.CaptureJournal(db, o, c, ready);
    }
  }

  lemma ReleaseLeavesRefunds(db: Db, o: nat, i: nat, reserveBps: nat, providerOk: bool)
    requires Inv(db) && ReleaseSpec(db, o, i, reserveBps, providerOk).Ok?
    ensures ReleaseSpec(db, o, i, reserveBps, providerOk).value.refunds == db.refunds
  {
    hide Inv, ReleaseSpec, Sound, Balance, HasKey, CapturesOf, S.ReleaseEffect, SaneOffsets, OwingTotal, OwedBetween,
         ReplayedFrom, ApplyBasisPoints, S.ReleasedOrder, S.Releasable;
    if o < |db.orders| && S.Releasable(db.orders[o], i) {
      S.ReleasableItem(db.orders[o], i);
      S.ReleaseJournal(db, o, i, reserveBps, providerOk);
    } else {
      S.ReleaseLeavesClosed(db, o, i, reserveBps, providerOk);
    }
  }

  lemma LossLeavesRefunds(db: Db, payment: nat, dispute: nat, amount: int)
    requires Inv(db) && DisputeLostSpec(db, payment, dispute, amount).Ok?
    ensures DisputeLostSpec(db, payment, dispute, amount).value.refunds == db.refunds
  {
    hide Inv, LossEntry, Sound, Balance, HasKey, CapturesOf, LossRows, LossOffsets, L.LostOrder;
    if DisputedOrder(db, payment).Some? {
      hide DisputeLostSpec;
      L.LossJournal(db, payment, dispute, amount);
    }
  }

  /** A refund writes its own row, under an id that was free. */
  lemma RefundWrites(db: Db, o: nat, i: nat, q: RefundRequest)
    requires Inv(db) && RefundSpec(db, o, i, q).Ok?
    ensures o < |db.orders| && i < |db.orders[o].items| && RefundAmount(db.orders[o].items[i], q.requested).Ok?
    ensures var it := db.orders[o].items[i];
            RefundSpec(db, o, i, q).value.refunds
            == db.refunds + [RefundRowFor(o, i, it, RefundAmount(it, q.requested).value, RefOf(q.answer))]
    ensures q.answer.Accepts? && !RefTaken(db.refunds, RefOf(q.answer))
  {
    hide Inv, RefundSpec, Sound, Balance, HasKey, CapturesOf, ShareOf, IsSettled, F.RefundedOrder, F.Refundable,
         RefundAmount, RefTaken;
    F.RefundJournal(db, o, i, q);
    RefundSucceedsIff(db, o, i, q);
  }

  predicate DistinctRefs(rows: seq<RefundRow>) {
    forall m, n :: 0 <= m < n < |rows| && rows[m].providerRef.Some? ==> rows[m].providerRef != rows[n].providerRef
  }

  /** In every run no two refunds hold the same id of the provider. */
  lemma {:induction false} RefsAreDistinct(ops: seq<Op>)
    requires AllSensible(ops)
    ensures DistinctRefs(Run(ops).refunds)
  {
    hide Inv, Apply, AllSensible;
    if ops == [] {
    } else {
      var init, op := ops[..|ops| - 1], ops[|ops| - 1];
      H.PrefixSensible(ops, |ops| - 1);
      RefsAreDistinct(init);
      EveryRunKeepsTheBooks(init);
      var db := Run(init);
      if Apply(db, op).Ok? {
        if op.DoRefund? {
          RefundApplies(db, op);
          RefundWrites(db, op.order, op.item, op.request);
        } else {
          OtherOpsLeaveRefunds(db, op);
        }
      }
    }
  }

  lemma RefundApplies(db: Db, op: Op)
    requires op.DoRefund?
    ensures Apply(db, op) == RefundSpec(db, op.order, op.item, op.request)
  {
    hide RefundSpec;
  }

  // ---- a provider that honours the key ---------------------------------------------

  /** The ids a provider gives, one for each key it was sent. */
  type Ids = (nat, nat, int) -> nat

  /** An accepted refund carries the id of its key. */
  predicate Honours(db: Db, op: Op, ids: Ids) {
    op.DoRefund? && op.request.answer.Accepts? && op.order < |db.orders| && op.item < |db.orders[op.order].items| ==>
      var amount := RefundAmount(db.orders[op.order].items[op.item], op.request.requested);
      amount.Ok? ==> RefOf(op.request.answer) == Some(ids(op.order, op.item, amount.value))
  }

  ghost predicate AllHonoured(ops: seq<Op>, ids: Ids) {
    forall n :: 0 <= n < |ops| ==> Honours(Run(ops[..n]), ops[n], ids)
  }

  predicate RefsAreKeys(rows: seq<RefundRow>, ids: Ids) {
    forall n :: 0 <= n < |rows| ==> rows[n].providerRef == Some(ids(rows[n].order, rows[n].item, rows[n].amount))
  }

  lemma HonouredPrefix(ops: seq<Op>, ids: Ids)
    requires ops != [] && AllHonoured(ops, ids)
    ensures AllHonoured(ops[..|ops| - 1], ids) && Honours(Run(ops[..|ops| - 1]), ops[|ops| - 1], ids)
  {
    hide Run, Honours;
    var init := ops[..|ops| - 1];
    forall n | 0 <= n < |init| ensures Honours(Run(init[..n]), init[n], ids) {
      assert init[..n] == ops[..n] && init[n] == ops[n];
    }
  }

  lemma {:induction false} RowsCarryTheirKeys(ops: seq<Op>, ids: Ids)
    requires AllSensible(ops) && AllHonoured(ops, ids)
    ensures RefsAreKeys(Run(ops).refunds, ids)
  {
    hide Inv, Apply, AllSensible, AllHonoured, RefTaken, ShareOf, IsSettled;
    if ops == [] {
    } else {
      var init, op := ops[..|ops| - 1], ops[|ops| - 1];
      H.PrefixSensible(ops, |ops| - 1);
      HonouredPrefix(ops, ids);
      RowsCarryTheirKeys(init, ids);
      EveryRunKeepsTheBooks(init);
      var db := Run(init);
      if Apply(db, op).Ok? {
        if op.DoRefund? {
          RefundApplies(db, op);
          RefundWrites(db, op.order, op.item, op.request);
        } else {
          OtherOpsLeaveRefunds(db, op);
        }
      }
    }
  }

  /** An earlier refund of the same item and amount. */
  predicate RefundedBefore(rows: seq<RefundRow>, o: nat, i: nat, amount: int) {
    exists n :: 0 <= n < |rows| && rows[n].order == o && rows[n].item == i && rows[n].amount == amount
  }

  /** Different keys have different ids. */
  ghost predicate OneToOne(ids: Ids) {
    forall a: nat, b: nat, c: int, x: nat, y: nat, z: int :: ids(a, b, c) == ids(x, y, z) ==> (a, b, c) == (x, y, z)
  }

  /** With a provider that honours keys, in every run: a refund goes through exactly
      when its order, amount and payment allow it and no refund of the same item and
      amount went through before, however much of the item is left. */
  lemma EqualRefundIsRefusedIff(ops: seq<Op>, ids: Ids, o: nat, i: nat, q: RefundRequest)
    requires AllSensible(ops) && AllHonoured(ops, ids) && OneToOne(ids)
    requires o < |Run(ops).orders| && i < |Run(ops).orders[o].items| && Honours(Run(ops), DoRefund(o, i, q), ids)
    ensures var db := Run(ops);
            var ord := db.orders[o];
            var amount := RefundAmount(ord.items[i], q.requested);
            RefundSpec(db, o, i, q).Ok?
            <==> ord.status in {Paid, Fulfilled, Completed, PartiallyRefunded} && q.eligible && HasPayment(db, o)
                 && q.answer.Accepts?
                 && amount.Ok? && amount.value > 0 && ord.items[i].refunded + amount.value <= ord.items[i].bd.buyerTotal
                 && !RefundedBefore(db.refunds, o, i, amount.value)
  {
    EveryRunKeepsTheBooks(ops);
    RowsCarryTheirKeys(ops, ids);
    var db := Run(ops);
    RefundSucceedsIff(db, o, i, q);
    var amount := RefundAmount(db.orders[o].items[i], q.requested);
    if amount.Ok? { TakenIff(db.refunds, ids, o, i, amount.value); }
    hide Run, Inv, RefundSpec, RefundAmount, HasPayment, AllHonoured, RefTaken, RefundedBefore;
  }

  lemma TakenIff(rows: seq<RefundRow>, ids: Ids, o: nat, i: nat, amount: int)
    requires RefsAreKeys(rows, ids) && OneToOne(ids)
    ensures RefTaken(rows, Some(ids(o, i, amount))) <==> RefundedBefore(rows, o, i, amount)
  {
  }

  /** So of two equal refunds of one item at most one is ever recorded. */
  lemma EqualRefundsNeverBoth(ops: seq<Op>, ids: Ids, m: nat, n: nat)
    requires AllSensible(ops) && AllHonoured(ops, ids) && m < n < |Run(ops).refunds|
    ensures var rows := Run(ops).refunds;
            (rows[m].order, rows[m].item, rows[m].amount) != (rows[n].order, rows[n].item, rows[n].amount)
  {
    RowsCarryTheirKeys(ops, ids);
    RefsAreDistinct(ops);
    hide Run;
  }
}
