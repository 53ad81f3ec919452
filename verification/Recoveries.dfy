/** When the seller-offset receivable can be trusted. Two things part it from the
    recovery rows: a release that nets a recovery under a used key, and a dispute
    lost again on an order with a net already paid out. Each of them always does. */
module Recoveries {
  import opened Money
  import opened Ledger
  import opened Orders
  import opened Postings
  import opened Settlements
  import opened Books
  import opened Runs
  import opened Outcomes
  import opened Chargebacks
  import H = Histories
  import F = RefundSteps
  import C = Captures
  import S = ReleaseSteps
  import L = LossSteps

  /** A release about to net a recovery under a key already in the journal. */
  predicate CollidesAt(db: Db, op: Op) {
    op.DoRelease? && op.order < |db.orders| && S.Releasable(db.orders[op.order], op.item)
    && Apply(db, op).Ok?
    && var it := db.orders[op.order].items[op.item];
    var gross := it.transfer.value.amount;
    Collides(db.journal, db.offsets, it.seller, gross - ReserveOf(gross, op.reserveBps), 0)
  }

  /** A dispute about to be lost whose entry is already in the journal. */
  predicate RepeatsAt(db: Db, op: Op) {
    op.DoLoseDispute? && HasKey(db.journal, ChargebackKey(op.dispute))
  }

  /** A net already paid out to its seller. */
  predicate PaidOut(items: seq<Item>) {
    exists i :: 0 <= i < |items| && IsSettled(items[i]) && items[i].bd.sellerNet > 0
  }

  /** Such a dispute goes through on an order with a net already paid out: its
      recovery is written once more, and not posted. */
  predicate UnpostsAt(db: Db, op: Op) {
    RepeatsAt(db, op) && Apply(db, op).Ok?
    && DisputedOrder(db, op.payment).Some? && PaidOut(db.orders[DisputedOrder(db, op.payment).value].items)
  }

  predicate SomeCollision(ops: seq<Op>) {
    exists n :: 0 <= n < |ops| && CollidesAt(Run(ops[..n]), ops[n])
  }

  predicate SomeUnposted(ops: seq<Op>) {
    exists n :: 0 <= n < |ops| && UnpostsAt(Run(ops[..n]), ops[n])
  }

  lemma {:induction false} PaidOutIff(items: seq<Item>)
    ensures LossReceivable(items) >= 0
    ensures LossReceivable(items) > 0 <==> PaidOut(items)
  {
    hide IsSettled;
    if items == [] {
    } else {
      var init, it := items[..|items| - 1], items[|items| - 1];
      PaidOutIff(init);
      if PaidOut(init) {
        var i :| 0 <= i < |init| && IsSettled(init[i]) && init[i].bd.sellerNet > 0;
        assert IsSettled(items[i]) && items[i].bd.sellerNet > 0;
      }
      if PaidOut(items) && !(IsSettled(it) && it.bd.sellerNet > 0) {
        var i :| 0 <= i < |items| && IsSettled(items[i]) && items[i].bd.sellerNet > 0;
        assert init[i] == items[i];
      }
    }
  }

  lemma OtherOpsWriteNoRows(db: Db, op: Op)
    requires Inv(db) && !op.DoRelease? && !op.DoLoseDispute? && Apply(db, op).Ok?
    ensures Apply(db, op).value.releases == db.releases && Apply(db, op).value.losses == db.losses
  {
    hide Inv, ReleaseSpec, DisputeLostSpec, ConfirmSpec, RefundSpec, PriceAll, Allowed, FreezeItems,
         TransferEventItem;
    match op
    case DoConfirm(o, c, ready) => ConfirmWritesNoRows(db, o, c, ready);
    case DoRefund(o, i, q) => RefundWritesNoRows(db, o, i, q);
    case _ =>
  }

  lemma ConfirmWritesNoRows(db: Db, o: nat, c: Capture, ready: set<nat>)
    requires Inv(db) && ConfirmSpec(db, o, c, ready).Ok?
    ensures ConfirmSpec(db, o, c, ready).value.releases == db.releases
            && ConfirmSpec(db, o, c, ready).value.losses == db.losses
  {
    hide Inv, RecordCaptureSpec, Sound, Balance, HasKey, CapturesOf, CaptureEntry;
    if db.orders[o].status == AwaitingPayment {
      C.CaptureJournal(db, o, c, ready);
    }
  }

  lemma RefundWritesNoRows(db: Db, o: nat, i: nat, q: RefundRequest)
    requires Inv(db) && RefundSpec(db, o, i, q).Ok?
    ensures var after := RefundSpec(db, o, i, q).value;
            after.releases == db.releases && after.losses == db.losses
  {
    hide Inv, RefundSpec, Sound, Balance, HasKey, CapturesOf, ShareOf, IsSettled, F.RefundedOrder, F.Refundable,
         RefundAmount;
    F.RefundJournal(db, o, i, q);
  }

  /** A release adds to the unposted recoveries exactly when it collides. */
  lemma ReleaseGap(db: Db, op: Op)
    requires Inv(db) && op.DoRelease?
    ensures var after := Step(db, op);
            && after.losses == db.losses
            && Replayed(after.releases) >= Replayed(db.releases)
            && (Replayed(after.releases) > Replayed(db.releases) <==> CollidesAt(db, op))
  {
    hide Inv, ReleaseSpec, Sound, Balance, HasKey, CapturesOf, S.ReleaseEffect, SaneOffsets, OwingTotal, OwedBetween,
         ReplayedFrom, ApplyBasisPoints, S.ReleasedOrder, S.Releasable, Collides;
    var o, i := op.order, op.item;
    if Apply(db, op).Ok? {
      if o < |db.orders| && S.Releasable(db.orders[o], i) {
        S.ReleasableItem(db.orders[o], i);
        S.ReleaseJournal(db, o, i, op.reserveBps, op.providerOk);
        var after := ReleaseSpec(db, o, i, op.reserveBps, op.providerOk).value;
        var it := db.orders[o].items[i];
        var reserve, n :| S.ReleasedInto(db, after, o, i, reserve, n)
                          && ApplyBasisPoints(it.transfer.value.amount, op.reserveBps, Down) == Ok(reserve);
        ReleaseAppended(db.releases, S.ReleaseRowFor(o, i, it, reserve, n));
        ReplaysIff(db.journal, db.offsets, it.seller, it.transfer.value.amount - reserve, 0);
      } else {
        S.ReleaseLeavesClosed(db, o, i, op.reserveBps, op.providerOk);
      }
    }
  }

  lemma LossGap(db: Db, op: Op)
    requires Inv(db) && op.DoLoseDispute?
    ensures var after := Step(db, op);
            && after.releases == db.releases
            && Unposted(after.losses) >= Unposted(db.losses)
            && (Unposted(after.losses) > Unposted(db.losses) <==> UnpostsAt(db, op))
  {
    hide Inv, DisputeLostSpec, Sound, Balance, HasKey, CapturesOf, LossRows, LossOffsets, L.LostOrder, OrderOk,
         KeysOk, ItemsOk, PaidOut, LossReceivable;
    if Apply(db, op).Ok? && DisputedOrder(db, op.payment).Some? {
      var o := DisputedOrder(db, op.payment).value;
      L.LossJournal(db, op.payment, op.dispute, op.amount);
      C.InvFacts(db, o);
      L.OrderIsConserving(db.orders[o]);
      var firstTime := !HasKey(db.journal, ChargebackKey(op.dispute));
      L.LossRowsSum(o, db.orders[o].items, firstTime, 0);
      LossesAppended(db.losses, LossRows(o, db.orders[o].items, firstTime));
      PaidOutIff(db.orders[o].items);
    } else {
      UnknownDispute(db, op);
    }
  }

  lemma UnknownDispute(db: Db, op: Op)
    requires op.DoLoseDispute? && !(Apply(db, op).Ok? && DisputedOrder(db, op.payment).Some?)
    ensures Step(db, op) == db
  {
    hide PostTo, LossEntry;
  }

  /** The gap between the books and the recovery rows: on one side it is exactly the
      collisions that open it, on the other exactly the repeated losses. */
  lemma {:induction false} GapIff(ops: seq<Op>)
    requires AllSensible(ops)
    ensures Replayed(Run(ops).releases) >= 0
    ensures Replayed(Run(ops).releases) > 0 <==> SomeCollision(ops)
    ensures Unposted(Run(ops).losses) >= 0
    ensures Unposted(Run(ops).losses) > 0 <==> SomeUnposted(ops)
  {
    hide Inv, Apply, Step, AllSensible, CollidesAt, UnpostsAt, Replayed, Unposted;
    if ops == [] {
      NoRows();
    } else {
      var init, op := ops[..|ops| - 1], ops[|ops| - 1];
      H.PrefixSensible(ops, |ops| - 1);
      GapIff(init);
      EveryRunKeepsTheBooks(init);
      OneMoreCollision(ops);
      OneMoreUnposted(ops);
      StepGap(Run(init), op);
    }
  }

  lemma NoRows()
    ensures Replayed(EMPTY.releases) == 0 && Unposted(EMPTY.losses) == 0
  {
  }

  lemma OneMoreCollision(ops: seq<Op>)
    requires ops != []
    ensures var init := ops[..|ops| - 1];
            SomeCollision(ops) <==> SomeCollision(init) || CollidesAt(Run(init), ops[|ops| - 1])
  {
    hide Run, CollidesAt;
    var init := ops[..|ops| - 1];
    assert forall n :: 0 <= n < |init| ==> init[..n] == ops[..n] && init[n] == ops[n];
    if SomeCollision(init) {
      var n :| 0 <= n < |init| && CollidesAt(Run(init[..n]), init[n]);
      assert CollidesAt(Run(ops[..n]), ops[n]);
    }
    if SomeCollision(ops) && !CollidesAt(Run(init), ops[|ops| - 1]) {
      var n :| 0 <= n < |ops| && CollidesAt(Run(ops[..n]), ops[n]);
      assert CollidesAt(Run(init[..n]), init[n]);
    }
  }

  lemma OneMoreUnposted(ops: seq<Op>)
    requires ops != []
    ensures var init := ops[..|ops| - 1];
            SomeUnposted(ops) <==> SomeUnposted(init) || UnpostsAt(Run(init), ops[|ops| - 1])
  {
    hide Run, UnpostsAt;
    var init := ops[..|ops| - 1];
    assert forall n :: 0 <= n < |init| ==> init[..n] == ops[..n] && init[n] == ops[n];
    if SomeUnposted(init) {
      var n :| 0 <= n < |init| && UnpostsAt(Run(init[..n]), init[n]);
      assert UnpostsAt(Run(ops[..n]), ops[n]);
    }
    if SomeUnposted(ops) && !UnpostsAt(Run(init), ops[|ops| - 1]) {
      var n :| 0 <= n < |ops| && UnpostsAt(Run(ops[..n]), ops[n]);
      assert UnpostsAt(Run(init[..n]), init[n]);
    }
  }

  lemma StepGap(db: Db, op: Op)
    requires Inv(db)
    ensures var after := Step(db, op);
            && Replayed(after.releases) >= Replayed(db.releases)
            && (Replayed(after.releases) > Replayed(db.releases) <==> CollidesAt(db, op))
            && Unposted(after.losses) >= Unposted(db.losses)
            && (Unposted(after.losses) > Unposted(db.losses) <==> UnpostsAt(db, op))
  {
    hide Inv, Apply, Replayed, Unposted, S.Releasable, Collides, HasKey, PaidOut;
    if op.DoRelease? {
      ReleaseGap(db, op);
    } else if op.DoLoseDispute? {
      LossGap(db, op);
    } else if Apply(db, op).Ok? {
      OtherOpsWriteNoRows(db, op);
    }
  }

  /** Over every run, the receivable is what the recovery rows are still owed exactly
      when what releases left unposted equals what repeated losses did; so with one of
      the two absent, exactly when the other is. */
  lemma ReceivableIsExactIff(ops: seq<Op>)
    requires AllSensible(ops)
    ensures var exact := Balance(Run(ops).journal, SellerOffset) == OwingTotal(Run(ops).offsets);
            && (exact <==> Replayed(Run(ops).releases) == Unposted(Run(ops).losses))
            && (!SomeUnposted(ops) ==> (exact <==> !SomeCollision(ops)))
            && (!SomeCollision(ops) ==> (exact <==> !SomeUnposted(ops)))
  {
    hide Run, SomeUnposted, SomeCollision, Balance, OwingTotal, Replayed, Unposted;
    GapIff(ops);
    ReceivableIsWhatIsOutstanding(ops);
  }
}
