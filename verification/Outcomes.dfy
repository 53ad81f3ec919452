/** When each unit of work succeeds on sound books, and exactly what the money
    movements among them do. */
module Outcomes {
  import opened Money
  import opened Ledger
  import opened Orders
  import opened Postings
  import opened Settlements
  import opened Books
  import opened Steps
  import R = Refunds
  import F = RefundSteps
  import C = Captures
  import S = ReleaseSteps
  import L = LossSteps
  import K = Chargebacks

  // ---- capture -------------------------------------------------------------------

  /** A processing cost can be stored and booked: what the provider reports of it is
      not negative, and with the estimate of the rest it stays in range. */
  predicate FeeBookable(c: Capture, grandTotal: int) {
    && StorableFee(c.reportedFee) && StorableFee(c.reportedTax)
    && var fee := OrEstimate(c.reportedFee, grandTotal, c.feeBps);
    fee.Ok?
    && var feeTax := OrEstimate(c.reportedTax, fee.value, c.feeGstBps);
    feeTax.Ok? && fee.value + feeTax.value <= STORE_MAX
  }

  /** What the second entry of a capture asks alone: it is booked when the cost is
      positive throughout, and skipped when there is none; a mixture is refused. */
  predicate Chargeable(c: Capture, grandTotal: int) {
    var fee := OrEstimate(c.reportedFee, grandTotal, c.feeBps);
    fee.Ok?
    && var feeTax := OrEstimate(c.reportedTax, fee.value, c.feeGstBps);
    feeTax.Ok?
    && (if fee.value <= 0 && feeTax.value <= 0 then true
        else fee.value >= 0 && feeTax.value >= 0 && fee.value + feeTax.value <= STORE_MAX)
  }

  lemma EstimateNonNegative(reported: Option<int>, base: int, bps: nat)
    requires StorableFee(reported) && base >= 0
    ensures var r := OrEstimate(reported, base, bps); r.Ok? ==> r.value >= 0
  {
    HalfUpRatio(base, bps, BPS);
  }

  lemma StorableIsChargeableIff(c: Capture, grandTotal: int)
    requires grandTotal >= 0 && StorableFee(c.reportedFee) && StorableFee(c.reportedTax)
    ensures Chargeable(c, grandTotal) <==> FeeBookable(c, grandTotal)
  {
    hide OrEstimate, StorableFee;
    EstimateNonNegative(c.reportedFee, grandTotal, c.feeBps);
    var fee := OrEstimate(c.reportedFee, grandTotal, c.feeBps);
    if fee.Ok? { EstimateNonNegative(c.reportedTax, fee.value, c.feeGstBps); }
  }

  lemma FeeAccepted(o: nat, payment: nat, fee: int, feeTax: int)
    requires fee > 0 || feeTax > 0
    ensures Accepted(FeeEntry(o, payment, fee, feeTax)) <==> fee >= 0 && feeTax >= 0 && fee + feeTax <= STORE_MAX
  {
    var e := FeeEntry(o, payment, fee, feeTax);
    if fee + feeTax <= STORE_MAX {
      FeeAcceptedIff(o, payment, fee, feeTax);
    } else {
      var last := Cr(Clearing, fee + feeTax);
      assert e.lines[|e.lines| - 1] == last;
      assert last in e.lines;
    }
  }

  lemma PostNewIff(db: Db, e: Entry)
    requires !HasKey(db.journal, e.key)
    ensures PostTo(db, e).Ok? <==> Accepted(e)
  {
    hide HasKey, Accepted, ValidateSpec;
    PostCases(db.journal, e);
  }

  lemma ChargeSucceedsIff(db: Db, o: nat, c: Capture, grandTotal: int)
    requires !HasKey(db.journal, PspFeeKey(o, c.payment))
    ensures ChargeFee(db, o, c, grandTotal).Ok? <==> Chargeable(c, grandTotal)
  {
    hide HasKey, Accepted, PostTo, ApplyBasisPoints, FeeEntry;
    var fee := OrEstimate(c.reportedFee, grandTotal, c.feeBps);
    if fee.Ok? {
      var feeTax := OrEstimate(c.reportedTax, fee.value, c.feeGstBps);
      if feeTax.Ok? && (fee.value > 0 || feeTax.value > 0) {
        FeeAccepted(o, c.payment, fee.value, feeTax.value);
        FeeTouches(o, c.payment, fee.value, feeTax.value);
        PostNewIff(db, FeeEntry(o, c.payment, fee.value, feeTax.value));
      }
    }
  }

  lemma RecordCaptureOkIff(db: Db, o: nat, c: Capture, ready: set<nat>)
    requires o < |db.orders| && db.orders[o].status == AwaitingPayment
    ensures RecordCaptureSpec(db, o, c, ready).Ok?
            <==> StorablePayment(c)
                 && PostTo(db, CaptureEntry(o, c.payment, db.orders[o])).Ok?
                 && ChargeFee(PostTo(db, CaptureEntry(o, c.payment, db.orders[o])).value, o, c,
                              db.orders[o].grandTotal).Ok?
  {
    hide PostTo, ChargeFee, CaptureEntry;
  }

  /** A payment for an order awaiting it is recorded exactly when it is for the
      order's total, that total is positive, no seller bears processing cost, and
      the processing cost can be stored and booked. */
  lemma ConfirmSucceedsIff(db: Db, o: nat, c: Capture, ready: set<nat>)
    requires Inv(db) && o < |db.orders| && db.orders[o].status == AwaitingPayment
    ensures var ord := db.orders[o];
            ConfirmSpec(db, o, c, ready).Ok?
            <==> c.amount == ord.grandTotal && ord.grandTotal > 0 && BorneBySellers(ord.items) == 0
                 && FeeBookable(c, ord.grandTotal)
  {
    hide Inv, HasKey, PostTo, ChargeFee, CaptureEntry, FeeBookable, Chargeable, Accepted, OrderOk, BorneBySellers,
         KeysOk, Sound, Balance, CapturesOf;
    var ord := db.orders[o];
    var e := CaptureEntry(o, c.payment, ord);
    RecordCaptureOkIff(db, o, c, ready);
    hide RecordCaptureSpec;
    C.InvFacts(db, o);
    C.CaptureKeyIsNew(db, o, c.payment);
    C.CaptureEntryKey(o, c.payment, ord);
    PostNewIff(db, e);
    L.OrderIsConserving(ord);
    assert ord.grandTotal == SumOf(ord.items, BuyerTotal) <= STORE_MAX by { GrandTotalIs(ord); }
    CaptureAcceptedIff(o, c.payment, ord);
    if PostTo(db, e).Ok? {
      PostToEffect(db, e);
      FeeKeyIsNew(db, o, c.payment);
      ChargeSucceedsIff(PostTo(db, e).value, o, c, ord.grandTotal);
    }
    StorableFeesIff(c, ord.grandTotal);
  }

  lemma StorableFeesIff(c: Capture, grandTotal: int)
    ensures 0 < grandTotal == c.amount <= STORE_MAX ==>
              (StorablePayment(c) && Chargeable(c, grandTotal) <==> FeeBookable(c, grandTotal))
  {
    hide StorableFee, OrEstimate;
    if grandTotal > 0 && StorableFee(c.reportedFee) && StorableFee(c.reportedTax) {
      StorableIsChargeableIff(c, grandTotal);
    }
  }

  lemma GrandTotalIs(ord: Order)
    requires OrderOk(ord)
    ensures ord.grandTotal == SumOf(ord.items, BuyerTotal) <= STORE_MAX
  {
  }

  lemma FeeKeyIsNew(db: Db, o: nat, payment: nat)
    requires KeysOk(db) && o < |db.orders| && !Captured(db.orders[o].status)
    ensures !HasKey(db.journal, PspFeeKey(o, payment))
  {
    hide HasKey;
    assert !KeyOk(db, PspFeeKey(o, payment));
  }

  // ---- refund --------------------------------------------------------------------

  /** A refund goes through exactly when the order is captured, neither disputed
      nor already refunded, the amount is positive and still covered by the line,
      and the provider accepts it under an id no earlier refund has. In particular a
      refund of a disputed order is always rolled back,
      although the code lists that status among the refundable ones. */
  lemma RefundSucceedsIff(db: Db, o: nat, i: nat, q: RefundRequest)
    requires Inv(db) && o < |db.orders| && i < |db.orders[o].items|
    ensures var ord := db.orders[o];
            var amount := RefundAmount(ord.items[i], q.requested);
            RefundSpec(db, o, i, q).Ok?
            <==> ord.status in {Paid, Fulfilled, Completed, PartiallyRefunded} && q.eligible && HasPayment(db, o)
                 && q.answer.Accepts? && !RefTaken(db.refunds, RefOf(q.answer))
                 && amount.Ok? && amount.value > 0 && ord.items[i].refunded + amount.value <= ord.items[i].bd.buyerTotal
  {
    hide Inv, HasKey, PostTo, RefundEntry, Accepted, OrderOk, ItemOk, KeysOk, RefundAmount, HasPayment, ShareOf,
         Scale, IsSettled, RefundItem, R.RefundEffect;
    var ord := db.orders[o];
    var it := ord.items[i];
    C.InvFacts(db, o);
    F.ItemIsOk(ord, i);
    var amount := RefundAmount(it, q.requested);
    if amount.Ok? {
      F.PostedRefundPositive(db, it, amount.value);
      if ord.status in {Paid, Fulfilled, Completed, PartiallyRefunded, Disputed} {
        F.RefundStatusIs(ord.(items := ord.items[i := RefundItem(it, amount.value, q.reversal)]), amount.value);
      }
      if amount.value > 0 && it.refunded + amount.value <= it.bd.buyerTotal {
        AmountWithin(it, amount.value);
        R.AllSharesNearest(it, amount.value);
        F.RefundKeyIsNew(db);
        R.RefundEntryAccepted(|db.refunds|, it, amount.value, IsSettled(it));
        RefundEntryKey(|db.refunds|, it, amount.value, IsSettled(it));
        PostNewIff(db, RefundEntry(|db.refunds|, it, amount.value, IsSettled(it)));
      }
    }
    hide Scales, RefundStatus, RefTaken;
  }

  lemma AmountWithin(it: Item, amount: int)
    requires ItemOk(it) && it.refunded + amount <= it.bd.buyerTotal
    ensures amount <= it.bd.buyerTotal
  {
  }

  lemma RefundEntryKey(refund: nat, it: Item, amount: int, settledAway: bool)
    ensures RefundEntry(refund, it, amount, settledAway).key == RefundKey(refund)
  {
  }

  // ---- release -------------------------------------------------------------------

  /** One release, in full, at any rate: its row splits the item's net into the
      reserve (the rate of it, rounded down), the smaller of what is left and what
      the seller owes, and the net paid out. The seller's payable falls by that much,
      short only of the recoveries whose keys were used before; nobody else's moves.
      Above 100% the reserve alone is taken, and it is more than there is. */
  ghost predicate ExactRelease(db: Db, after: Db, it: Item, reserveBps: nat) {
    && |after.releases| == |db.releases| + 1
    && var row := after.releases[|db.releases|];
    && row.seller == it.seller && row.gross == it.bd.sellerNet == row.reserve + row.applied + row.net
    && row.reserve >= 0 && row.applied >= 0 && (row.net >= 0 <==> row.reserve <= row.gross)
    && BPS * row.reserve <= row.gross * reserveBps < BPS * row.reserve + BPS
    && row.applied == (if row.reserve <= row.gross
                       then Min(row.gross - row.reserve, OwedBetween(db.offsets, it.seller, 0, |db.offsets|)) else 0)
    && row.replayed == ReplayedFrom(db.journal, db.offsets, it.seller, row.gross - row.reserve, 0, 0)
    && (forall s: nat ::
          Balance(after.journal, Payable(s))
          == Balance(db.journal, Payable(s))
             + if s != it.seller then 0 else if row.reserve <= row.gross then row.gross - row.replayed else row.reserve)
  }

  lemma ReleaseSplitsTheTransfer(db: Db, o: nat, i: nat, reserveBps: nat, providerOk: bool)
    requires Inv(db) && o < |db.orders| && S.Releasable(db.orders[o], i)
    requires ReleaseSpec(db, o, i, reserveBps, providerOk).Ok?
    ensures var after := ReleaseSpec(db, o, i, reserveBps, providerOk).value;
            && ExactRelease(db, after, db.orders[o].items[i], reserveBps)
            && after.orders == db.orders[o := S.ReleasedOrder(db.orders[o], i)]
            && !S.Releasable(S.ReleasedOrder(db.orders[o], i), i)
  {
    hide Inv, ReleaseSpec, Sound, Balance, HasKey, CapturesOf, OrderOk, KeysOk, OwedBetween, ReplayedFrom,
         SaneOffsets, OwingTotal, ApplyBasisPoints;
    C.InvFacts(db, o);
    S.OpenIsPositive(db.orders[o], i);
    S.ReleaseJournal(db, o, i, reserveBps, providerOk);
    var after := ReleaseSpec(db, o, i, reserveBps, providerOk).value;
    var gross := db.orders[o].items[i].transfer.value.amount;
    var reserve, n :| S.ReleasedInto(db, after, o, i, reserve, n)
                      && ApplyBasisPoints(gross, reserveBps, Down) == Ok(reserve);
    ReserveIsFloor(gross, reserveBps, reserve);
    OwedSoFar(db, db.orders[o].items[i].seller);
    var row := S.ReleaseRowFor(o, i, db.orders[o].items[i], reserve, n);
    assert after.releases[|db.releases|] == row;
    forall s: nat ensures S.ReleaseEffect(row, Payable(s)) == if s == row.seller then ReleaseDebit(row) else 0 { }
    assert ReleaseDebit(row) == if row.reserve <= row.gross then row.gross - row.replayed else row.reserve;
  }

  /** At any rate the column allows: the payable falls by the transfer, less what was
      not posted, exactly when the reserve does not exceed the transfer. A rate above
      100% withholds more than there is. */
  lemma ReleaseIsExactIff(db: Db, o: nat, i: nat, reserveBps: nat, providerOk: bool)
    requires Inv(db) && o < |db.orders| && S.Releasable(db.orders[o], i)
    requires ReleaseSpec(db, o, i, reserveBps, providerOk).Ok?
    ensures var it := db.orders[o].items[i];
            var gross := it.bd.sellerNet;
            var after := ReleaseSpec(db, o, i, reserveBps, providerOk).value;
            && |after.releases| == |db.releases| + 1
            && (Balance(after.journal, Payable(it.seller))
                == Balance(db.journal, Payable(it.seller)) + gross - after.releases[|db.releases|].replayed
                <==> ReserveOf(gross, reserveBps) <= gross)
  {
    hide Inv, ReleaseSpec, Sound, Balance, HasKey, CapturesOf, OrderOk, KeysOk, OwedBetween, ReplayedFrom,
         SaneOffsets, OwingTotal, ApplyBasisPoints;
    C.InvFacts(db, o);
    S.OpenIsPositive(db.orders[o], i);
    S.ReleaseJournal(db, o, i, reserveBps, providerOk);
    var after := ReleaseSpec(db, o, i, reserveBps, providerOk).value;
    var gross := db.orders[o].items[i].transfer.value.amount;
    var reserve, n :| S.ReleasedInto(db, after, o, i, reserve, n)
                      && ApplyBasisPoints(gross, reserveBps, Down) == Ok(reserve);
    OwedSoFar(db, db.orders[o].items[i].seller);
    var row := S.ReleaseRowFor(o, i, db.orders[o].items[i], reserve, n);
    assert after.releases[|db.releases|] == row;
    assert S.ReleaseEffect(row, Payable(row.seller)) == ReleaseDebit(row);
  }

  lemma OwedSoFar(db: Db, seller: nat)
    requires Inv(db)
    ensures OwedBetween(db.offsets, seller, 0, |db.offsets|) >= 0
  {
    OwedNonNegative(db.offsets, seller, 0, |db.offsets|);
  }

  /** At any reserve rate, a release goes through exactly when the reserve can be
      stored and the provider does not refuse it: every other posting it needs is
      accepted. */
  lemma ReleaseSucceedsIff(db: Db, o: nat, i: nat, reserveBps: nat, providerOk: bool)
    requires Inv(db) && o < |db.orders| && S.Releasable(db.orders[o], i)
    ensures var it := db.orders[o].items[i];
            ReleaseSpec(db, o, i, reserveBps, providerOk).Ok?
            <==> it.bd.sellerNet * reserveBps / BPS <= STORE_MAX && (providerOk || !it.transfer.value.hasRef)
  {
    S.OpenIsPositive(db.orders[o], i) by { C.InvFacts(db, o); }
    var gross := db.orders[o].items[i].transfer.value.amount;
    ReserveStorableIff(gross, reserveBps);
    if gross * reserveBps / BPS <= STORE_MAX {
      StorableReserveReleases(db, o, i, reserveBps, providerOk);
    } else {
      LargeReserveFails(db, o, i, reserveBps, providerOk);
    }
  }

  lemma LargeReserveFails(db: Db, o: nat, i: nat, reserveBps: nat, providerOk: bool)
    requires KeysOk(db) && o < |db.orders| && S.Releasable(db.orders[o], i)
    requires var reserve := ApplyBasisPoints(db.orders[o].items[i].transfer.value.amount, reserveBps, Down);
             reserve.Ok? ==> reserve.value > STORE_MAX
    ensures ReleaseSpec(db, o, i, reserveBps, providerOk).Err?
  {
    hide ApplyBasisPoints, ApplySpec, PostTo, ReserveEntry, SettleEntry, KeysOk, HasKey;
    var it := db.orders[o].items[i];
    S.ReleaseKeysAreNew(db, o, i);
    var reserve := ApplyBasisPoints(it.transfer.value.amount, reserveBps, Down);
    if reserve.Ok? { LargeReserveIsRefused(db, o, i, it.seller, reserve.value); }
  }

  lemma LargeReserveIsRefused(db: Db, o: nat, i: nat, seller: nat, reserve: int)
    requires reserve > STORE_MAX && !HasKey(db.journal, ReserveKey(o, i))
    ensures PostTo(db, ReserveEntry(o, i, seller, reserve)).Err?
  {
    var e := ReserveEntry(o, i, seller, reserve);
    assert e.lines[0] == Dr(Payable(seller), reserve);
    assert e.lines[0] in e.lines;
    PostNewIff(db, e);
    hide HasKey, PostTo;
  }

  lemma StorableReserveReleases(db: Db, o: nat, i: nat, reserveBps: nat, providerOk: bool)
    requires Inv(db) && o < |db.orders| && S.Releasable(db.orders[o], i)
    requires ApplyBasisPoints(db.orders[o].items[i].transfer.value.amount, reserveBps, Down)
             == Ok(ReserveOf(db.orders[o].items[i].transfer.value.amount, reserveBps))
    requires 0 <= ReserveOf(db.orders[o].items[i].transfer.value.amount, reserveBps) <= STORE_MAX
    ensures ReleaseSpec(db, o, i, reserveBps, providerOk).Ok?
            <==> providerOk || !db.orders[o].items[i].transfer.value.hasRef
  {
    hide Inv, Sound, Balance, HasKey, CapturesOf, OrderOk, KeysOk, OwedBetween, ReplayedFrom, SaneOffsets, OwingTotal,
         ApplyBasisPoints, PostTo, ApplySpec, ReserveEntry, SettleEntry, Accepted;
    var it := db.orders[o].items[i];
    var gross := it.transfer.value.amount;
    C.InvFacts(db, o);
    S.OpenIsPositive(db.orders[o], i);
    NetStorable(db.orders[o], i);
    S.ReleaseKeysAreNew(db, o, i);
    var reserve := ReserveOf(gross, reserveBps);
    ReserveAccepted(db, o, i, it.seller, reserve);
    var held := S.MoveIfPositive(db, ReserveEntry(o, i, it.seller, reserve), reserve).value;
    S.HeldEffect(db, o, i, it.seller, reserve);
    S.MovedFacts(db.journal, held.journal, o, i, it.seller, reserve);
    S.InvOffsets(db);
    S.NettingEffects(held.journal, db.offsets, it.seller, gross - reserve);
    var n := ApplySpec(held.journal, db.offsets, it.seller, gross - reserve, 0).value;
    S.NettedFacts(held.journal, n, it.seller, |db.offsets|, o, i);
    OwedSoFar(db, it.seller);
    var net := gross - reserve - n.applied;
    var netted := held.(journal := n.journal, offsets := n.offsets,
                        orders := db.orders[o := S.ReleasedOrder(db.orders[o], i)],
                        releases := db.releases + [S.ReleaseRowFor(o, i, it, reserve, n)]);
    SettleAccepted(netted, o, i, it.seller, net);
  }

  function ReserveOf(gross: int, reserveBps: nat): int {
    var r := ApplyBasisPoints(gross, reserveBps, Down);
    if r.Ok? then r.value else 0
  }

  lemma ReserveIsFloor(gross: int, reserveBps: nat, reserve: int)
    requires gross >= 0 && ApplyBasisPoints(gross, reserveBps, Down) == Ok(reserve)
    ensures 0 <= reserve
    ensures BPS * reserve <= gross * reserveBps < BPS * reserve + BPS
  {
    DownRatio(gross, reserveBps, BPS);
    S.ReserveIsNotNegative(gross, reserveBps);
  }

  /** The reserve is the rounded-down product wherever that fits in 64 bits. */
  lemma ReserveStorableIff(gross: int, reserveBps: nat)
    requires gross >= 0
    ensures if gross * reserveBps / BPS <= STORE_MAX
            then ApplyBasisPoints(gross, reserveBps, Down) == Ok(ReserveOf(gross, reserveBps))
                 && 0 <= ReserveOf(gross, reserveBps) <= STORE_MAX
            else ApplyBasisPoints(gross, reserveBps, Down).Ok? ==>
                   ApplyBasisPoints(gross, reserveBps, Down).value > STORE_MAX
  {
    DivisionFacts(Abs(gross) * Abs(reserveBps), BPS);
    assert Abs(gross) * Abs(reserveBps) == gross * reserveBps;
  }

  lemma NetStorable(ord: Order, i: nat)
    requires OrderOk(ord) && S.Releasable(ord, i)
    ensures ord.items[i].bd.sellerNet <= STORE_MAX
  {
    F.ItemIsOk(ord, i);
    PartStorable(ord.items[i], SellerNet);
  }

  lemma ReserveAccepted(db: Db, o: nat, i: nat, seller: nat, reserve: int)
    requires !HasKey(db.journal, ReserveKey(o, i)) && reserve <= STORE_MAX
    ensures S.MoveIfPositive(db, ReserveEntry(o, i, seller, reserve), reserve).Ok?
  {
    hide HasKey, PostTo, Accepted;
    if reserve > 0 {
      TwoLines(ReserveKey(o, i), Payable(seller), Reserve(seller), reserve);
      PostNewIff(db, ReserveEntry(o, i, seller, reserve));
    }
  }

  lemma SettleAccepted(db: Db, o: nat, i: nat, seller: nat, net: int)
    requires !HasKey(db.journal, SettleKey(o, i)) && net <= STORE_MAX
    ensures net > 0 ==> PostTo(db, SettleEntry(o, i, seller, net)).Ok?
  {
    hide HasKey, PostTo, Accepted;
    if net > 0 {
      TwoLines(SettleKey(o, i), Payable(seller), Clearing, net);
      PostNewIff(db, SettleEntry(o, i, seller, net));
    }
  }

  // ---- chargebacks ----------------------------------------------------------------

  /** A dispute lost for the first time is booked exactly when its amount is
      positive and storable, whatever became of the order since. */
  lemma FirstLossSucceedsIff(db: Db, payment: nat, dispute: nat, amount: int)
    requires Inv(db) && DisputedOrder(db, payment).Some? && !HasKey(db.journal, ChargebackKey(dispute))
    ensures DisputeLostSpec(db, payment, dispute, amount).Ok? <==> 0 < amount <= STORE_MAX
  {
    hide Inv, HasKey, PostTo, Accepted, OrderOk, KeysOk, LossEntry, K.LossEffect, LossItems, LossOffsets, LossRows;
    var o := DisputedOrder(db, payment).value;
    C.InvFacts(db, o);
    L.OrderIsConserving(db.orders[o]);
    K.LossAcceptedIff(dispute, db.orders[o].items, amount);
    L.LossEntryKey(dispute, db.orders[o].items, amount);
    PostNewIff(db, LossEntry(dispute, db.orders[o].items, amount));
  }
}
