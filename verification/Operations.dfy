/** Refunds, releases and disputes written out: the whole new state of every row they
    touch, the movement of every account, and nothing else. */
module Operations {
  import opened Money
  import opened Ledger
  import opened Orders
  import opened Postings
  import opened Settlements
  import opened Books
  import opened Chargebacks
  import opened Outcomes
  import T = Tax
  import R = Refunds
  import F = RefundSteps
  import C = Captures
  import S = ReleaseSteps
  import L = LossSteps

  // ---- refund --------------------------------------------------------------------

  /** amount / total of a part, half a unit added and the rest dropped. */
  function Proportion(part: int, amount: int, total: int): int
    requires total > 0
  {
    (2 * (part * amount) + total) / (2 * total)
  }

  lemma HalfUpIsProportion(r: int, part: int, amount: int, total: int)
    requires total > 0 && part >= 0 && amount >= 0 && IsHalfUp(r, part * amount, total)
    ensures r == Proportion(part, amount, total)
  {
    var p := part * amount;
    var x := 2 * p + total;
    var s := x / (2 * total);
    assert p >= 0 by { MulMono(0, part, amount); }
    DivisionFacts(x, 2 * total);
    assert x == 2 * (total * s) + x % (2 * total) by { Doubled(total, s); }
    assert IsHalfUp(s, p, total);
    HalfUpUnique(r, s, p, total);
  }

  lemma Doubled(total: int, s: int)
    ensures 2 * total * s == 2 * (total * s)
  {
  }

  /** What a refund is asked for: the whole line unless an amount is named. */
  function Asked(it: Item, q: RefundRequest): int {
    if q.requested.Some? then q.requested.value else it.bd.buyerTotal
  }

  /** Each part of a line goes back in proportion; the platform bears what the
      roundings leave over. */
  function RefundMove(it: Item, amount: int, a: Account): int
    requires it.bd.buyerTotal > 0
  {
    var total := it.bd.buyerTotal;
    var net := Proportion(it.bd.sellerNet, amount, total);
    var commission := Proportion(it.bd.commission, amount, total);
    var gst := Proportion(it.bd.commissionGst, amount, total);
    var tcs := Proportion(it.bd.tcs, amount, total);
    var tds := Proportion(it.bd.tds, amount, total);
    var paidOut := it.transfer.Some? && it.transfer.value.status == Processed;
    match a
    case Clearing => -amount
    case CommissionIncome => commission
    case GstOutput => gst
    case TcsPayable => tcs
    case TdsPayable => tds
    case RefundAbsorbed => amount - net - commission - gst - tcs - tds
    case SellerOffset => if paidOut then net else 0
    case Payable(s) => if !paidOut && s == it.seller then net else 0
    case _ => 0
  }

  lemma PartIsProportion(it: Item, p: Part, amount: int)
    requires ItemOk(it) && R.IsComponent(p) && 0 < amount <= it.bd.buyerTotal
    ensures ShareOf(it, p, amount) == Proportion(PartOf(it, p), amount, it.bd.buyerTotal)
  {
    R.ShareIsNearest(it, p, amount);
    PartStorable(it, p);
    HalfUpIsProportion(ShareOf(it, p, amount), PartOf(it, p), amount, it.bd.buyerTotal);
  }

  lemma RefundEffectIs(it: Item, amount: int, a: Account)
    requires ItemOk(it) && 0 < amount <= it.bd.buyerTotal
    ensures R.RefundEffect(it, amount, IsSettled(it), a) == RefundMove(it, amount, a)
  {
    hide ShareOf, Proportion, ItemOk, Allocated;
    PartIsProportion(it, SellerNet, amount);
    PartIsProportion(it, Commission, amount);
    PartIsProportion(it, CommissionGst, amount);
    PartIsProportion(it, Tcs, amount);
    PartIsProportion(it, Tds, amount);
    R.AllocatedIs(it, amount);
  }

  /** The transfer of a refunded item: once paid out it stays; reversed by the
      provider if it has it and reverses; else revoked while it still waits. */
  function RefundedTransfer(t: Option<Transfer>, reversal: bool): Option<Transfer> {
    if t.None? || t.value.status == Processed then t
    else if t.value.hasRef && reversal then Some(t.value.(status := Reversed))
    else if t.value.status == Pending || t.value.status == OnHold then Some(t.value.(status := Revoked))
    else t
  }

  /** A refund in full: the item, its order, the rows of the refund and of what a paid
      seller owes, and every account. Nothing else changes. */
  lemma RefundIs(db: Db, o: nat, i: nat, q: RefundRequest)
    requires Inv(db) && RefundSpec(db, o, i, q).Ok?
    ensures o < |db.orders| && i < |db.orders[o].items| && db.orders[o].items[i].bd.buyerTotal > 0
            && q.answer.Accepts?
    ensures var after := RefundSpec(db, o, i, q).value;
            var ord := db.orders[o];
            var it := ord.items[i];
            var amount := Asked(it, q);
            var net := Proportion(it.bd.sellerNet, amount, it.bd.buyerTotal);
            var paidOut := it.transfer.Some? && it.transfer.value.status == Processed;
            && 0 < amount <= it.bd.buyerTotal - it.refunded
            && after.orders == db.orders[o := ord.(
                                refunded := ord.refunded + amount,
                                status := if ord.refunded + amount == ord.grandTotal then Status.Refunded
                                          else PartiallyRefunded,
                                items := ord.items[i := it.(
                                  refunded := it.refunded + amount,
                                  status := if it.refunded + amount == it.bd.buyerTotal then ItemRefunded
                                            else ItemPartlyRefunded,
                                  licence := Some(Withdrawn),
                                  transfer := RefundedTransfer(it.transfer, q.reversal))])]
            && after.refunds == db.refunds + [RefundRow(o, i, it.seller, amount, net, paidOut, q.answer.ref)]
            && after.offsets
               == db.offsets + (if paidOut && net > 0 then [Offset(it.seller, net, 0, Outstanding)] else [])
            && after.releases == db.releases && after.losses == db.losses && after.payments == db.payments
            && forall a :: Balance(after.journal, a) == Balance(db.journal, a) + RefundMove(it, amount, a)
  {
    hide Inv, RefundSpec, Sound, Balance, HasKey, CapturesOf, ShareOf, Proportion, OrderOk, ItemOk, R.RefundEffect,
         RefundMove, RefundItem, PostTo, RefundEntry, RefundAmount;
    C.InvFacts(db, o);
    F.RefundJournal(db, o, i, q);
    F.RefundShape(db, o, i, q);
    RefundAccepts(db, o, i, q);
    var ord := db.orders[o];
    var it := ord.items[i];
    var amount := Asked(it, q);
    AskedIs(it, q);
    F.ItemIsOk(ord, i);
    F.RefundableItem(ord, i, amount);
    RefundedItemIs(ord, i, amount, q.reversal);
    WithinTotal(ord, i, amount);
    PartIsProportion(it, SellerNet, amount);
    RefundLeavesPayments(db, it, amount);
    forall a ensures R.RefundEffect(it, amount, IsSettled(it), a) == RefundMove(it, amount, a) {
      RefundEffectIs(it, amount, a);
    }
  }

  /** A refund goes through exactly so: the order was paid and is neither disputed,
      charged back nor refunded, the buyer may have it, a payment is on record, the
      provider accepts it under an id no other refund holds, and what is asked for is
      positive, part of the line, and not refunded yet. */
  lemma RefundSucceedsWhen(db: Db, o: nat, i: nat, q: RefundRequest)
    requires Inv(db) && o < |db.orders| && i < |db.orders[o].items|
    ensures var ord := db.orders[o];
            var it := ord.items[i];
            RefundSpec(db, o, i, q).Ok?
            <==> && (ord.status == Paid || ord.status == Fulfilled || ord.status == Completed
                     || ord.status == PartiallyRefunded)
                 && q.eligible && (exists p :: p in db.payments && db.payments[p] == o)
                 && q.answer.Accepts?
                 && (q.answer.ref.Some? ==>
                       forall n :: 0 <= n < |db.refunds| ==> db.refunds[n].providerRef != q.answer.ref)
                 && 0 < Asked(it, q) <= it.bd.buyerTotal && it.refunded + Asked(it, q) <= it.bd.buyerTotal
  {
    hide Inv, RefundSpec;
    RefundSucceedsIff(db, o, i, q);
    C.InvFacts(db, o);
    F.ItemIsOk(db.orders[o], i);
  }

  lemma AskedIs(it: Item, q: RefundRequest)
    requires RefundAmount(it, q.requested).Ok?
    ensures RefundAmount(it, q.requested).value == Asked(it, q)
  {
  }

  lemma RefundAccepts(db: Db, o: nat, i: nat, q: RefundRequest)
    requires RefundSpec(db, o, i, q).Ok?
    ensures q.answer.Accepts?
  {
    hide PostTo, RefundEntry, Scales, RefundStatus, HasPayment;
  }

  lemma RefundLeavesPayments(db: Db, it: Item, amount: int)
    ensures var r := PostTo(db, RefundEntry(|db.refunds|, it, amount, IsSettled(it)));
            r.Ok? ==> r.value.payments == db.payments
  {
    hide PostSpec, RefundEntry;
  }

  lemma RefundedItemIs(ord: Order, i: nat, amount: int, reversal: bool)
    requires OrderOk(ord) && F.Refundable(ord, i, amount)
    ensures var it := ord.items[i];
            RefundItem(it, amount, reversal)
            == it.(refunded := it.refunded + amount,
                   status := if it.refunded + amount == it.bd.buyerTotal then ItemRefunded else ItemPartlyRefunded,
                   licence := Some(Withdrawn), transfer := RefundedTransfer(it.transfer, reversal))
  {
    assert Delivered(ord.items[i]);
    var it := ord.items[i];
    match it.licence.value
    case Active =>
    case Withdrawn =>
  }

  /** No order is refunded beyond its total. */
  lemma WithinTotal(ord: Order, i: nat, amount: int)
    requires OrderOk(ord) && F.Refundable(ord, i, amount)
    ensures ord.refunded + amount <= ord.grandTotal
  {
    hide ItemOk;
    F.RefundedOrderOk(ord, i, amount, false);
    var after := F.RefundedOrder(ord, i, amount, false);
    assert ItemsOk(after.items);
    hide OrderOk, SumOf;
    TotalsBound(after);
  }

  lemma TotalsBound(ord: Order)
    requires OrderOk(ord)
    ensures ord.refunded <= ord.grandTotal
  {
    PartsBounded(ord.items, RefundedSoFar);
  }

  // ---- release -------------------------------------------------------------------

  /** A row of recoveries after some of it was netted. */
  function SpentBy(f: Offset, take: int): Offset {
    if take == 0 then f
    else f.(applied := f.applied + take, status := if f.applied + take == f.amount then Settled else PartiallyApplied)
  }

  /** Where a release moves a transfer. */
  function ReleaseMove(row: ReleaseRow, a: Account): int {
    var posted := row.applied - row.replayed;
    var paid := if row.net > 0 then row.net else 0;
    match a
    case Payable(s) => if s == row.seller then row.reserve + posted + paid else 0
    case Reserve(s) => if s == row.seller then -row.reserve else 0
    case SellerOffset => -posted
    case Clearing => -paid
    case _ => 0
  }

  lemma SpentRows(j: seq<Entry>, offsets: seq<Offset>, seller: nat, available: int)
    requires SaneOffsets(offsets)
    ensures var r := ApplySpec(j, offsets, seller, available, 0);
            && r.Ok? && |r.value.offsets| == |offsets|
            && forall x :: 0 <= x < |offsets| ==>
                 r.value.offsets[x]
                 == SpentBy(offsets[x], if available > 0 then TakeAt(offsets, seller, available, 0, x) else 0)
  {
    if available > 0 {
      ApplyClosedForm(j, offsets, seller, available, 0);
      var after := ApplySpec(j, offsets, seller, available, 0).value.offsets;
      forall x | 0 <= x < |offsets|
        ensures after[x] == SpentBy(offsets[x], TakeAt(offsets, seller, available, 0, x))
      {
        hide TakeAt, ApplySpec;
        assert SaneOffset(offsets[x]) && SaneOffset(after[x]);
      }
    } else {
      S.ApplyNothing(j, offsets, seller, available, 0);
    }
  }

  lemma ReleaseLeavesPayments(db: Db, o: nat, i: nat, reserveBps: nat, providerOk: bool)
    requires o < |db.orders| && S.Releasable(db.orders[o], i)
    requires SaneOffsets(db.offsets) && ReleaseSpec(db, o, i, reserveBps, providerOk).Ok?
    ensures var after := ReleaseSpec(db, o, i, reserveBps, providerOk).value;
            var it := db.orders[o].items[i];
            var reserve := ReserveOf(it.transfer.value.amount, reserveBps);
            && after.payments == db.payments && |after.offsets| == |db.offsets|
            && forall x :: 0 <= x < |db.offsets| ==>
                 after.offsets[x]
                 == SpentBy(db.offsets[x],
                            if it.transfer.value.amount > reserve
                            then TakeAt(db.offsets, it.seller, it.transfer.value.amount - reserve, 0, x) else 0)
  {
    hide ReleaseSpec, SaneOffsets, ApplySpec, PostSpec, ApplyBasisPoints, SpentBy, TakeAt;
    S.ReleaseShape(db, o, i, reserveBps, providerOk);
    var it := db.orders[o].items[i];
    var reserve := ApplyBasisPoints(it.transfer.value.amount, reserveBps, Down).value;
    var held := S.MoveIfPositive(db, ReserveEntry(o, i, it.seller, reserve), reserve).value;
    SpentRows(held.journal, db.offsets, it.seller, it.transfer.value.amount - reserve);
  }

  /** A release in full: the transfer is closed, its row splits the net into the
      reserve (the rate of it, rounded down), the recoveries netted oldest first and
      what is paid out, each row of recoveries holds its own part, and every account
      moves by exactly that. Nothing else changes. */
  lemma ReleaseIs(db: Db, o: nat, i: nat, reserveBps: nat, providerOk: bool)
    requires Inv(db) && o < |db.orders| && i < |db.orders[o].items| && db.orders[o].items[i].transfer.Some?
    requires var t := db.orders[o].items[i].transfer.value; t.status == Pending || t.status == OnHold
    requires ReleaseSpec(db, o, i, reserveBps, providerOk).Ok?
    ensures var after := ReleaseSpec(db, o, i, reserveBps, providerOk).value;
            var ord := db.orders[o];
            var it := ord.items[i];
            var gross := it.bd.sellerNet;
            var reserve := gross * reserveBps / BPS;
            var left := gross - reserve;
            var owed := OwedBetween(db.offsets, it.seller, 0, |db.offsets|);
            var applied := if left <= 0 then 0 else if left < owed then left else owed;
            var replayed := if left <= 0 then 0 else ReplayedFrom(db.journal, db.offsets, it.seller, left, 0, 0);
            var row := ReleaseRow(o, i, it.seller, gross, reserve, applied, left - applied, replayed);
            && gross > 0 && 0 <= replayed <= applied
            && after.orders == db.orders[o := ord.(items := ord.items[i :=
                                 it.(transfer := Some(it.transfer.value.(status := Processed)))])]
            && after.releases == db.releases + [row]
            && |after.offsets| == |db.offsets|
            && (forall x :: 0 <= x < |db.offsets| ==>
                  after.offsets[x]
                  == SpentBy(db.offsets[x], if left > 0 then TakeAt(db.offsets, it.seller, left, 0, x) else 0))
            && after.refunds == db.refunds && after.losses == db.losses && after.payments == db.payments
            && forall a :: Balance(after.journal, a) == Balance(db.journal, a) + ReleaseMove(row, a)
  {
    hide Inv, ReleaseSpec, Sound, Balance, HasKey, CapturesOf, OrderOk, KeysOk, OwedBetween, ReplayedFrom,
         SaneOffsets, OwingTotal, ApplyBasisPoints, SpentBy, TakeAt, S.ReleaseEffect, ReleaseMove, UniqueKeys;
    C.InvFacts(db, o);
    S.OpenIsPositive(db.orders[o], i);
    S.InvOffsets(db);
    OwedSoFar(db, db.orders[o].items[i].seller);
    S.ReleaseJournal(db, o, i, reserveBps, providerOk);
    var it := db.orders[o].items[i];
    var gross := it.transfer.value.amount;
    var reserve, n :| S.ReleasedInto(db, ReleaseSpec(db, o, i, reserveBps, providerOk).value, o, i, reserve, n)
                      && ApplyBasisPoints(gross, reserveBps, Down) == Ok(reserve);
    ReserveIsQuotient(gross, reserveBps, reserve);
    ReleaseLeavesPayments(db, o, i, reserveBps, providerOk);
    if gross - reserve <= 0 { S.NothingLeftReplays(db.journal, db.offsets, it.seller, gross - reserve); }
    EffectIsMove(S.ReleaseRowFor(o, i, it, reserve, n));
  }

  lemma EffectIsMove(row: ReleaseRow)
    ensures forall a :: S.ReleaseEffect(row, a) == ReleaseMove(row, a)
  {
  }

  lemma ReserveIsQuotient(gross: int, reserveBps: nat, reserve: int)
    requires gross >= 0 && ApplyBasisPoints(gross, reserveBps, Down) == Ok(reserve)
    ensures reserve == gross * reserveBps / BPS
  {
    ReserveIsFloor(gross, reserveBps, reserve);
    DivisionFacts(gross * reserveBps, BPS);
  }

  // ---- disputes ------------------------------------------------------------------

  predicate PaidAway(it: Item) {
    it.transfer.Some? && it.transfer.value.status == Processed
  }

  /** The nets of an order already paid out, one row each. */
  function OwedBack(items: seq<Item>): seq<Offset> {
    if items == [] then [] else
    var it := items[|items| - 1];
    OwedBack(items[..|items| - 1])
    + if it.bd.sellerNet > 0 && PaidAway(it) then [Offset(it.seller, it.bd.sellerNet, 0, Outstanding)] else []
  }

  /** The rows of a loss, one for each item with a net. */
  function RowsOfLoss(o: nat, items: seq<Item>, posted: bool): seq<LossRow> {
    if items == [] then [] else
    var i := |items| - 1;
    RowsOfLoss(o, items[..i], posted)
    + if items[i].bd.sellerNet > 0
      then [LossRow(o, i, items[i].seller, items[i].bd.sellerNet, PaidAway(items[i]), posted)] else []
  }

  /** The nets of an order already paid out, and those of one seller that are not. */
  function PaidNets(items: seq<Item>): int {
    if items == [] then 0 else
    var it := items[|items| - 1];
    PaidNets(items[..|items| - 1]) + if PaidAway(it) then it.bd.sellerNet else 0
  }

  function UnpaidNets(items: seq<Item>, s: nat): int {
    if items == [] then 0 else
    var it := items[|items| - 1];
    UnpaidNets(items[..|items| - 1], s) + if !PaidAway(it) && it.seller == s then it.bd.sellerNet else 0
  }

  lemma {:induction false} LossRowsAre(o: nat, items: seq<Item>, posted: bool)
    requires ItemsOk(items)
    ensures LossOffsets(items) == OwedBack(items) && LossRows(o, items, posted) == RowsOfLoss(o, items, posted)
    ensures LossReceivable(items) == PaidNets(items)
    ensures forall s :: LossPayable(items, s) == UnpaidNets(items, s)
    ensures Recovered(items) == SumOf(items, SellerNet)
  {
    if items == [] {
    } else {
      ItemsOkParts(items);
      LossRowsAre(o, items[..|items| - 1], posted);
      PartStorable(items[|items| - 1], SellerNet);
    }
  }

  /** What a lost dispute moves: the disputed amount leaves clearing, every net comes
      back, from what is owed if it was not paid out and as a debt if it was, and the
      platform bears the difference. */
  function LossMove(items: seq<Item>, amount: int, a: Account): int {
    match a
    case Clearing => -amount
    case SellerOffset => PaidNets(items)
    case Payable(s) => UnpaidNets(items, s)
    case ChargebackLoss => amount - SumOf(items, SellerNet)
    case _ => 0
  }

  /** An item of an order whose dispute was lost. */
  predicate ChargedBack(it: Item, after: Item) {
    after == if it.bd.sellerNet > 0
             then it.(status := ItemChargedBack,
                      transfer := if it.transfer.Some? && !PaidAway(it)
                                  then Some(it.transfer.value.(status := Revoked)) else it.transfer)
             else it
  }

  /** A lost dispute in full. The second time its entry is found in the journal: the
      rows are written again, and no account moves. */
  lemma LossIs(db: Db, payment: nat, dispute: nat, amount: int)
    requires Inv(db) && payment in db.payments && db.payments[payment] < |db.orders|
    requires DisputeLostSpec(db, payment, dispute, amount).Ok?
    ensures var after := DisputeLostSpec(db, payment, dispute, amount).value;
            var o := db.payments[payment];
            var ord := db.orders[o];
            var first := !HasKey(db.journal, ChargebackKey(dispute));
            && |after.orders| == |db.orders|
            && after.orders == db.orders[o := ord.(
                                status := if ord.status == Disputed then ChargebackLost else ord.status,
                                items := after.orders[o].items)]
            && |after.orders[o].items| == |ord.items|
            && (forall i :: 0 <= i < |ord.items| ==> ChargedBack(ord.items[i], after.orders[o].items[i]))
            && after.offsets == db.offsets + OwedBack(ord.items)
            && after.losses == db.losses + RowsOfLoss(o, ord.items, first)
            && after.refunds == db.refunds && after.releases == db.releases && after.payments == db.payments
            && forall a ::
                 Balance(after.journal, a)
                 == Balance(db.journal, a) + if first then LossMove(ord.items, amount, a) else 0
  {
    hide Inv, DisputeLostSpec, Sound, Balance, HasKey, CapturesOf, OrderOk, LossRows, LossOffsets, OwedBack, RowsOfLoss,
         LossReceivable, LossPayable, Recovered, PaidNets, UnpaidNets, SumOf, LossItem, ItemsOk, ChargedBack;
    var o := db.payments[payment];
    var ord := db.orders[o];
    assert DisputedOrder(db, payment) == Some(o);
    var first := !HasKey(db.journal, ChargebackKey(dispute));
    C.InvFacts(db, o);
    L.LossJournal(db, payment, dispute, amount);
    L.OrderIsConserving(ord);
    LossRowsAre(o, ord.items, first);
    LossLeavesPayments(db, payment, dispute, amount);
    forall i | 0 <= i < |ord.items| ensures ChargedBack(ord.items[i], LossItem(ord.items[i])) {
      LossItemIs(ord.items[i]);
    }
    forall a ensures LossEffect(ord.items, amount, a) == LossMove(ord.items, amount, a) {
    }
  }

  lemma LossItemIs(it: Item)
    ensures ChargedBack(it, LossItem(it))
  {
  }

  lemma LossLeavesPayments(db: Db, payment: nat, dispute: nat, amount: int)
    requires DisputeLostSpec(db, payment, dispute, amount).Ok?
    ensures DisputeLostSpec(db, payment, dispute, amount).value.payments == db.payments
  {
    hide PostSpec, LossEntry, HasKey, LossItems, LossOffsets, LossRows;
  }

  /** An opened dispute is recorded exactly when its payment is unknown, or its amount
      can be stored and the order was paid and is neither refunded in full nor charged
      back. Then the order is disputed, every transfer that waits is on hold, and
      nothing else changes. */
  lemma DisputeOpenedIs(db: Db, payment: nat, amount: int)
    ensures var r := DisputeOpenedSpec(db, payment, amount);
            if payment !in db.payments || db.payments[payment] >= |db.orders| then r == Ok(db) else
            var o := db.payments[payment];
            var ord := db.orders[o];
            && (r.Ok? <==> 0 < amount <= STORE_MAX
                           && ord.status in {Paid, Fulfilled, Completed, PartiallyRefunded, Disputed})
            && (r.Ok? ==>
                  var after := r.value;
                  && |after.orders| == |db.orders| && |after.orders[o].items| == |ord.items|
                  && after == db.(orders := db.orders[o := ord.(status := Disputed, items := after.orders[o].items)])
                  && forall i :: 0 <= i < |ord.items| ==>
                       var it := ord.items[i];
                       after.orders[o].items[i]
                       == if it.transfer.Some? && it.transfer.value.status == Pending
                          then it.(transfer := Some(it.transfer.value.(status := OnHold))) else it)
  {
  }

  /** A won dispute puts a disputed order back to fulfilled, and nothing else. */
  lemma DisputeWonIs(db: Db, payment: nat)
    ensures DisputeWonSpec(db, payment)
            == if payment in db.payments && db.payments[payment] < |db.orders|
                  && db.orders[db.payments[payment]].status == Disputed
               then
                 var o := db.payments[payment];
                 Ok(db.(orders := db.orders[o := db.orders[o].(status := Fulfilled)]))
               else Ok(db)
  {
  }

  /** The provider's events about a transfer: one sets its reference, and once it has
      one the others overwrite its status. No money moves. */
  lemma TransferEventIs(db: Db, o: nat, i: nat, e: TransferEvent)
    requires o < |db.orders| && i < |db.orders[o].items|
    ensures var it := db.orders[o].items[i];
            TransferEventSpec(db, o, i, e)
            == Ok(db.(orders := db.orders[o := db.orders[o].(items := db.orders[o].items[i :=
                   if it.transfer.None? then it
                   else if e == ReferenceAssigned then it.(transfer := Some(it.transfer.value.(hasRef := true)))
                   else if !it.transfer.value.hasRef then it
                   else it.(transfer := Some(it.transfer.value.(
                              status := if e == ProviderProcessed then Processed else TransferStatus.Failed)))])]))
  {
  }

  // ---- the life of an order ------------------------------------------------------

  /** The order an operation is about, if it is about one. */
  function About(db: Db, op: Op): Option<nat> {
    match op
    case DoCheckout(_, _, _) => None
    case DoBeginPayment(o) => Some(o)
    case DoFailPayment(o) => Some(o)
    case DoExpire(o) => Some(o)
    case DoConfirm(o, _, _) => Some(o)
    case DoRefund(o, _, _) => Some(o)
    case DoRelease(o, _, _, _) => Some(o)
    case DoOpenDispute(p, _) => if p in db.payments then Some(db.payments[p]) else None
    case DoWinDispute(p) => if p in db.payments then Some(db.payments[p]) else None
    case DoLoseDispute(p, _, _) => if p in db.payments then Some(db.payments[p]) else None
    case DoComplete(o) => Some(o)
    case DoTransferEvent(o, _, _) => Some(o)
  }

  /** The table of allowed transitions, row by row. */
  const TRANSITIONS: set<(Status, Status)> :=
    {(Draft, AwaitingPayment), (Draft, Cancelled), (Draft, Expired),
     (AwaitingPayment, Paid), (AwaitingPayment, PaymentFailed), (AwaitingPayment, Cancelled),
     (AwaitingPayment, Expired), (PaymentFailed, AwaitingPayment), (PaymentFailed, Cancelled),
     (Paid, Fulfilled), (Paid, RefundPending), (Paid, Disputed),
     (Fulfilled, Completed), (Fulfilled, RefundPending), (Fulfilled, Disputed),
     (Completed, RefundPending), (Completed, Disputed),
     (RefundPending, Status.Refunded), (RefundPending, PartiallyRefunded), (RefundPending, Fulfilled),
     (PartiallyRefunded, RefundPending), (PartiallyRefunded, Status.Refunded), (PartiallyRefunded, Disputed),
     (Disputed, ChargebackLost), (Disputed, Fulfilled), (Disputed, Status.Refunded)}

  lemma AllowedIs(from: Status, to: Status)
    ensures Allowed(from, to) <==> (from, to) in TRANSITIONS
  {
  }

  /** One edge of an order's life under one operation. */
  predicate Edge(op: Op, from: Status, to: Status) {
    match op
    case DoBeginPayment(_) => from in {Draft, PaymentFailed} && to == AwaitingPayment
    case DoFailPayment(_) => if from == AwaitingPayment then to == PaymentFailed else to == from
    case DoExpire(_) => if from in {Draft, AwaitingPayment} then to == Expired else to == from
    case DoConfirm(_, _, _) =>
      if from == AwaitingPayment then to == Fulfilled else from in {Paid, Fulfilled, Completed} && to == from
    case DoRefund(_, _, _) =>
      from in {Paid, Fulfilled, Completed, PartiallyRefunded} && to in {PartiallyRefunded, Status.Refunded}
    case DoOpenDispute(_, _) =>
      from in {Paid, Fulfilled, Completed, PartiallyRefunded, Disputed} && to == Disputed
    case DoWinDispute(_) => if from == Disputed then to == Fulfilled else to == from
    case DoLoseDispute(_, _, _) => if from == Disputed then to == ChargebackLost else to == from
    case DoComplete(_) => from == Fulfilled && to == Completed
    case _ => to == from
  }

  /** Order o moves along an edge, and no other order's status changes. */
  predicate MovesOne(db: Db, after: Db, op: Op, o: nat) {
    && |db.orders| <= |after.orders|
    && (o < |db.orders| ==> Edge(op, db.orders[o].status, after.orders[o].status))
    && forall x :: 0 <= x < |db.orders| && x != o ==> after.orders[x].status == db.orders[x].status
  }

  lemma ConfirmMoves(db: Db, o: nat, c: Capture, ready: set<nat>)
    requires ConfirmSpec(db, o, c, ready).Ok?
    ensures MovesOne(db, ConfirmSpec(db, o, c, ready).value, DoConfirm(o, c, ready), o)
  {
    hide PostSpec, CaptureEntry, FeeEntry, CaptureItems, OrEstimate;
  }

  lemma RefundMoves(db: Db, o: nat, i: nat, q: RefundRequest)
    requires RefundSpec(db, o, i, q).Ok?
    ensures MovesOne(db, RefundSpec(db, o, i, q).value, DoRefund(o, i, q), o)
  {
    hide PostSpec, RefundEntry, Scales, RefundItem, ShareOf, HasPayment, RefTaken;
  }

  lemma ReleaseMoves(db: Db, o: nat, i: nat, reserveBps: nat, providerOk: bool)
    requires ReleaseSpec(db, o, i, reserveBps, providerOk).Ok?
    ensures MovesOne(db, ReleaseSpec(db, o, i, reserveBps, providerOk).value,
                     DoRelease(o, i, reserveBps, providerOk), o)
  {
    hide PostSpec, ApplySpec, ApplyBasisPoints;
  }

  lemma LossMovesOne(db: Db, payment: nat, dispute: nat, amount: int, o: nat)
    requires DisputeLostSpec(db, payment, dispute, amount).Ok?
    requires if payment in db.payments then db.payments[payment] == o else o >= |db.orders|
    ensures MovesOne(db, DisputeLostSpec(db, payment, dispute, amount).value,
                     DoLoseDispute(payment, dispute, amount), o)
  {
    hide PostSpec, LossEntry, HasKey, LossItems, LossOffsets, LossRows;
  }

  lemma OthersMoveOne(db: Db, op: Op, o: nat)
    requires !op.DoConfirm? && !op.DoRefund? && !op.DoRelease? && !op.DoLoseDispute? && Apply(db, op).Ok?
    requires if About(db, op).Some? then About(db, op).value == o else o >= |db.orders|
    ensures MovesOne(db, Apply(db, op).value, op, o)
  {
    hide PriceAll, FreezeItems, T.ComputeSpec;
  }

  /** Whatever goes through moves the order it is about along one edge and leaves the
      status of every other order alone. */
  lemma StatusesMoveAlongEdges(db: Db, op: Op, x: nat)
    requires Apply(db, op).Ok? && x < |db.orders|
    ensures var after := Apply(db, op).value;
            && |db.orders| <= |after.orders|
            && (About(db, op) == Some(x) ==> Edge(op, db.orders[x].status, after.orders[x].status))
            && (About(db, op) != Some(x) ==> after.orders[x].status == db.orders[x].status)
  {
    hide Edge, ConfirmSpec, RefundSpec, ReleaseSpec, DisputeLostSpec, CheckoutSpec, DisputeOpenedSpec, DisputeWonSpec,
         BeginPaymentSpec, TransferEventSpec, Move;
    var o := match About(db, op) case Some(o) => o case None => |db.orders|;
    match op
    case DoConfirm(_, c, ready) => ConfirmMoves(db, o, c, ready);
    case DoRefund(_, i, q) => RefundMoves(db, o, i, q);
    case DoRelease(_, i, bps, ok) => ReleaseMoves(db, o, i, bps, ok);
    case DoLoseDispute(p, d, a) => LossMovesOne(db, p, d, a, o);
    case _ => OthersMoveOne(db, op, o);
  }

  /** The plain moves are accepted exactly so. */
  lemma MovesAre(db: Db, o: nat)
    ensures BeginPaymentSpec(db, o).Ok?
            <==> o < |db.orders| && db.orders[o].status in {Draft, PaymentFailed} && db.orders[o].grandTotal > 0
    ensures Apply(db, DoComplete(o)).Ok? <==> o < |db.orders| && db.orders[o].status == Fulfilled
    ensures Apply(db, DoFailPayment(o)).Ok? && Apply(db, DoExpire(o)).Ok?
  {
  }

  /** And they change that one status only. */
  lemma MovesChangeOneStatus(db: Db, op: Op)
    requires op.DoBeginPayment? || op.DoComplete? || op.DoFailPayment? || op.DoExpire?
    requires Apply(db, op).Ok? && op.order < |db.orders|
    ensures var after, o := Apply(db, op).value, op.order;
            && |after.orders| == |db.orders|
            && after == db.(orders := db.orders[o := db.orders[o].(status := after.orders[o].status)])
  {
    var o := op.order;
    assert db.orders[o := db.orders[o]] == db.orders;
    assert db.orders[o].(status := db.orders[o].status) == db.orders[o];
  }

  /** A payment of an order already paid changes nothing, and one of an order that
      neither was paid nor awaits payment is refused, as is one of another amount. */
  lemma ConfirmGuards(db: Db, o: nat, c: Capture, ready: set<nat>)
    ensures o >= |db.orders| ==> ConfirmSpec(db, o, c, ready) == Err(NotFound)
    ensures o < |db.orders| && db.orders[o].status in {Paid, Fulfilled, Completed} ==>
              ConfirmSpec(db, o, c, ready) == Ok(db)
    ensures o < |db.orders| && db.orders[o].status !in {Paid, Fulfilled, Completed, AwaitingPayment} ==>
              ConfirmSpec(db, o, c, ready) == Err(BadState)
    ensures o < |db.orders| && db.orders[o].status == AwaitingPayment && c.amount != db.orders[o].grandTotal ==>
              ConfirmSpec(db, o, c, ready) == Err(AmountMismatch)
  {
  }

  /** The statuses an order can rest in: a paid one is fulfilled at once, a refund
      passes its pending status within one unit of work, and nothing cancels. */
  predicate Resting(s: Status) {
    s !in {Paid, RefundPending, Cancelled}
  }

  lemma {:induction false} OrdersRest(ops: seq<Op>, o: nat)
    requires o < |Run(ops).orders|
    ensures Resting(Run(ops).orders[o].status)
  {
    hide Apply;
    if ops == [] {
    } else {
      var init, op := ops[..|ops| - 1], ops[|ops| - 1];
      var before := Run(init);
      if Apply(before, op).Ok? {
        if o < |before.orders| {
          OrdersRest(init, o);
          StatusesMoveAlongEdges(before, op, o);
        } else {
          NewOrdersAreDrafts(before, op, o);
        }
      } else {
        OrdersRest(init, o);
      }
    }
  }

  lemma NewOrdersAreDrafts(db: Db, op: Op, o: nat)
    requires Apply(db, op).Ok? && |db.orders| <= o < |Apply(db, op).value.orders|
    ensures Apply(db, op).value.orders[o].status == Draft
  {
    hide PostSpec, ApplySpec, ApplyBasisPoints, CaptureEntry, FeeEntry, RefundEntry, LossEntry, Scales, RefundItem,
         CaptureItems, FreezeItems, LossItems, PriceAll, HasKey, OrEstimate, LossOffsets, LossRows, T.ComputeSpec;
  }
}
