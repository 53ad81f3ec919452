/** Whole runs: any sequence of checkouts, payments, refunds, releases, disputes
    and provider events, in any order, with any failures. */
module Runs {
  import opened Money
  import opened Ledger
  import opened Orders
  import opened Postings
  import opened Settlements
  import opened Books
  import opened Steps
  import R = Refunds
  import F = RefundSteps
  import C = Captures
  import S = ReleaseSteps
  import L = LossSteps

  lemma EmptyInv()
    ensures Inv(EMPTY)
  {
  }

  lemma SimpleMovesKeepInv(db: Db, op: Op)
    requires Inv(db) && (op.DoBeginPayment? || op.DoFailPayment? || op.DoExpire? || op.DoComplete?) && Apply(db, op).Ok?
    ensures Inv(Apply(db, op).value)
  {
    hide Inv, Move, ConfirmSpec, CheckoutSpec, RefundSpec, ReleaseSpec, DisputeOpenedSpec, DisputeWonSpec,
         DisputeLostSpec, TransferEventSpec;
    match op
    case DoBeginPayment(o) => MoveKeepsInv(db, o, db.orders[o].status, AwaitingPayment);
    case DoFailPayment(o) =>
      if o < |db.orders| && db.orders[o].status == AwaitingPayment {
        MoveKeepsInv(db, o, AwaitingPayment, PaymentFailed);
      }
    case DoExpire(o) =>
      if o < |db.orders| && db.orders[o].status in {Draft, AwaitingPayment} {
        MoveKeepsInv(db, o, db.orders[o].status, Expired);
      }
    case DoComplete(o) => MoveKeepsInv(db, o, Fulfilled, Completed);
  }

  lemma DisputeWonKeepsInv(db: Db, payment: nat)
    requires Inv(db) && DisputeWonSpec(db, payment).Ok?
    ensures Inv(DisputeWonSpec(db, payment).value)
  {
    hide Inv, Move;
    if DisputedOrder(db, payment).Some? && db.orders[DisputedOrder(db, payment).value].status == Disputed {
      MoveKeepsInv(db, DisputedOrder(db, payment).value, Disputed, Fulfilled);
    }
  }

  lemma ApplyKeepsInv(db: Db, op: Op)
    requires Inv(db) && Sensible(op) && Apply(db, op).Ok?
    ensures Inv(Apply(db, op).value)
  {
    hide Inv, Sensible, Move, ConfirmSpec, CheckoutSpec, RefundSpec, ReleaseSpec, DisputeOpenedSpec, DisputeWonSpec,
         DisputeLostSpec, TransferEventSpec, BeginPaymentSpec;
    match op
    case DoCheckout(p, b, ls) => CheckoutKeepsInv(db, p, b, ls);
    case DoConfirm(o, c, ready) => C.ConfirmKeepsInv(db, o, c, ready);
    case DoRefund(o, i, q) => F.RefundKeepsInv(db, o, i, q);
    case DoRelease(o, i, bps, ok) => S.ReleaseKeepsInv(db, o, i, bps, ok);
    case DoOpenDispute(p, a) => DisputeOpenedKeepsInv(db, p, a);
    case DoWinDispute(p) => DisputeWonKeepsInv(db, p);
    case DoLoseDispute(p, d, a) => L.DisputeLostKeepsInv(db, p, d, a);
    case DoTransferEvent(o, i, e) => TransferEventKeepsInv(db, o, i, e);
    case _ => SimpleMovesKeepInv(db, op);
  }

  predicate AllSensible(ops: seq<Op>) {
    forall n :: 0 <= n < |ops| ==> Sensible(ops[n])
  }

  /** The books agree after every run. */
  lemma {:induction false} EveryRunKeepsTheBooks(ops: seq<Op>)
    requires AllSensible(ops)
    ensures Inv(Run(ops))
  {
    hide Inv, Sensible, Apply;
    if ops == [] {
      EmptyInv();
    } else {
      var init, op := ops[..|ops| - 1], ops[|ops| - 1];
      assert AllSensible(init) by { forall n | 0 <= n < |init| ensures Sensible(init[n]) { assert Sensible(ops[n]); } }
      EveryRunKeepsTheBooks(init);
      assert Sensible(op);
      if Apply(Run(init), op).Ok? {
        ApplyKeepsInv(Run(init), op);
      }
    }
  }

  // ---- what it means -------------------------------------------------------------

  /** The seller-offset receivable is what the recovery rows are still owed, plus
      recoveries netted without a posting, less recoveries recorded by a repeated
      dispute. It equals the outstanding total exactly when those two cancel. */
  lemma ReceivableIsWhatIsOutstanding(ops: seq<Op>)
    requires AllSensible(ops)
    ensures var db := Run(ops);
            && Balance(db.journal, SellerOffset) == OwingTotal(db.offsets) + Replayed(db.releases) - Unposted(db.losses)
            && (Balance(db.journal, SellerOffset) == OwingTotal(db.offsets)
                <==> Replayed(db.releases) == Unposted(db.losses))
  {
    EveryRunKeepsTheBooks(ops);
    hide Run, Balance, OwingTotal, Replayed, Unposted;
  }

  /** A seller's payable account is credited with the captured nets, and debited
      with each release, with refund shares and charged-back nets taken before
      settlement, and with nothing else. */
  lemma PayableIsWhatIsOwed(ops: seq<Op>, s: nat)
    requires AllSensible(ops)
    ensures var db := Run(ops);
            && -Balance(db.journal, Payable(s))
               == CapturedNets(db.orders, s) - Released(db.releases, s) - Reversals(db.refunds, s) - Lost(db.losses, s)
            && -Balance(db.journal, Reserve(s)) == Reserved(db.releases, s)
  {
    EveryRunKeepsTheBooks(ops);
    hide Run, Balance, CapturedNets, Released, Reversals, Lost, Reserved;
  }

  /** An order has a capture entry exactly when its status says it was paid; then
      there is one, it debits the grand total, and every item has its one licence. */
  lemma CapturedExactlyOnce(ops: seq<Op>, o: nat)
    requires AllSensible(ops) && o < |Run(ops).orders|
    ensures var db := Run(ops);
            var captures := CapturesOf(db.journal, o);
            if Captured(db.orders[o].status)
            then |captures| == 1 && Total(captures[0].lines, Debit) == db.orders[o].grandTotal
                 && (forall i :: 0 <= i < |db.orders[o].items| ==> db.orders[o].items[i].licence.Some?)
            else captures == [] && (forall i :: 0 <= i < |db.orders[o].items| ==> db.orders[o].items[i].licence == None)
  {
    EveryRunKeepsTheBooks(ops);
    hide Run, CapturesOf, Total, ItemsOk, SumOf;
    var db := Run(ops);
    assert CaptureOk(db.journal, o, db.orders) && OrderOk(db.orders[o]);
  }

  lemma {:induction false} FullyRefundedSum(items: seq<Item>)
    requires ItemsOk(items)
    ensures SumOf(items, RefundedSoFar) <= SumOf(items, BuyerTotal)
    ensures SumOf(items, RefundedSoFar) == SumOf(items, BuyerTotal)
            <==> forall i :: 0 <= i < |items| ==> items[i].refunded == items[i].bd.buyerTotal
  {
    if items == [] {
    } else {
      var init := items[..|items| - 1];
      ItemsOkParts(items);
      FullyRefundedSum(init);
      assert forall i :: 0 <= i < |init| ==> init[i] == items[i];
    }
  }

  /** No item is refunded beyond what was paid for it, and a captured order is
      refunded exactly when every item is. */
  lemma RefundedExactlyWhenEveryItemIs(ops: seq<Op>, o: nat)
    requires AllSensible(ops) && o < |Run(ops).orders|
    ensures var ord := Run(ops).orders[o];
            && (forall i :: 0 <= i < |ord.items| ==> 0 <= ord.items[i].refunded <= ord.items[i].bd.buyerTotal)
            && (Captured(ord.status) ==>
                  (ord.status == Refunded
                   <==> forall i :: 0 <= i < |ord.items| ==> ord.items[i].refunded == ord.items[i].bd.buyerTotal))
  {
    EveryRunKeepsTheBooks(ops);
    hide Run, KeysOk, CapturesOk, PayablesOk, ReservesOk, RefundsOk, ReleasesOk, BorneBySellers, Delivered, Untouched;
    var ord := Run(ops).orders[o];
    assert OrderOk(ord);
    FullyRefundedSum(ord.items);
    forall i | 0 <= i < |ord.items|
      ensures 0 <= ord.items[i].refunded <= ord.items[i].bd.buyerTotal
    {
      assert ItemOk(ord.items[i]);
    }
  }

  /** Over every run and for every component of an item that a refund reverses (its
      net, the commission, the tax on it, TCS and TDS), what k refunds took back is
      within k/2 minor units of its exact proportion of what they returned to the
      buyer; of the net, that is the sum over the refund rows. */
  lemma RefundDriftInEveryRun(ops: seq<Op>, o: nat, i: nat, p: Part)
    requires AllSensible(ops) && o < |Run(ops).orders| && i < |Run(ops).orders[o].items| && R.IsComponent(p)
    ensures var it := Run(ops).orders[o].items[i];
            var amounts := AmountsOn(Run(ops).refunds, o, i);
            && it.refunded == R.SumAmounts(amounts)
            && var taken := R.SumShares(it, p, amounts);
            var t := it.bd.buyerTotal;
            && -(t * |amounts|) <= 2 * (t * taken) - 2 * (PartOf(it, p) * it.refunded) <= t * |amounts|
            && (p == SellerNet ==> taken == SharesOn(Run(ops).refunds, o, i))
  {
    EveryRunKeepsTheBooks(ops);
    hide Run;
    var db := Run(ops);
    assert RefundsOk(db.orders, db.refunds) && OrderOk(db.orders[o]);
    hide Inv;
    var it := db.orders[o].items[i];
    assert ItemOk(it);
    var amounts := AmountsOn(db.refunds, o, i);
    SharesAre(db.orders, db.refunds, o, i);
    R.DriftAfterRefunds(it, p, amounts);
  }

  /** The seller shares of the refunds of one item. */
  function SharesOn(rows: seq<RefundRow>, o: nat, i: nat): int {
    if rows == [] then 0 else
    var r := rows[|rows| - 1];
    SharesOn(rows[..|rows| - 1], o, i) + if r.order == o && r.item == i then r.share else 0
  }

  lemma {:induction false} SharesAre(orders: seq<Order>, rows: seq<RefundRow>, o: nat, i: nat)
    requires forall n :: 0 <= n < |rows| ==> RefundRowOk(orders, rows[n])
    requires o < |orders| && i < |orders[o].items|
    ensures SharesOn(rows, o, i) == R.SumShares(orders[o].items[i], SellerNet, AmountsOn(rows, o, i))
    ensures Refundables(orders[o].items[i], AmountsOn(rows, o, i))
  {
    hide RefundRowOk, ShareOf, Refundables, R.SumShares;
    var it := orders[o].items[i];
    if rows == [] {
      NoAmounts(it);
    } else {
      var init, r := rows[..|rows| - 1], rows[|rows| - 1];
      SharesAre(orders, init, o, i);
      RowMeans(orders, r);
      OneMoreShare(it, AmountsOn(init, o, i), r.amount);
      OneMoreAmount(it, AmountsOn(init, o, i), r.amount);
    }
  }

  /** Amounts that can each be refunded on an item. */
  predicate Refundables(it: Item, amounts: seq<int>) {
    forall a <- amounts :: 0 < a <= it.bd.buyerTotal
  }

  lemma NoAmounts(it: Item)
    ensures Refundables(it, []) && R.SumShares(it, SellerNet, []) == 0
  {
  }

  lemma OneMoreAmount(it: Item, xs: seq<int>, a: int)
    requires Refundables(it, xs)
    ensures 0 < a <= it.bd.buyerTotal ==> Refundables(it, xs + [a])
  {
  }

  lemma RowMeans(orders: seq<Order>, r: RefundRow)
    requires RefundRowOk(orders, r)
    ensures r.order < |orders| && r.item < |orders[r.order].items|
    ensures 0 < r.amount <= orders[r.order].items[r.item].bd.buyerTotal
    ensures r.share == ShareOf(orders[r.order].items[r.item], SellerNet, r.amount)
  {
    hide ShareOf;
  }

  lemma OneMoreShare(it: Item, xs: seq<int>, a: int)
    ensures R.SumShares(it, SellerNet, xs + [a]) == R.SumShares(it, SellerNet, xs) + ShareOf(it, SellerNet, a)
    ensures xs + [] == xs
  {
    hide ShareOf;
    assert (xs + [a])[..|xs|] == xs;
  }

  /** In every reachable journal, total debits equal total credits. */
  lemma EveryRunBalances(ops: seq<Op>, c: Currency)
    requires AllSensible(ops)
    ensures TrialTotal(Run(ops).journal, c, Debit) == TrialTotal(Run(ops).journal, c, Credit)
  {
    EveryRunKeepsTheBooks(ops);
    hide Run;
    TrialBalances(Run(ops).journal, c);
  }

  /** No transfer is released twice, and every release accounts for the whole of
      the item's net: reserve, recoveries and the net paid out. */
  lemma ReleasedAtMostOnce(ops: seq<Op>, m: nat, n: nat)
    requires AllSensible(ops) && m < n < |Run(ops).releases|
    ensures var db := Run(ops);
            && (db.releases[m].order, db.releases[m].item) != (db.releases[n].order, db.releases[n].item)
            && ReleaseRowOk(db.orders, db.releases[m])
  {
    EveryRunKeepsTheBooks(ops);
    hide Run;
    var db := Run(ops);
    assert ReleasesOk(db.orders, db.releases);
  }
}
