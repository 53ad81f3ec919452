/** Five runs that leave a seller's payable overdrawn: a chargeback lost after a
    refund, a refund after a lost chargeback, two chargebacks lost on one payment, two
    partial refunds whose shares both round up, and a reserve above the transfer.
    These are not all there are: Overdrafts says exactly when one happens. */
module OverdraftRuns {
  import opened Money
  import opened Ledger
  import opened Orders
  import opened Settlements
  import opened Books
  import opened Runs
  import opened Outcomes
  import opened Chargebacks
  import opened Overdrafts
  import opened SmallSale
  import R = Refunds
  import F = RefundSteps
  import L = LossSteps
  import S = ReleaseSteps
  import C = Captures

  // ---- one sale --------------------------------------------------------------------

  const PAYMENT: Capture := Capture(0, 4, Some(0), Some(0), 0, 0)

  /** Four minor units at half commission, paid: two of them are the seller's. */
  const SALE: seq<Op> := [DoCheckout(NO_RATES, BUYER, [LINE]), DoBeginPayment(0), DoConfirm(0, PAYMENT, {})]

  function Bought(status: Status): Order {
    Order(status, 4, 0, [NewItem(0, PRICED)])
  }

  lemma RunAppend(ops: seq<Op>, op: Op)
    ensures Run(ops + [op]) == Step(Run(ops), op)
  {
    assert (ops + [op])[..|ops|] == ops;
    hide Step;
  }

  lemma SensibleAppend(ops: seq<Op>, op: Op)
    requires AllSensible(ops) && Sensible(op)
    ensures AllSensible(ops + [op])
  {
    hide Sensible;
  }

  lemma SaleIsSensible()
    ensures AllSensible(SALE) && AllSensible(SALE[..2])
  {
    assert forall l :: l in [LINE] ==> l == LINE;
  }

  lemma StepOfOk(db: Db, op: Op)
    ensures Apply(db, op).Ok? ==> Step(db, op) == Apply(db, op).value
  {
    hide Apply;
  }

  lemma CheckedOut()
    ensures CheckoutSpec(EMPTY, NO_RATES, BUYER, [LINE]) == Ok(EMPTY.(orders := [Bought(Draft)]))
  {
    ZeroRated();
    hide T.ComputeSpec;
    var lines := [LINE];
    assert lines[..0] == [];
    var it := NewItem(0, PRICED);
    OneItem(it);
    assert PriceAll(NO_RATES, BUYER, []) == Ok([]);
    assert [] + [it] == [it];
    assert PriceAll(NO_RATES, BUYER, lines) == Ok([it]);
    assert EMPTY.orders + [Bought(Draft)] == [Bought(Draft)];
  }

  lemma Begun()
    ensures BeginPaymentSpec(EMPTY.(orders := [Bought(Draft)]), 0) == Ok(EMPTY.(orders := [Bought(AwaitingPayment)]))
  {
    var db := EMPTY.(orders := [Bought(Draft)]);
    assert db.orders[0 := Bought(AwaitingPayment)] == [Bought(AwaitingPayment)];
  }

  // ---- its refunds and its dispute -------------------------------------------------

  predicate Sold(it: Item) {
    it.seller == 0 && it.bd.sellerNet == 2 && it.bd.buyerTotal == 4 && !IsSettled(it)
  }

  predicate Queued(it: Item) {
    it.transfer == Some(Transfer(2, Pending, false))
  }

  /** The one order, its one item unsettled, after so many refunds under ids 0, 1, ...
      and so many lost disputes numbered likewise. */
  ghost predicate Stage(db: Db, status: Status, refunded: int, refunds: nat, lost: nat) {
    && |db.orders| == 1 && |db.orders[0].items| == 1 && db.orders[0].status == status
    && Sold(db.orders[0].items[0]) && db.orders[0].items[0].refunded == refunded
    && db.payments == map[0 := 0] && (forall d: nat :: d >= lost ==> !HasKey(db.journal, ChargebackKey(d)))
    && |db.refunds| == refunds && forall n :: 0 <= n < refunds ==> db.refunds[n].providerRef == Some(n)
  }

  lemma PaymentIsRecorded(db: Db)
    requires Inv(db) && db.orders == [Bought(AwaitingPayment)]
    requires db.payments == map[] && db.refunds == [] && db.releases == [] && db.losses == [] && db.journal == []
    ensures Stage(Step(db, SALE[2]), Fulfilled, 0, 0, 0) && Held(Step(db, SALE[2]), 0) == 2
    ensures Queued(Step(db, SALE[2]).orders[0].items[0])
  {
    hide Run, Step, Inv, RecordCaptureSpec, HasKey, Balance, CapturesOf, Sound, CaptureEntry, PostTo, ChargeFee,
         CaptureItem, Sold, Queued, Held, Overdrafts.Taken;
    OneItem(NewItem(0, PRICED));
    ConfirmSucceedsIff(db, 0, PAYMENT, {});
    C.CaptureJournal(db, 0, PAYMENT, {});
    C.RecordCaptureShape(db, 0, PAYMENT, {});
    StepOfOk(db, SALE[2]);
    NoKeys();
    CaptureSells(NewItem(0, PRICED));
    SaleGives(db);
  }

  lemma PaidStage()
    ensures Stage(Run(SALE), Fulfilled, 0, 0, 0) && Held(Run(SALE), 0) == 2
    ensures |Run(SALE).orders| == 1 && |Run(SALE).orders[0].items| == 1 && Queued(Run(SALE).orders[0].items[0])
  {
    hide Run, Step, Inv, Queued, Held, CheckoutSpec, BeginPaymentSpec, Bought;
    CheckedOut();
    Begun();
    StepOfOk(EMPTY, SALE[0]);
    StepOfOk(EMPTY.(orders := [Bought(Draft)]), SALE[1]);
    RunAppend([], SALE[0]);
    RunAppend([SALE[0]], SALE[1]);
    RunAppend(SALE[..2], SALE[2]);
    assert [] + [SALE[0]] == [SALE[0]] && SALE[..2] == [SALE[0]] + [SALE[1]] && SALE == SALE[..2] + [SALE[2]];
    NothingRun();
    SaleIsSensible();
    EveryRunKeepsTheBooks(SALE[..2]);
    PaymentIsRecorded(Run(SALE[..2]));
  }

  lemma NothingRun()
    ensures Run([]) == EMPTY
  {
  }

  lemma SaleGives(db: Db)
    requires Inv(db) && ConfirmSpec(db, 0, PAYMENT, {}).Ok? && db.journal == [] && |db.orders| == 1
    requires db.orders[0].status == AwaitingPayment && db.orders[0].items == [NewItem(0, PRICED)]
    ensures Held(ConfirmSpec(db, 0, PAYMENT, {}).value, 0) == 2
  {
    hide Inv, ConfirmSpec;
    ConfirmTakes(db, 0, PAYMENT, {}, 0);
    OneItem(NewItem(0, PRICED));
  }

  lemma CaptureSells(it: Item)
    requires it.seller == 0 && it.bd.sellerNet == 2 && it.bd.buyerTotal == 4 && it.transfer.None? && it.refunded == 0
    ensures Sold(CaptureItem(it, {})) && CaptureItem(it, {}).refunded == 0 && Queued(CaptureItem(it, {}))
  {
  }

  lemma NoKeys()
    ensures forall k :: !HasKey([], k)
  {
  }

  function RefundOf(amount: int, ref: nat): Op {
    DoRefund(0, 0, RefundRequest(Some(amount), true, false, Accepts(Some(ref))))
  }

  lemma RefundStage(db: Db, status: Status, refunded: int, refunds: nat, lost: nat, amount: int)
    requires Inv(db) && Stage(db, status, refunded, refunds, lost) && status in {Fulfilled, PartiallyRefunded}
    requires 0 <= refunded < refunded + amount <= 4
    ensures var after := Step(db, RefundOf(amount, refunds));
            && var now := if refunded + amount == 4 then Status.Refunded else PartiallyRefunded;
            && Stage(after, now, refunded + amount, refunds + 1, lost)
            && Held(after, 0) == Held(db, 0) - ShareOf(db.orders[0].items[0], SellerNet, amount)
  {
    hide Run, Step, Inv, RefundSpec, HasKey, Balance, CapturesOf, Sound, RefundEntry, PostTo, R.RefundEffect, ShareOf,
         F.Refundable, RefundItem, OrderOk, KeysOk, Held;
    var q := RefundOf(amount, refunds).request;
    var it := db.orders[0].items[0];
    assert RefundAmount(it, q.requested) == Ok(amount);
    assert HasPayment(db, 0) by { assert db.payments[0] == 0; }
    RefundSucceedsIff(db, 0, 0, q);
    F.RefundJournal(db, 0, 0, q);
    C.InvFacts(db, 0);
    OrderOfOne(db.orders[0]);
    F.RefundShape(db, 0, 0, q);
    RefundStaysUnsettled(it, amount);
    StepOfOk(db, RefundOf(amount, refunds));
    PostToPayments(db, RefundEntry(|db.refunds|, it, amount, IsSettled(it)));
    RefundTaken(db, 0, 0, q, 0);
  }

  lemma OrderOfOne(ord: Order)
    requires OrderOk(ord) && |ord.items| == 1
    ensures ord.grandTotal == ord.items[0].bd.buyerTotal && ord.refunded == ord.items[0].refunded
  {
    assert ord.items == [ord.items[0]];
    OneItem(ord.items[0]);
  }

  lemma RefundStaysUnsettled(it: Item, amount: int)
    requires Sold(it)
    ensures Sold(RefundItem(it, amount, false)) && RefundItem(it, amount, false).refunded == it.refunded + amount
  {
  }

  lemma PostToPayments(db: Db, e: Entry)
    ensures PostTo(db, e).Ok? ==> PostTo(db, e).value.payments == db.payments
  {
  }

  /** Half of 1 and half of 3 both round up; half of all 4 is exact. */
  lemma SharesOfFour(it: Item)
    requires Sold(it)
    ensures ShareOf(it, SellerNet, 1) == 1 && ShareOf(it, SellerNet, 3) == 2 && ShareOf(it, SellerNet, 4) == 2
  {
  }

  lemma OnlyCheckoutMatters(op: Op)
    requires !op.DoCheckout?
    ensures Sensible(op)
  {
  }

  lemma StageItem(db: Db, status: Status, refunded: int, refunds: nat, lost: nat)
    requires Stage(db, status, refunded, refunds, lost)
    ensures |db.orders| == 1 && |db.orders[0].items| == 1 && Sold(db.orders[0].items[0])
  {
    hide HasKey;
  }

  /** The sale and one more operation. */
  lemma AfterSale(op: Op)
    requires !op.DoCheckout?
    ensures AllSensible(SALE + [op]) && Run(SALE + [op]) == Step(Run(SALE), op)
    ensures Inv(Run(SALE)) && Inv(Run(SALE + [op]))
    ensures Stage(Run(SALE), Fulfilled, 0, 0, 0) && Held(Run(SALE), 0) == 2
    ensures |Run(SALE).orders| == 1 && |Run(SALE).orders[0].items| == 1
    ensures Sold(Run(SALE).orders[0].items[0]) && Queued(Run(SALE).orders[0].items[0])
  {
    hide Run, Step, Inv, Stage, AllSensible, Sensible, Held, Sold, Queued;
    PaidStage();
    StageItem(Run(SALE), Fulfilled, 0, 0, 0);
    SaleIsSensible();
    OnlyCheckoutMatters(op);
    SensibleAppend(SALE, op);
    RunAppend(SALE, op);
    EveryRunKeepsTheBooks(SALE);
    EveryRunKeepsTheBooks(SALE + [op]);
  }

  /** The sale and two more. */
  lemma AfterTwo(first: Op, second: Op)
    requires !first.DoCheckout? && !second.DoCheckout?
    ensures var ops := SALE + [first] + [second];
            && AllSensible(ops) && ops[..4] == SALE + [first] && ops[4] == second
            && Run(ops) == Step(Run(SALE + [first]), second)
  {
    hide Run, Step, AllSensible, Sensible;
    AfterSale(first);
    OnlyCheckoutMatters(second);
    SensibleAppend(SALE + [first], second);
    RunAppend(SALE + [first], second);
  }

  lemma LossStage(db: Db, status: Status, refunded: int, refunds: nat, lost: nat)
    requires Inv(db) && Stage(db, status, refunded, refunds, lost) && status != Disputed
    ensures var op := DoLoseDispute(0, lost, 4);
            && Apply(db, op).Ok? && Overdrafts.Taken(db, op, 0) == 2 && Held(Step(db, op), 0) == Held(db, 0) - 2
            && Stage(Step(db, op), status, refunded, refunds, lost + 1)
  {
    hide Run, Inv, DisputeLostSpec, HasKey, IsSettled, Held, Step, Sound, Balance, CapturesOf, LossRows, LossOffsets,
         LossEffect, LossItem, Sold;
    var op := DoLoseDispute(0, lost, 4);
    assert DisputedOrder(db, 0) == Some(0);
    FirstLossSucceedsIff(db, 0, lost, 4);
    LossTaken(db, 0, lost, 4, 0);
    OneItem(db.orders[0].items[0]);
    assert db.orders[0].items == [db.orders[0].items[0]];
    SoldGives(db.orders[0].items[0]);
    StepOfOk(db, op);
    L.LossJournal(db, 0, lost, 4);
    LossPayments(db, 0, lost, 4);
    LossStaysUnsettled(db.orders[0].items[0]);
  }

  lemma SoldGives(it: Item)
    requires Sold(it)
    ensures it.seller == 0 && !IsSettled(it) && LossOf(it) == 2
  {
  }

  lemma LossPayments(db: Db, payment: nat, dispute: nat, amount: int)
    requires DisputeLostSpec(db, payment, dispute, amount).Ok?
    ensures DisputeLostSpec(db, payment, dispute, amount).value.payments == db.payments
  {
    hide PostTo, LossEntry, HasKey, LossItems, LossOffsets, LossRows;
    if DisputedOrder(db, payment).Some? {
      PostToPayments(db, LossEntry(dispute, db.orders[DisputedOrder(db, payment).value].items, amount));
    }
  }

  lemma LossStaysUnsettled(it: Item)
    requires Sold(it)
    ensures Sold(LossItem(it)) && LossItem(it).refunded == it.refunded
  {
  }

  /** A chargeback lost after a full refund takes the net a second time. */
  lemma LossAfterRefundOverdraws()
    ensures var ops := SALE + [RefundOf(4, 0)] + [DoLoseDispute(0, 0, 4)];
            && AllSensible(ops) && Held(Run(ops[..4]), 0) == 0 && Held(Run(ops), 0) == -2
            && OverdrawsAt(Run(ops[..4]), ops[4], 0)
  {
    hide Run, Step, Inv, Stage, AllSensible, Held, Overdrafts.Taken, Sold, Queued, ShareOf, Apply;
    AfterTwo(RefundOf(4, 0), DoLoseDispute(0, 0, 4));
    AfterSale(RefundOf(4, 0));
    SharesOfFour(Run(SALE).orders[0].items[0]);
    RefundStage(Run(SALE), Fulfilled, 0, 0, 0, 4);
    LossStage(Run(SALE + [RefundOf(4, 0)]), Status.Refunded, 4, 1, 0);
  }

  /** So does a refund after a loss, on an order that no opened dispute marked. */
  lemma RefundAfterLossOverdraws()
    ensures var ops := SALE + [DoLoseDispute(0, 0, 4)] + [RefundOf(4, 0)];
            && AllSensible(ops) && Held(Run(ops[..4]), 0) == 0 && Held(Run(ops), 0) == -2
  {
    hide Run, Step, Inv, Stage, AllSensible, Held, Overdrafts.Taken, Sold, Queued, ShareOf, Apply;
    var lost := DoLoseDispute(0, 0, 4);
    AfterTwo(lost, RefundOf(4, 0));
    AfterSale(lost);
    LossStage(Run(SALE), Fulfilled, 0, 0, 0);
    StageItem(Run(SALE + [lost]), Fulfilled, 0, 0, 1);
    SharesOfFour(Run(SALE + [lost]).orders[0].items[0]);
    RefundStage(Run(SALE + [lost]), Fulfilled, 0, 0, 1, 4);
  }

  /** So does a second dispute lost on the same payment: its key is another one. */
  lemma SecondDisputeOverdraws()
    ensures var ops := SALE + [DoLoseDispute(0, 0, 4)] + [DoLoseDispute(0, 1, 4)];
            && AllSensible(ops) && Held(Run(ops[..4]), 0) == 0 && Held(Run(ops), 0) == -2
            && OverdrawsAt(Run(ops[..4]), ops[4], 0)
  {
    hide Run, Step, Inv, Stage, AllSensible, Held, Overdrafts.Taken, Sold, Queued, Apply;
    AfterTwo(DoLoseDispute(0, 0, 4), DoLoseDispute(0, 1, 4));
    AfterSale(DoLoseDispute(0, 0, 4));
    LossStage(Run(SALE), Fulfilled, 0, 0, 0);
    LossStage(Run(SALE + [DoLoseDispute(0, 0, 4)]), Fulfilled, 0, 0, 1);
  }

  /** Without any dispute: refunds of 1 and of 3 take 1 and 2 of a net of 2. The
      provider gives them different ids, as for different amounts it should. */
  lemma RoundedRefundsOverdraw()
    ensures var ops := SALE + [RefundOf(1, 0)] + [RefundOf(3, 1)];
            && AllSensible(ops) && Held(Run(ops[..4]), 0) == 1 && Held(Run(ops), 0) == -1
  {
    hide Run, Step, Inv, Stage, AllSensible, Held, Sold, Queued, ShareOf;
    AfterTwo(RefundOf(1, 0), RefundOf(3, 1));
    AfterSale(RefundOf(1, 0));
    SharesOfFour(Run(SALE).orders[0].items[0]);
    RefundStage(Run(SALE), Fulfilled, 0, 0, 0, 1);
    var db := Run(SALE + [RefundOf(1, 0)]);
    StageItem(db, PartiallyRefunded, 1, 1, 0);
    SharesOfFour(db.orders[0].items[0]);
    RefundStage(db, PartiallyRefunded, 1, 1, 0, 3);
  }

  lemma TwiceIsReserved()
    ensures ApplyBasisPoints(2, 20_000, Down) == Ok(4)
  {
    assert MulRatio(2, 20_000, BPS, Down) == Ok(4);
  }

  lemma ReleaseOfQueued(db: Db)
    requires Inv(db) && |db.orders| == 1 && |db.orders[0].items| == 1
    requires Sold(db.orders[0].items[0]) && Queued(db.orders[0].items[0])
    ensures var op := DoRelease(0, 0, 20_000, true);
            Apply(db, op).Ok? && Overdrafts.Taken(db, op, 0) == 4 && Held(Step(db, op), 0) == Held(db, 0) - 4
  {
    hide Run, Inv, ReleaseSpec, HasKey, IsSettled, Held, Step, ApplyBasisPoints;
    assert S.Releasable(db.orders[0], 0);
    TwiceIsReserved();
    ReleaseSucceedsIff(db, 0, 0, 20_000, true);
    ReleaseTaken(db, 0, 0, 20_000, true, 0);
    StepOfOk(db, DoRelease(0, 0, 20_000, true));
  }

  /** A release alone, at a reserve of 200% that the column of the rate admits. */
  lemma ReserveAboveAllOverdraws()
    ensures var ops := SALE + [DoRelease(0, 0, 20_000, true)];
            && AllSensible(ops) && Held(Run(SALE), 0) == 2 && Held(Run(ops), 0) == -2
            && OverdrawsAt(Run(SALE), ops[3], 0)
  {
    hide Run, Step, Inv, Stage, AllSensible, Held, Overdrafts.Taken, Sold, Queued, Apply;
    var op := DoRelease(0, 0, 20_000, true);
    AfterSale(op);
    ReleaseOfQueued(Run(SALE));
    assert (SALE + [op])[3] == op;
  }
}
