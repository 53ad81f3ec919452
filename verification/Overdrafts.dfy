/** The system's own health check expects no seller's payable account to be
    negative. What each unit of work takes from it is known before it runs, so is
    exactly when the check goes on passing. */
module Overdrafts {
  import opened Money
  import opened Ledger
  import opened Orders
  import opened Postings
  import opened Settlements
  import opened Books
  import opened Runs
  import opened Outcomes
  import opened Chargebacks
  import H = Histories
  import F = RefundSteps
  import C = Captures
  import S = ReleaseSteps
  import L = LossSteps

  /** What the journal says a seller has coming. */
  function Held(db: Db, s: nat): int {
    -Balance(db.journal, Payable(s))
  }

  /** What a release takes: the reserve alone when that exceeds the transfer, else
      the transfer less the recoveries whose keys were used before. */
  function ReleaseTakes(db: Db, it: Item, reserveBps: nat): int
    requires it.transfer.Some?
  {
    var gross := it.transfer.value.amount;
    var reserve := ReserveOf(gross, reserveBps);
    if reserve > gross then reserve
    else gross - ReplayedFrom(db.journal, db.offsets, it.seller, gross - reserve, 0, 0)
  }

  /** What a refund takes: its share of the net, of an item not yet settled. */
  function RefundTakes(it: Item, requested: Option<int>): int {
    var amount := RefundAmount(it, requested);
    if IsSettled(it) || amount.Err? then 0 else ShareOf(it, SellerNet, amount.value)
  }

  /** What a lost dispute takes: the nets not yet settled, the first time. */
  function LossTakes(db: Db, payment: nat, dispute: nat, s: nat): int {
    match DisputedOrder(db, payment)
    case None => 0
    case Some(o) => if HasKey(db.journal, ChargebackKey(dispute)) then 0 else LossPayable(db.orders[o].items, s)
  }

  /** What a unit of work, if it goes through, takes from one seller. A recorded
      payment gives; beside refunds, releases and lost disputes nothing takes. */
  function Taken(db: Db, op: Op, s: nat): int {
    match op
    case DoConfirm(o, _, _) =>
      if o < |db.orders| && db.orders[o].status == AwaitingPayment then -OwedTo(db.orders[o].items, s) else 0
    case DoRefund(o, i, q) =>
      if o < |db.orders| && i < |db.orders[o].items| && db.orders[o].items[i].seller == s
      then RefundTakes(db.orders[o].items[i], q.requested) else 0
    case DoRelease(o, i, bps, _) =>
      if o < |db.orders| && S.Releasable(db.orders[o], i) && db.orders[o].items[i].seller == s
      then ReleaseTakes(db, db.orders[o].items[i], bps) else 0
    case DoLoseDispute(p, d, _) => LossTakes(db, p, d, s)
    case _ => 0
  }

  lemma ConfirmTakes(db: Db, o: nat, c: Capture, ready: set<nat>, s: nat)
    requires Inv(db) && ConfirmSpec(db, o, c, ready).Ok?
    ensures Held(ConfirmSpec(db, o, c, ready).value, s) == Held(db, s) - Taken(db, DoConfirm(o, c, ready), s)
  {
    hide Inv, RecordCaptureSpec, Sound, Balance, HasKey, CapturesOf, CaptureEntry, OwedTo;
    if db.orders[o].status == AwaitingPayment {
      C.CaptureJournal(db, o, c, ready);
    }
  }

  lemma RefundTaken(db: Db, o: nat, i: nat, q: RefundRequest, s: nat)
    requires Inv(db) && RefundSpec(db, o, i, q).Ok?
    ensures Held(RefundSpec(db, o, i, q).value, s) == Held(db, s) - Taken(db, DoRefund(o, i, q), s)
  {
    hide Inv, RefundSpec, Sound, Balance, HasKey, CapturesOf, ShareOf, IsSettled, F.RefundedOrder, F.Refundable,
         RefundAmount;
    F.RefundJournal(db, o, i, q);
  }

  lemma ReleaseTaken(db: Db, o: nat, i: nat, reserveBps: nat, providerOk: bool, s: nat)
    requires Inv(db) && ReleaseSpec(db, o, i, reserveBps, providerOk).Ok?
    ensures Held(ReleaseSpec(db, o, i, reserveBps, providerOk).value, s)
            == Held(db, s) - Taken(db, DoRelease(o, i, reserveBps, providerOk), s)
  {
    hide Inv, ReleaseSpec, Sound, Balance, HasKey, CapturesOf, SaneOffsets, OwingTotal, OwedBetween, ReplayedFrom,
         ApplyBasisPoints, S.ReleasedOrder, S.Releasable, OrderOk;
    if o < |db.orders| && S.Releasable(db.orders[o], i) {
      S.ReleasableItem(db.orders[o], i);
      S.ReleaseJournal(db, o, i, reserveBps, providerOk);
      var after := ReleaseSpec(db, o, i, reserveBps, providerOk).value;
      var it := db.orders[o].items[i];
      var reserve, n :| S.ReleasedInto(db, after, o, i, reserve, n)
                        && ApplyBasisPoints(it.transfer.value.amount, reserveBps, Down) == Ok(reserve);
      OwedSoFar(db, it.seller);
      var row := S.ReleaseRowFor(o, i, it, reserve, n);
      assert S.ReleaseEffect(row, Payable(s)) == if s == row.seller then ReleaseDebit(row) else 0;
    } else {
      S.ReleaseLeavesClosed(db, o, i, reserveBps, providerOk);
    }
  }

  lemma LossTaken(db: Db, payment: nat, dispute: nat, amount: int, s: nat)
    requires Inv(db) && DisputeLostSpec(db, payment, dispute, amount).Ok?
    ensures Held(DisputeLostSpec(db, payment, dispute, amount).value, s)
            == Held(db, s) - Taken(db, DoLoseDispute(payment, dispute, amount), s)
  {
    hide Inv, LossEntry, Sound, Balance, HasKey, CapturesOf, LossRows, LossOffsets, L.LostOrder, LossPayable;
    if DisputedOrder(db, payment).Some? {
      hide DisputeLostSpec;
      L.LossJournal(db, payment, dispute, amount);
    }
  }

  lemma OthersPostNothing(db: Db, op: Op)
    requires !op.DoConfirm? && !op.DoRefund? && !op.DoRelease? && !op.DoLoseDispute? && Apply(db, op).Ok?
    ensures Apply(db, op).value.journal == db.journal
  {
    hide PriceAll, Allowed, FreezeItems, TransferEventItem;
  }

  /** Every unit of work that goes through changes each seller's payable by exactly
      what was known before it ran. */
  lemma EachStepTakes(db: Db, op: Op, s: nat)
    requires Inv(db) && Apply(db, op).Ok?
    ensures Held(Apply(db, op).value, s) == Held(db, s) - Taken(db, op, s)
  {
    hide Inv, Held, Taken, ConfirmSpec, RefundSpec, ReleaseSpec, DisputeLostSpec, CheckoutSpec, DisputeOpenedSpec,
         DisputeWonSpec, TransferEventSpec, BeginPaymentSpec, Move;
    match op
    case DoConfirm(o, c, ready) => ConfirmTakes(db, o, c, ready, s);
    case DoRefund(o, i, q) => RefundTaken(db, o, i, q, s);
    case DoRelease(o, i, bps, ok) => ReleaseTaken(db, o, i, bps, ok, s);
    case DoLoseDispute(p, d, a) => LossTaken(db, p, d, a, s);
    case _ =>
      OthersPostNothing(db, op);
      OthersTakeNothing(db, op, s);
  }

  lemma OthersTakeNothing(db: Db, op: Op, s: nat)
    requires !op.DoConfirm? && !op.DoRefund? && !op.DoRelease? && !op.DoLoseDispute?
    ensures Taken(db, op, s) == 0
    ensures forall after: Db :: after.journal == db.journal ==> Held(after, s) == Held(db, s)
  {
  }

  // ---- the guard of each operation -------------------------------------------------

  /** A refund leaves a covered seller covered if and only if it is of another
      seller's item, of a settled one, or there is as much on the payable as its
      share of the net. */
  lemma RefundKeepsCoverIff(db: Db, o: nat, i: nat, q: RefundRequest, s: nat)
    requires Inv(db) && Held(db, s) >= 0 && RefundSpec(db, o, i, q).Ok?
    ensures o < |db.orders| && i < |db.orders[o].items| && RefundAmount(db.orders[o].items[i], q.requested).Ok?
    ensures var it := db.orders[o].items[i];
            Held(RefundSpec(db, o, i, q).value, s) >= 0
            <==> (it.seller == s && !IsSettled(it)
                  ==> Held(db, s) >= ShareOf(it, SellerNet, RefundAmount(it, q.requested).value))
  {
    hide RefundSpec, Inv, Held, ShareOf, IsSettled, RefundAmount, F.RefundedInto, F.Refundable;
    F.RefundJournal(db, o, i, q);
    RefundTaken(db, o, i, q, s);
  }

  /** A release does if and only if it is of another seller's transfer, of one out of
      the queue, or there is as much on the payable as it takes. */
  lemma ReleaseKeepsCoverIff(db: Db, o: nat, i: nat, reserveBps: nat, providerOk: bool, s: nat)
    requires Inv(db) && Held(db, s) >= 0 && ReleaseSpec(db, o, i, reserveBps, providerOk).Ok?
    ensures o < |db.orders| && i < |db.orders[o].items| && db.orders[o].items[i].transfer.Some?
    ensures var it := db.orders[o].items[i];
            Held(ReleaseSpec(db, o, i, reserveBps, providerOk).value, s) >= 0
            <==> (it.seller == s && OpenTransfer(it) ==> Held(db, s) >= ReleaseTakes(db, it, reserveBps))
  {
    hide ReleaseSpec, Inv, Held, ReleaseTakes;
    ReleaseTaken(db, o, i, reserveBps, providerOk, s);
    ReleasesATransfer(db, o, i, reserveBps, providerOk);
  }

  lemma ReleasesATransfer(db: Db, o: nat, i: nat, reserveBps: nat, providerOk: bool)
    requires ReleaseSpec(db, o, i, reserveBps, providerOk).Ok?
    ensures o < |db.orders| && i < |db.orders[o].items| && db.orders[o].items[i].transfer.Some?
  {
    hide ApplyBasisPoints, PostTo, ApplySpec, ReserveEntry, SettleEntry;
  }

  /** A lost dispute does if and only if its payment is unknown, its entry was posted
      before, or there is as much on the payable as the order's unsettled nets of
      that seller, refunded or not. */
  lemma LossKeepsCoverIff(db: Db, payment: nat, dispute: nat, amount: int, s: nat)
    requires Inv(db) && Held(db, s) >= 0 && DisputeLostSpec(db, payment, dispute, amount).Ok?
    ensures Held(DisputeLostSpec(db, payment, dispute, amount).value, s) >= 0
            <==> (DisputedOrder(db, payment).Some? && !HasKey(db.journal, ChargebackKey(dispute))
                  ==> Held(db, s) >= LossPayable(db.orders[DisputedOrder(db, payment).value].items, s))
  {
    hide DisputeLostSpec, Inv, Held, LossPayable, HasKey;
    LossTaken(db, payment, dispute, amount, s);
  }

  lemma {:induction false} NothingOwedBack(items: seq<Item>, s: nat)
    requires ItemsOk(items)
    ensures OwedTo(items, s) >= 0
  {
    if items == [] {
    } else {
      ItemsOkParts(items);
      PartStorable(items[|items| - 1], SellerNet);
      NothingOwedBack(items[..|items| - 1], s);
    }
  }

  /** No other operation lowers any seller's payable. */
  lemma OthersKeepCover(db: Db, op: Op, s: nat)
    requires Inv(db) && Apply(db, op).Ok? && !op.DoRefund? && !op.DoRelease? && !op.DoLoseDispute?
    ensures Held(Apply(db, op).value, s) >= Held(db, s)
  {
    EachStepTakes(db, op, s);
    hide Apply, Inv, Held, OwedTo, OrderOk;
    if op.DoConfirm? && op.order < |db.orders| {
      C.InvFacts(db, op.order);
      L.OrderIsConserving(db.orders[op.order]);
      NothingOwedBack(db.orders[op.order].items, s);
    }
  }

  // ---- whole runs ------------------------------------------------------------------

  /** An operation about to go through that takes more than there is. */
  predicate OverdrawsAt(db: Db, op: Op, s: nat) {
    Apply(db, op).Ok? && Held(db, s) < Taken(db, op, s)
  }

  predicate SomeOverdraw(ops: seq<Op>, s: nat) {
    exists n :: 0 <= n < |ops| && OverdrawsAt(Run(ops[..n]), ops[n], s)
  }

  /** The health check for one seller passes after every operation of a run. */
  predicate AlwaysCovered(ops: seq<Op>, s: nat) {
    forall n :: 0 <= n <= |ops| ==> Held(Run(ops[..n]), s) >= 0
  }

  lemma NextHeld(ops: seq<Op>, n: nat, s: nat)
    requires AllSensible(ops) && n < |ops|
    ensures var db := Run(ops[..n]);
            Held(Run(ops[..n + 1]), s) == Held(db, s) - if Apply(db, ops[n]).Ok? then Taken(db, ops[n], s) else 0
  {
    hide Inv, Held, Taken, Apply, AllSensible;
    assert ops[..n + 1][..n] == ops[..n];
    H.PrefixSensible(ops, n);
    EveryRunKeepsTheBooks(ops[..n]);
    if Apply(Run(ops[..n]), ops[n]).Ok? {
      EachStepTakes(Run(ops[..n]), ops[n], s);
    }
  }

  lemma {:induction false} CoveredSoFar(ops: seq<Op>, n: nat, s: nat)
    requires AllSensible(ops) && n <= |ops| && !SomeOverdraw(ops, s)
    ensures Held(Run(ops[..n]), s) >= 0
  {
    hide Held, Taken, Apply, AllSensible;
    if n == 0 {
      NothingHeld(s);
      assert ops[..0] == [];
    } else {
      CoveredSoFar(ops, n - 1, s);
      NextHeld(ops, n - 1, s);
      assert !OverdrawsAt(Run(ops[..n - 1]), ops[n - 1], s);
    }
  }

  lemma NothingHeld(s: nat)
    ensures Held(EMPTY, s) == 0
  {
  }

  /** Over every run: a seller's payable is never negative if and only if no operation
      went through that took more than was there. */
  lemma PayableIsCoveredIff(ops: seq<Op>, s: nat)
    requires AllSensible(ops)
    ensures AlwaysCovered(ops, s) <==> !SomeOverdraw(ops, s)
  {
    hide Held, Taken, Apply, AllSensible;
    if !SomeOverdraw(ops, s) {
      forall n | 0 <= n <= |ops| ensures Held(Run(ops[..n]), s) >= 0 { CoveredSoFar(ops, n, s); }
    } else {
      var n :| 0 <= n < |ops| && OverdrawsAt(Run(ops[..n]), ops[n], s);
      NextHeld(ops, n, s);
    }
  }
}
