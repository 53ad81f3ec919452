/** The pass over due settlements (internal/modules/orders/settlement.go): which rows
    of its scan are released, and under which reason each other row is held. */
module ReleasePass {
  import opened Money
  import opened Ledger
  import opened Orders

  datatype KycStatus = Unverified | Submitted | UnderReview | Verified | Rejected | KycExpired

  datatype AccountStatus = NoAccount | Created | NeedsClarification | AccountUnderReview | Activated | AccountSuspended

  datatype SellerStatus = SellerPending | SellerActive | SellerRestricted | SellerSuspended | SellerClosed

  /** A row of the settlement scan: the transfer's item, what can defer it, and the
      terms of its release. */
  datatype Candidate = Candidate(
    order: nat, item: nat, orderStatus: Status, disputes: nat, kyc: KycStatus, account: AccountStatus,
    seller: SellerStatus, reserveBps: nat, providerOk: bool)

  datatype Hold = UnderDispute | BeingRefunded | InAppDispute | KycPending | AccountInactive | SellerBlocked

  datatype ReleaseResult = ReleaseResult(
    considered: nat, released: nat, held: nat, failed: nat, reasons: map<Hold, nat>)

  function Count(reasons: map<Hold, nat>, h: Hold): nat {
    if h in reasons then reasons[h] else 0
  }

  /** The first reason, in order of severity, to defer a settlement. */
  function HoldReason(c: Candidate): Option<Hold> {
    if c.orderStatus == Disputed || c.orderStatus == ChargebackLost then Some(UnderDispute)
    else if c.orderStatus == Status.Refunded || c.orderStatus == RefundPending then Some(BeingRefunded)
    else if c.disputes > 0 then Some(InAppDispute)
    else if c.kyc != Verified then Some(KycPending)
    else if c.account != Activated then Some(AccountInactive)
    else if c.seller == SellerSuspended || c.seller == SellerClosed then Some(SellerBlocked)
    else None
  }

  /** Nothing keeps the row from being released. */
  predicate Due(c: Candidate) {
    && c.orderStatus !in {Disputed, ChargebackLost, Status.Refunded, RefundPending} && c.disputes == 0
    && c.kyc == Verified && c.account == Activated && c.seller in {SellerPending, SellerActive, SellerRestricted}
  }

  /** One reason applies and none before it. */
  predicate HeldUnder(c: Candidate, h: Hold) {
    match h
    case UnderDispute => c.orderStatus in {Disputed, ChargebackLost}
    case BeingRefunded => c.orderStatus in {Status.Refunded, RefundPending}
    case InAppDispute => NoOrderHold(c) && c.disputes > 0
    case KycPending => NoOrderHold(c) && c.disputes == 0 && c.kyc != Verified
    case AccountInactive => NoOrderHold(c) && c.disputes == 0 && c.kyc == Verified && c.account != Activated
    case SellerBlocked =>
      && NoOrderHold(c) && c.disputes == 0 && c.kyc == Verified && c.account == Activated
      && c.seller in {SellerSuspended, SellerClosed}
  }

  predicate NoOrderHold(c: Candidate) {
    c.orderStatus !in {Disputed, ChargebackLost, Status.Refunded, RefundPending}
  }

  /** The chain of tests finds exactly that reason, and none exactly for a due row. */
  lemma HoldReasonIs(c: Candidate)
    ensures HoldReason(c).None? <==> Due(c)
    ensures forall h :: HoldReason(c) == Some(h) <==> HeldUnder(c, h)
  {
  }

  function ReleaseOp(c: Candidate): Op {
    DoRelease(c.order, c.item, c.reserveBps, c.providerOk)
  }

  /** A pass is a run of releases of the due rows. */
  function BatchSpec(db: Db, batch: seq<Candidate>): Db {
    if batch == [] then db else
    var before := BatchSpec(db, batch[..|batch| - 1]);
    var c := batch[|batch| - 1];
    if Due(c) then Step(before, ReleaseOp(c)) else before
  }

  function ReleasedIn(db: Db, batch: seq<Candidate>): nat {
    if batch == [] then 0 else
    var c := batch[|batch| - 1];
    ReleasedIn(db, batch[..|batch| - 1])
    + if Due(c) && Apply(BatchSpec(db, batch[..|batch| - 1]), ReleaseOp(c)).Ok? then 1 else 0
  }

  function HeldIn(batch: seq<Candidate>): nat {
    if batch == [] then 0 else
    HeldIn(batch[..|batch| - 1]) + if Due(batch[|batch| - 1]) then 0 else 1
  }

  function HeldFor(batch: seq<Candidate>, h: Hold): nat {
    if batch == [] then 0 else
    HeldFor(batch[..|batch| - 1], h) + if HeldUnder(batch[|batch| - 1], h) then 1 else 0
  }

  lemma NothingConsidered(db: Db)
    ensures BatchSpec(db, []) == db && ReleasedIn(db, []) == 0 && HeldIn([]) == 0
    ensures forall h :: HeldFor([], h) == 0
  {
  }

  lemma OneMoreCandidate(db: Db, batch: seq<Candidate>, k: nat)
    requires k < |batch|
    ensures var c := batch[k];
            var before := BatchSpec(db, batch[..k]);
            var r := ReleaseSpec(before, c.order, c.item, c.reserveBps, c.providerOk);
            && BatchSpec(db, batch[..k + 1]) == (if HoldReason(c).None? && r.Ok? then r.value else before)
            && ReleasedIn(db, batch[..k + 1])
               == ReleasedIn(db, batch[..k]) + (if HoldReason(c).None? && r.Ok? then 1 else 0)
            && HeldIn(batch[..k + 1]) == HeldIn(batch[..k]) + (if HoldReason(c).Some? then 1 else 0)
            && (forall h ::
                  HeldFor(batch[..k + 1], h) == HeldFor(batch[..k], h) + if HoldReason(c) == Some(h) then 1 else 0)
  {
    hide ReleaseSpec, HoldReason, Due, HeldUnder;
    HoldReasonIs(batch[k]);
    assert batch[..k + 1][..k] == batch[..k];
  }

  /** What a pass does with its n-th row, by the row's own facts. It is released, or
      tried, exactly when the order is neither disputed, charged back, refunded nor
      being refunded, no dispute is open on the item, the seller is verified, the
      account activated, and the seller neither suspended nor closed. Otherwise no
      table changes, and it counts under the first of those that fails. */
  lemma RowOfThePass(db: Db, batch: seq<Candidate>, n: nat)
    requires n < |batch|
    ensures var c := batch[n];
            var before, after := BatchSpec(db, batch[..n]), BatchSpec(db, batch[..n + 1]);
            var released := ReleaseSpec(before, c.order, c.item, c.reserveBps, c.providerOk);
            if c.orderStatus != Disputed && c.orderStatus != ChargebackLost && c.orderStatus != Status.Refunded
               && c.orderStatus != RefundPending && c.disputes == 0 && c.kyc == Verified && c.account == Activated
               && c.seller != SellerSuspended && c.seller != SellerClosed
            then
              && after == (if released.Ok? then released.value else before)
              && ReleasedIn(db, batch[..n + 1]) == ReleasedIn(db, batch[..n]) + (if released.Ok? then 1 else 0)
              && HeldIn(batch[..n + 1]) == HeldIn(batch[..n])
              && forall h :: HeldFor(batch[..n + 1], h) == HeldFor(batch[..n], h)
            else
              var first :=
                if c.orderStatus == Disputed || c.orderStatus == ChargebackLost then UnderDispute
                else if c.orderStatus == Status.Refunded || c.orderStatus == RefundPending then BeingRefunded
                else if c.disputes != 0 then InAppDispute
                else if c.kyc != Verified then KycPending
                else if c.account != Activated then AccountInactive
                else SellerBlocked;
              && after == before && ReleasedIn(db, batch[..n + 1]) == ReleasedIn(db, batch[..n])
              && HeldIn(batch[..n + 1]) == HeldIn(batch[..n]) + 1
              && forall h :: HeldFor(batch[..n + 1], h) == HeldFor(batch[..n], h) + if h == first then 1 else 0
  {
    hide ReleaseSpec, BatchSpec, ReleasedIn, HeldIn, HeldFor;
    OneMoreCandidate(db, batch, n);
  }

  function Rows(batch: seq<Candidate>, p: Candidate -> bool): set<nat> {
    set n: nat | n < |batch| && p(batch[n])
  }

  lemma OneMoreRow(batch: seq<Candidate>, p: Candidate -> bool)
    requires batch != []
    ensures |Rows(batch, p)| == |Rows(batch[..|batch| - 1], p)| + if p(batch[|batch| - 1]) then 1 else 0
  {
    var init, last := batch[..|batch| - 1], |batch| - 1;
    var before, all := Rows(init, p), Rows(batch, p);
    assert last !in before;
    assert all == if p(batch[last]) then before + {last} else before;
  }

  /** The counters of a pass count rows. */
  lemma {:induction false} HeldRows(batch: seq<Candidate>, h: Hold)
    ensures HeldFor(batch, h) == |Rows(batch, c => HeldUnder(c, h))|
    ensures HeldIn(batch) == |Rows(batch, c => !Due(c))|
  {
    hide HeldUnder, Due;
    if batch == [] {
      hide Rows;
      NoRows(c => HeldUnder(c, h));
      NoRows(c => !Due(c));
    } else {
      hide Rows;
      HeldRows(batch[..|batch| - 1], h);
      OneMoreRow(batch, c => HeldUnder(c, h));
      OneMoreRow(batch, c => !Due(c));
    }
  }

  lemma SameRows(batch: seq<Candidate>, p: Candidate -> bool, q: Candidate -> bool)
    requires forall c :: p(c) <==> q(c)
    ensures Rows(batch, p) == Rows(batch, q)
  {
  }

  /** Each of the six counters of a pass, by the facts of the rows it counts. */
  lemma CountersAre(batch: seq<Candidate>)
    ensures HeldFor(batch, UnderDispute)
            == |Rows(batch, (c: Candidate) => c.orderStatus == Disputed || c.orderStatus == ChargebackLost)|
    ensures HeldFor(batch, BeingRefunded)
            == |Rows(batch, (c: Candidate) => c.orderStatus == Status.Refunded || c.orderStatus == RefundPending)|
    ensures HeldFor(batch, InAppDispute) == |Rows(batch, c => NoOrderHold(c) && c.disputes != 0)|
    ensures HeldFor(batch, KycPending) == |Rows(batch, c => NoOrderHold(c) && c.disputes == 0 && c.kyc != Verified)|
    ensures HeldFor(batch, AccountInactive)
            == |Rows(batch, c => NoOrderHold(c) && c.disputes == 0 && c.kyc == Verified && c.account != Activated)|
    ensures HeldFor(batch, SellerBlocked)
            == |Rows(batch, c => && NoOrderHold(c) && c.disputes == 0 && c.kyc == Verified && c.account == Activated
                                 && (c.seller == SellerSuspended || c.seller == SellerClosed))|
  {
    forall h ensures HeldFor(batch, h) == |Rows(batch, c => HeldUnder(c, h))| { HeldRows(batch, h); }
    hide Rows, HeldFor;
    SameRows(batch, c => HeldUnder(c, UnderDispute),
             (c: Candidate) => c.orderStatus == Disputed || c.orderStatus == ChargebackLost);
    SameRows(batch, c => HeldUnder(c, BeingRefunded),
             (c: Candidate) => c.orderStatus == Status.Refunded || c.orderStatus == RefundPending);
    SameRows(batch, c => HeldUnder(c, InAppDispute), c => NoOrderHold(c) && c.disputes != 0);
    SameRows(batch, c => HeldUnder(c, KycPending), c => NoOrderHold(c) && c.disputes == 0 && c.kyc != Verified);
    SameRows(batch, c => HeldUnder(c, AccountInactive),
             c => NoOrderHold(c) && c.disputes == 0 && c.kyc == Verified && c.account != Activated);
    SameRows(batch, c => HeldUnder(c, SellerBlocked),
             c => && NoOrderHold(c) && c.disputes == 0 && c.kyc == Verified && c.account == Activated
                  && (c.seller == SellerSuspended || c.seller == SellerClosed));
  }

  lemma NoRows(p: Candidate -> bool)
    ensures Rows([], p) == {}
  {
  }

  /** A pass never touches an item that only held rows name. */
  lemma {:induction false} DeferredItemsAreUntouched(db: Db, batch: seq<Candidate>, o: nat, i: nat)
    requires o < |db.orders| && i < |db.orders[o].items|
    requires forall n :: 0 <= n < |batch| && batch[n].order == o && batch[n].item == i ==> !Due(batch[n])
    ensures var after := BatchSpec(db, batch);
            |after.orders| == |db.orders| && |after.orders[o].items| == |db.orders[o].items|
            && after.orders[o].items[i] == db.orders[o].items[i] && after.orders[o].status == db.orders[o].status
  {
    hide ReleaseSpec, Due;
    if batch == [] {
    } else {
      var init, c := batch[..|batch| - 1], batch[|batch| - 1];
      DeferredItemsAreUntouched(db, init, o, i);
      if Due(c) {
        ReleaseTouchesOneItem(BatchSpec(db, init), c.order, c.item, c.reserveBps, c.providerOk, o, i);
      }
    }
  }

  lemma ReleaseTouchesOneItem(db: Db, o: nat, i: nat, reserveBps: nat, providerOk: bool, x: nat, y: nat)
    requires x < |db.orders| && y < |db.orders[x].items| && (x, y) != (o, i)
    ensures var r := ReleaseSpec(db, o, i, reserveBps, providerOk);
            r.Ok? ==> && |r.value.orders| == |db.orders| && |r.value.orders[x].items| == |db.orders[x].items|
                      && r.value.orders[x].items[y] == db.orders[x].items[y]
                      && r.value.orders[x].status == db.orders[x].status
  {
    hide ApplySpec, PostSpec, ApplyBasisPoints;
  }
}
