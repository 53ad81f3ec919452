/** The order service as it runs: tables updated row by row inside a transaction
    that is rolled back on error. Every method is tied to the function that
    states its committed effect. */
module Service {
  import opened Money
  import opened Ledger
  import opened Orders
  import opened Books
  import opened ReleasePass
  import T = Tax
  import R = Refunds
  import P = Postings
  import S = ReleaseSteps
  import Steps
  import F = RefundSteps
  import C = Captures
  import L = LossSteps
  import Runs

  /** The rest of a netting, after some rows have already been spent. */
  function Resume(rest: Result<Netting, OrderError>, applied: int, replayed: int): Result<Netting, OrderError> {
    match rest
    case Ok(n) => Ok(n.(applied := applied + n.applied, replayed := replayed + n.replayed))
    case Err(e) => Err(e)
  }

  lemma {:induction false} PricingFailsLater(p: T.Policy, b: T.Buyer, lines: seq<CatalogueLine>, k: nat)
    requires k <= |lines| && PriceAll(p, b, lines[..k]).Err?
    ensures PriceAll(p, b, lines) == PriceAll(p, b, lines[..k])
    decreases |lines|
  {
    if k == |lines| {
      assert lines[..k] == lines;
    } else {
      assert lines[..|lines| - 1][..k] == lines[..k];
      PricingFailsLater(p, b, lines[..|lines| - 1], k);
    }
  }

  /** One more line of the checkout loop. */
  lemma PriceOneMore(p: T.Policy, b: T.Buyer, lines: seq<CatalogueLine>, i: nat, items: seq<Item>)
    requires i < |lines| && PriceAll(p, b, lines[..i]) == Ok(items)
    ensures var bd := T.ComputeSpec(p, lines[i].attributes, b, lines[i].sale);
            && (bd.Err? ==> PriceAll(p, b, lines) == Err(InTax(bd.error)))
            && (bd.Ok? ==>
                  var it := NewItem(lines[i].seller, bd.value);
                  if Fits(SumOf(items, ListPrice) + bd.value.listPrice)
                     && Fits(SumOf(items, TaxTotal) + bd.value.taxTotal)
                     && Fits(SumOf(items, BuyerTotal) + bd.value.buyerTotal)
                  then PriceAll(p, b, lines[..i + 1]) == Ok(items + [it])
                       && SumOf(items + [it], ListPrice) == SumOf(items, ListPrice) + bd.value.listPrice
                       && SumOf(items + [it], TaxTotal) == SumOf(items, TaxTotal) + bd.value.taxTotal
                       && SumOf(items + [it], BuyerTotal) == SumOf(items, BuyerTotal) + bd.value.buyerTotal
                  else PriceAll(p, b, lines) == Err(InMoney(Overflow)))
  {
    hide T.ComputeSpec, SumOf, Fits;
    var bd := T.ComputeSpec(p, lines[i].attributes, b, lines[i].sale);
    assert lines[..i + 1][..i] == lines[..i];
    if bd.Ok? {
      var it := NewItem(lines[i].seller, bd.value);
      SumAppend(items, it, ListPrice);
      SumAppend(items, it, TaxTotal);
      SumAppend(items, it, BuyerTotal);
    }
    if PriceAll(p, b, lines[..i + 1]).Err? {
      PricingFailsLater(p, b, lines, i + 1);
    }
  }

  lemma NothingPriced(p: T.Policy, b: T.Buyer)
    ensures PriceAll(p, b, []) == Ok([])
    ensures forall part :: SumOf([], part) == 0
  {
  }

  lemma SumAppend(items: seq<Item>, it: Item, p: Part)
    ensures SumOf(items + [it], p) == SumOf(items, p) + PartOf(it, p)
  {
    assert (items + [it])[..|items|] == items;
  }

  class Service {
    const journal: Journal
    var orders: seq<Order>
    var payments: map<nat, nat>
    var offsets: seq<Offset>
    var refunds: seq<RefundRow>
    var releases: seq<ReleaseRow>
    var losses: seq<LossRow>

    constructor ()
      ensures Tables() == EMPTY
      ensures Valid()
    {
      journal := new Journal();
      orders, payments, offsets, refunds, releases, losses := [], map[], [], [], [], [];
      new;
      Runs.EmptyInv();
    }

    function Tables(): Db
      reads this, journal
    {
      Db(journal.entries, orders, payments, offsets, refunds, releases, losses)
    }

    ghost predicate Valid()
      reads this, journal
    {
      Inv(Tables())
    }

    /** What the database does when the transaction's closure returns an error. */
    method Rollback(saved: Db)
      modifies this, journal
      ensures Tables() == saved
    {
      journal.entries := saved.journal;
      orders, payments, offsets := saved.orders, saved.payments, saved.offsets;
      refunds, releases, losses := saved.refunds, saved.releases, saved.losses;
    }

    method Post(e: Entry) returns (r: Result<Posted, OrderError>)
      modifies journal
      ensures r.Ok? == PostTo(old(Tables()), e).Ok?
      ensures r.Err? ==> PostTo(old(Tables()), e) == Err(r.error)
      ensures r.Ok? ==> Tables() == PostTo(old(Tables()), e).value
      ensures r.Ok? ==> r.value.replayed == HasKey(old(journal.entries), e.key)
    {
      hide ValidateSpec, Accepted, HasKey;
      var posted := journal.Post(e);
      match posted
      case Ok(p) => r := Ok(p);
      case Err(l) => r := Err(InLedger(l));
    }

    // ---- checkout ----------------------------------------------------------------

    /** The draft order is inserted first, its items as they are priced, and its
        totals last. */
    method Checkout(p: T.Policy, b: T.Buyer, lines: seq<CatalogueLine>) returns (r: Result<nat, OrderError>)
      requires Valid() && Sensible(DoCheckout(p, b, lines))
      modifies this, journal
      ensures Valid()
      ensures r.Ok? == CheckoutSpec(old(Tables()), p, b, lines).Ok?
      ensures r.Err? ==> CheckoutSpec(old(Tables()), p, b, lines) == Err(r.error)
      ensures Tables() == if r.Ok? then CheckoutSpec(old(Tables()), p, b, lines).value else old(Tables())
      ensures r.Ok? ==> r.value == |old(orders)|
    {
      hide Inv, Sensible, T.ComputeSpec, PriceAll, SumOf, Fits;
      NothingPriced(p, b);
      if lines == [] { return Err(Empty); }
      if |lines| > 50 { return Err(TooMany); }
      var saved := Tables();
      var o := |orders|;
      orders := orders + [Order(Draft, 0, 0, [])];
      var itemsTotal, taxTotal, grandTotal := 0, 0, 0;
      var i := 0;
      ghost var items: seq<Item> := [];
      while i < |lines|
        invariant 0 <= i <= |lines|
        invariant PriceAll(p, b, lines[..i]) == Ok(items)
        invariant itemsTotal == SumOf(items, ListPrice) && taxTotal == SumOf(items, TaxTotal)
                  && grandTotal == SumOf(items, BuyerTotal)
        invariant Tables() == saved.(orders := saved.orders + [Order(Draft, 0, 0, items)])
      {
        var l := lines[i];
        var bd := T.Compute(p, l.attributes, b, l.sale);
        PriceOneMore(p, b, lines, i, items);
        if bd.Err? {
          Rollback(saved);
          return Err(InTax(bd.error));
        }
        var it := NewItem(l.seller, bd.value);
        orders := orders[o := orders[o].(items := orders[o].items + [it])];
        if !Fits(itemsTotal + bd.value.listPrice) || !Fits(taxTotal + bd.value.taxTotal)
           || !Fits(grandTotal + bd.value.buyerTotal) {
          Rollback(saved);
          return Err(InMoney(Overflow));
        }
        itemsTotal := itemsTotal + bd.value.listPrice;
        taxTotal := taxTotal + bd.value.taxTotal;
        grandTotal := grandTotal + bd.value.buyerTotal;
        items := items + [it];
        i := i + 1;
      }
      assert lines[..|lines|] == lines;
      if grandTotal > STORE_MAX {
        Rollback(saved);
        return Err(InLedger(OutOfRange));
      }
      orders := orders[o := orders[o].(grandTotal := grandTotal)];
      assert orders == saved.orders + [Order(Draft, grandTotal, 0, items)];
      assert CheckoutSpec(saved, p, b, lines) == Ok(Tables());
      Steps.CheckoutKeepsInv(saved, p, b, lines);
      return Ok(o);
    }

    // ---- settlement --------------------------------------------------------------

    /** Nets outstanding recoveries against `available`, oldest first. */
    method ApplyOffsets(seller: nat, available: int) returns (r: Result<(int, int), OrderError>)
      modifies this`offsets, journal
      ensures var spec := ApplySpec(old(journal.entries), old(offsets), seller, available, 0);
              && r.Ok? == spec.Ok? && (r.Err? ==> spec == Err(r.error))
              && (r.Ok? ==> journal.entries == spec.value.journal && offsets == spec.value.offsets
                            && r.value == (spec.value.applied, spec.value.replayed))
    {
      hide PostSpec, HasKey, OffsetEntry;
      if available <= 0 {
        S.ApplyNothing(journal.entries, offsets, seller, available, 0);
        return Ok((0, 0));
      }
      ghost var spec := ApplySpec(journal.entries, offsets, seller, available, 0);
      var applied, replayed, remaining := 0, 0, available;
      var k := 0;
      while k < |offsets|
        invariant 0 <= k <= |offsets| == |old(offsets)|
        invariant spec == Resume(ApplySpec(journal.entries, offsets, seller, remaining, k), applied, replayed)
      {
        var f := offsets[k];
        if IsOpen(f, seller) {
          var take := Min(f.amount - f.applied, remaining);
          if take <= 0 { return Ok((applied, replayed)); }
          var posted := PostRecovery(k, take, seller);
          if posted.Err? { return Err(posted.error); }
          applied, remaining := applied + take, remaining - take;
          if posted.value.replayed { replayed := replayed + take; }
        }
        k := k + 1;
      }
      return Ok((applied, replayed));
    }

    /** One row of the loop: the row is updated, then the recovery posted. */
    method PostRecovery(k: nat, take: int, seller: nat) returns (r: Result<Posted, OrderError>)
      requires k < |offsets|
      modifies this`offsets, journal
      ensures r.Ok? == PostSpec(old(journal.entries), OffsetEntry(k, take, seller)).Ok?
      ensures r.Err? ==>
                r.error.InLedger? && PostSpec(old(journal.entries), OffsetEntry(k, take, seller)) == Err(r.error.l)
      ensures r.Ok? ==>
                && journal.entries == PostSpec(old(journal.entries), OffsetEntry(k, take, seller)).value
                && offsets == old(offsets)[k := ApplyTo(old(offsets)[k], take)]
                && r.value.replayed == HasKey(old(journal.entries), OffsetKey(k, take))
    {
      hide PostSpec, HasKey;
      offsets := offsets[k := ApplyTo(offsets[k], take)];
      var posted := journal.Post(OffsetEntry(k, take, seller));
      match posted
      case Ok(p) => r := Ok(p);
      case Err(l) => r := Err(InLedger(l));
    }

    /** releaseOne: reserve, recoveries, the transfer row, then the net. */
    method ReleaseOne(o: nat, i: nat, reserveBps: nat, providerOk: bool) returns (r: Result<(), OrderError>)
      requires Valid()
      modifies this, journal
      ensures Valid()
      ensures r.Ok? == ReleaseSpec(old(Tables()), o, i, reserveBps, providerOk).Ok?
      ensures r.Err? ==> ReleaseSpec(old(Tables()), o, i, reserveBps, providerOk) == Err(r.error)
      ensures Tables() == if r.Ok? then ReleaseSpec(old(Tables()), o, i, reserveBps, providerOk).value
                          else old(Tables())
    {
      hide Inv, PostTo, ApplySpec, ReserveEntry, SettleEntry, ApplyBasisPoints, ReleaseSpec;
      if o >= |orders| || i >= |orders[o].items| || orders[o].items[i].transfer.None? {
        NoTransfer(Tables(), o, i, reserveBps, providerOk);
        return Err(NotFound);
      }
      var it := orders[o].items[i];
      if it.transfer.value.status !in {Pending, OnHold} {
        AlreadyHandled(Tables(), o, i, reserveBps, providerOk);
        return Ok(());
      }
      var saved := Tables();
      ReleaseStages(saved, o, i, reserveBps, providerOk);
      var gross := it.transfer.value.amount;
      var reserve := ApplyBasisPoints(gross, reserveBps, Down);
      if reserve.Err? { return Err(InMoney(reserve.error)); }
      if reserve.value > 0 {
        var held := Post(ReserveEntry(o, i, it.seller, reserve.value));
        if held.Err? {
          Rollback(saved);
          return Err(held.error);
        }
      }
      var netted := ApplyOffsets(it.seller, gross - reserve.value);
      if netted.Err? {
        Rollback(saved);
        return Err(netted.error);
      }
      var (applied, replayed) := netted.value;
      var net := gross - reserve.value - applied;
      if !providerOk && it.transfer.value.hasRef {
        Rollback(saved);
        return Err(ProviderFailed);
      }
      orders := orders[o := S.ReleasedOrder(orders[o], i)];
      releases := releases + [ReleaseRow(o, i, it.seller, gross, reserve.value, applied, net, replayed)];
      if net > 0 {
        var paid := Post(SettleEntry(o, i, it.seller, net));
        if paid.Err? {
          Rollback(saved);
          return Err(paid.error);
        }
      }
      S.ReleaseKeepsInv(saved, o, i, reserveBps, providerOk);
      return Ok(());
    }

    // ---- capture -----------------------------------------------------------------

    /** postCaptureLedger: what the buyer paid, then what the provider charges. */
    method PostCapture(o: nat, c: Capture) returns (r: Result<(), OrderError>)
      requires o < |orders| && OrderOk(orders[o])
      modifies this, journal
      ensures var posted := PostTo(old(Tables()), CaptureEntry(o, c.payment, old(orders)[o]));
              if posted.Err? then r == Err(posted.error) else
              var charged := ChargeFee(posted.value, o, c, old(orders)[o].grandTotal);
              if charged.Err? then r == Err(charged.error) else r.Ok? && Tables() == charged.value
    {
      hide PostTo, ApplyBasisPoints, OrderOk, CaptureEntry, FeeEntry;
      var lines := CaptureLines(o, c.payment, orders[o]);
      var posted := Post(Entry(CaptureKey(o, c.payment), INR, lines));
      if posted.Err? { return Err(posted.error); }
      var fee := OrEstimate(c.reportedFee, orders[o].grandTotal, c.feeBps);
      if fee.Err? { return Err(fee.error); }
      var feeTax := OrEstimate(c.reportedTax, fee.value, c.feeGstBps);
      if feeTax.Err? { return Err(feeTax.error); }
      if fee.value <= 0 && feeTax.value <= 0 { return Ok(()); }
      var charged := Post(FeeEntry(o, c.payment, fee.value, feeTax.value));
      if charged.Err? { return Err(charged.error); }
      return Ok(());
    }

    /** issueLicenses and recordTransfers: each inserts at most one row an item. */
    method IssueAndRecord(o: nat, ready: set<nat>)
      requires o < |orders|
      modifies this`orders
      ensures orders == old(orders)[o := old(orders)[o].(items := CaptureItems(old(orders)[o].items, ready))]
    {
      ghost var before := orders;
      var items := orders[o].items;
      ghost var start := items;
      var k := 0;
      while k < |items|
        invariant 0 <= k <= |items| == |start|
        invariant forall x :: 0 <= x < k ==> items[x] == Licensed(start[x])
        invariant forall x :: k <= x < |items| ==> items[x] == start[x]
      {
        if items[k].licence == None { items := items[k := items[k].(licence := Some(Active))]; }
        k := k + 1;
      }
      k := 0;
      while k < |items|
        invariant 0 <= k <= |items| == |start|
        invariant forall x :: 0 <= x < k ==> items[x] == WithTransfer(Licensed(start[x]), ready)
        invariant forall x :: k <= x < |items| ==> items[x] == Licensed(start[x])
      {
        var it := items[k];
        if it.bd.sellerNet > 0 && it.transfer == None {
          var status := if it.seller in ready then OnHold else Pending;
          items := items[k := it.(transfer := Some(Transfer(it.bd.sellerNet, status, false)))];
        }
        k := k + 1;
      }
      k := 0;
      while k < |items|
        invariant 0 <= k <= |items| == |start|
        invariant forall x :: 0 <= x < k ==> items[x] == CaptureItem(start[x], ready)
        invariant forall x :: k <= x < |items| ==> items[x] == WithTransfer(Licensed(start[x]), ready)
      {
        items := items[k := items[k].(status := ItemFulfilled)];
        k := k + 1;
      }
      assert items == CaptureItems(start, ready);
      orders := orders[o := orders[o].(items := items)];
    }

    method RecordCapture(o: nat, c: Capture, ready: set<nat>) returns (r: Result<(), OrderError>)
      requires Valid() && o < |orders|
      modifies this, journal
      ensures r.Ok? == RecordCaptureSpec(old(Tables()), o, c, ready).Ok?
      ensures r.Err? ==> RecordCaptureSpec(old(Tables()), o, c, ready) == Err(r.error)
      ensures r.Ok? ==> Tables() == RecordCaptureSpec(old(Tables()), o, c, ready).value
    {
      hide Inv, OrderOk, PostTo, ChargeFee, CaptureEntry, Allowed, CaptureItem;
      C.InvFacts(Tables(), o);
      ghost var saved := Tables();
      if !StorablePayment(c) { return Err(Unstorable); }
      var posted := PostCapture(o, c);
      if posted.Err? { return Err(posted.error); }
      LedgerOnly(saved, o, c);
      if c.payment !in payments { payments := payments[c.payment := o]; }
      var paid := Transition(orders[o], orders[o].status, Paid);
      if paid.Err? { return Err(paid.error); }
      orders := orders[o := paid.value];
      IssueAndRecord(o, ready);
      var done := Transition(orders[o], Paid, Fulfilled);
      if done.Err? { return Err(done.error); }
      orders := orders[o := done.value];
      assert orders == saved.orders[o := done.value];
      return Ok(());
    }

    /** The browser callback and the webhook both end here. */
    method ConfirmPayment(o: nat, c: Capture, ready: set<nat>) returns (r: Result<(), OrderError>)
      requires Valid()
      modifies this, journal
      ensures Valid()
      ensures r.Ok? == ConfirmSpec(old(Tables()), o, c, ready).Ok?
      ensures r.Err? ==> ConfirmSpec(old(Tables()), o, c, ready) == Err(r.error)
      ensures Tables() == if r.Ok? then ConfirmSpec(old(Tables()), o, c, ready).value else old(Tables())
    {
      hide Inv, RecordCaptureSpec;
      if o >= |orders| { return Err(NotFound); }
      if orders[o].status in {Paid, Fulfilled, Completed} { return Ok(()); }
      if orders[o].status != AwaitingPayment { return Err(BadState); }
      if c.amount != orders[o].grandTotal { return Err(AmountMismatch); }
      var saved := Tables();
      r := RecordCapture(o, c, ready);
      if r.Err? {
        Rollback(saved);
        return;
      }
      C.ConfirmKeepsInv(saved, o, c, ready);
    }

    // ---- refund --------------------------------------------------------------------

    /** Refund: the posting, then the recovery or the stopped transfer, then the
        statuses. */
    method Refund(o: nat, i: nat, q: RefundRequest) returns (r: Result<(), OrderError>)
      requires Valid()
      modifies this, journal
      ensures Valid()
      ensures r.Ok? == RefundSpec(old(Tables()), o, i, q).Ok?
      ensures r.Err? ==> RefundSpec(old(Tables()), o, i, q) == Err(r.error)
      ensures Tables() == if r.Ok? then RefundSpec(old(Tables()), o, i, q).value else old(Tables())
    {
      hide Inv, OrderOk, PostTo, RefundEntry, ShareOf, Scales, RefundItem, HasPayment, P.ItemOk, RefundSpec,
           RefundAmount, IsSettled, RefundStatus, RefTaken;
      RefundGuards(Tables(), o, i, q);
      if o >= |orders| { return Err(NotFound); }
      if orders[o].status !in {Paid, Fulfilled, Completed, PartiallyRefunded, Disputed} { return Err(BadState); }
      if i >= |orders[o].items| { return Err(NotFound); }
      if !q.eligible { return Err(NotEligible); }
      var it := orders[o].items[i];
      var asked := RefundAmount(it, q.requested);
      if asked.Err? { return Err(asked.error); }
      var amount := asked.value;
      if it.refunded + amount > it.bd.buyerTotal { return Err(TooMuch); }
      if !HasPayment(Tables(), o) { return Err(NoPayment); }
      if q.answer.Declined? { return Err(ProviderFailed); }
      if RefTaken(refunds, RefOf(q.answer)) { return Err(DuplicateRef); }
      var saved := Tables();
      var settled := IsSettled(it);
      C.InvFacts(saved, o);
      F.ItemIsOk(orders[o], i);
      AskedWithin(it, q.requested);
      var lines, share := RefundLines(|refunds|, it, amount, settled);
      var posted := Post(Entry(RefundKey(|refunds|), INR, lines));
      if posted.Err? {
        Rollback(saved);
        return Err(posted.error);
      }
      OnlyTheJournal(saved, RefundEntry(|refunds|, it, amount, settled));
      refunds := refunds + [RefundRow(o, i, it.seller, amount, share, settled, RefOf(q.answer))];
      if settled && share > 0 {
        offsets := offsets + [Offset(it.seller, share, 0, Outstanding)];
      }
      orders := orders[o := orders[o].(items := orders[o].items[i := RefundItem(it, amount, q.reversal)])];
      var moved := RefundStatus(orders[o], amount);
      if moved.Err? {
        Rollback(saved);
        return Err(moved.error);
      }
      orders := orders[o := moved.value];
      assert orders == saved.orders[o := moved.value];
      F.RefundKeepsInv(saved, o, i, q);
      return Ok(());
    }

    // ---- chargebacks -----------------------------------------------------------------

    /** A lost dispute: each item's share is recovered or taken back, the loss is
        booked, and the order moves if it is still disputed. */
    method LoseDispute(payment: nat, dispute: nat, amount: int) returns (r: Result<(), OrderError>)
      requires Valid()
      modifies this, journal
      ensures Valid()
      ensures r.Ok? == DisputeLostSpec(old(Tables()), payment, dispute, amount).Ok?
      ensures r.Err? ==> DisputeLostSpec(old(Tables()), payment, dispute, amount) == Err(r.error)
      ensures Tables() == if r.Ok? then DisputeLostSpec(old(Tables()), payment, dispute, amount).value
                          else old(Tables())
    {
      hide Inv, PostTo, LossEntry, LossOffsets, LossRows, LossItems, HasKey;
      var found := DisputedOrder(Tables(), payment);
      if found.None? { return Ok(()); }
      var o := found.value;
      var saved := Tables();
      var lines := ReturnShares(o, dispute, amount);
      SamePosting(saved, Tables(), Entry(ChargebackKey(dispute), INR, lines));
      var posted := Post(Entry(ChargebackKey(dispute), INR, lines));
      if posted.Err? {
        Rollback(saved);
        return Err(posted.error);
      }
      losses := losses + LossRows(o, saved.orders[o].items, !posted.value.replayed);
      if orders[o].status == Disputed {
        orders := orders[o := orders[o].(status := ChargebackLost)];
      }
      assert orders == saved.orders[o := L.LostOrder(saved.orders[o])];
      L.DisputeLostKeepsInv(saved, payment, dispute, amount);
      return Ok(());
    }

    /** The loop of postChargebackLoss over the items of the order. */
    method ReturnShares(o: nat, dispute: nat, amount: int) returns (lines: seq<Line>)
      requires o < |orders|
      modifies this`orders, this`offsets
      ensures Entry(ChargebackKey(dispute), INR, lines) == LossEntry(dispute, old(orders)[o].items, amount)
      ensures orders == old(orders)[o := old(orders)[o].(items := LossItems(old(orders)[o].items))]
      ensures offsets == old(offsets) + LossOffsets(old(orders)[o].items)
    {
      hide LossLines, LossOffsets, Recovered, LossItem, IsSettled;
      var items := orders[o].items;
      ghost var start := items;
      NoLosses();
      lines := [];
      var recovered := 0;
      var k := 0;
      while k < |items|
        invariant 0 <= k <= |items| == |start|
        invariant orders == old(orders)
        invariant lines == LossLines(start[..k]) && recovered == Recovered(start[..k])
        invariant offsets == old(offsets) + LossOffsets(start[..k])
        invariant forall x :: 0 <= x < k ==> items[x] == LossItem(start[x])
        invariant forall x :: k <= x < |items| ==> items[x] == start[x]
      {
        var it := items[k];
        OneMoreItem(start, k);
        if it.bd.sellerNet > 0 {
          if IsSettled(it) { offsets := offsets + [Offset(it.seller, it.bd.sellerNet, 0, Outstanding)]; }
          lines := lines + [Dr(SellerRecovery(it, IsSettled(it)), it.bd.sellerNet)];
          recovered := recovered + it.bd.sellerNet;
        }
        items := items[k := LossItem(it)];
        k := k + 1;
      }
      assert start[..|start|] == start;
      assert items == LossItems(start);
      lines := lines + AbsorbedLine(amount - recovered) + [Cr(Clearing, amount)];
      orders := orders[o := orders[o].(items := items)];
    }

    // ---- the release pass ------------------------------------------------------------

    /** ReleaseDueSettlements over the rows its scan returned: each is deferred for
        the first reason that applies, or released in a transaction of its own. */
    method ReleaseDueSettlements(batch: seq<Candidate>) returns (res: ReleaseResult)
      requires Valid()
      modifies this, journal
      ensures Valid()
      ensures Tables() == BatchSpec(old(Tables()), batch)
      ensures res.considered == |batch| == res.released + res.held + res.failed
      ensures res.released == ReleasedIn(old(Tables()), batch)
      ensures res.held == HeldIn(batch)
      ensures forall h :: Count(res.reasons, h) == HeldFor(batch, h)
    {
      hide Inv, ReleaseSpec, BatchSpec, ReleasedIn, HeldIn, HeldFor, HoldReason, Due, HeldUnder;
      ghost var start := Tables();
      NothingConsidered(start);
      res := ReleaseResult(0, 0, 0, 0, map[]);
      var k := 0;
      while k < |batch|
        invariant 0 <= k <= |batch| && Valid()
        invariant Tables() == BatchSpec(start, batch[..k])
        invariant res.considered == k == res.released + res.held + res.failed
        invariant res.released == ReleasedIn(start, batch[..k]) && res.held == HeldIn(batch[..k])
        invariant forall h :: Count(res.reasons, h) == HeldFor(batch[..k], h)
      {
        var c := batch[k];
        OneMoreCandidate(start, batch, k);
        res := res.(considered := res.considered + 1);
        var hold := HoldReason(c);
        if hold.Some? {
          ghost var before := res.reasons;
          res := res.(held := res.held + 1, reasons := res.reasons[hold.value := Count(res.reasons, hold.value) + 1]);
          assert forall h :: Count(res.reasons, h) == Count(before, h) + if h == hold.value then 1 else 0;
        } else {
          var done := ReleaseOne(c.order, c.item, c.reserveBps, c.providerOk);
          if done.Err? {
            res := res.(failed := res.failed + 1);
          } else {
            res := res.(released := res.released + 1);
          }
        }
        k := k + 1;
      }
      assert batch[..|batch|] == batch;
    }
  }

  function Licensed(it: Item): Item {
    if it.licence == None then it.(licence := Some(Active)) else it
  }

  function WithTransfer(it: Item, ready: set<nat>): Item {
    if it.bd.sellerNet > 0 && it.transfer == None
    then it.(transfer := Some(Transfer(it.bd.sellerNet, if it.seller in ready then OnHold else Pending, false))) else it
  }

  lemma LedgerOnly(db: Db, o: nat, c: Capture)
    requires o < |db.orders| && PostTo(db, CaptureEntry(o, c.payment, db.orders[o])).Ok?
    requires ChargeFee(PostTo(db, CaptureEntry(o, c.payment, db.orders[o])).value, o, c, db.orders[o].grandTotal).Ok?
    ensures var charged := ChargeFee(PostTo(db, CaptureEntry(o, c.payment, db.orders[o])).value, o, c,
                                     db.orders[o].grandTotal).value;
            charged == db.(journal := charged.journal)
  {
    hide PostSpec, CaptureEntry, FeeEntry, ApplyBasisPoints;
  }

  /** The lines of the capture entry, one item at a time. The totals are checked
      sums, and for a conserving order none of the checks can fail. */
  method CaptureLines(o: nat, payment: nat, ord: Order) returns (lines: seq<Line>)
    requires OrderOk(ord)
    ensures Entry(CaptureKey(o, payment), INR, lines) == CaptureEntry(o, payment, ord)
  {
    hide SumOf, SellerLines, OrderOk, P.ItemOk, WhenPositive, TotalLines;
    var items := ord.items;
    L.OrderIsConserving(ord);
    NothingYet();
    lines := [Dr(Clearing, ord.grandTotal)];
    var commission, commissionGst, tcs, tds := 0, 0, 0, 0;
    var k := 0;
    while k < |items|
      invariant 0 <= k <= |items|
      invariant lines == [Dr(Clearing, ord.grandTotal)] + SellerLines(items[..k])
      invariant commission == SumOf(items[..k], Commission) && commissionGst == SumOf(items[..k], CommissionGst)
      invariant tcs == SumOf(items[..k], Tcs) && tds == SumOf(items[..k], Tds)
    {
      var it := items[k];
      OneMoreLine(items, k);
      lines := AppendIfPositive(lines, Cr(Payable(it.seller), it.bd.sellerNet));
      var c, g := Add(commission, it.bd.commission), Add(commissionGst, it.bd.commissionGst);
      var t, d := Add(tcs, it.bd.tcs), Add(tds, it.bd.tds);
      commission, commissionGst, tcs, tds := c.value, g.value, t.value, d.value;
      k := k + 1;
    }
    assert items[..|items|] == items;
    var totals := [(CommissionIncome, commission), (GstOutput, commissionGst), (TcsPayable, tcs), (TdsPayable, tds)];
    var last := CreditTotals(totals);
    FourTotals(totals);
    lines := lines + last;
  }

  method AppendIfPositive(lines: seq<Line>, l: Line) returns (r: seq<Line>)
    ensures r == lines + WhenPositive(l)
  {
    r := lines;
    if l.amount > 0 { r := r + [l]; }
  }

  method CreditTotals(totals: seq<(Account, int)>) returns (lines: seq<Line>)
    ensures lines == TotalLines(totals)
  {
    lines := [];
    var k := 0;
    while k < |totals|
      invariant 0 <= k <= |totals|
      invariant lines == TotalLines(totals[..k])
    {
      assert totals[..k + 1][..k] == totals[..k];
      lines := AppendIfPositive(lines, Cr(totals[k].0, totals[k].1));
      k := k + 1;
    }
    assert totals[..k] == totals;
  }

  function TotalLines(totals: seq<(Account, int)>): seq<Line> {
    if totals == [] then [] else
    var t := totals[|totals| - 1];
    TotalLines(totals[..|totals| - 1]) + WhenPositive(Cr(t.0, t.1))
  }

  lemma FourTotals(totals: seq<(Account, int)>)
    requires |totals| == 4
    ensures totals[..4] == totals
    ensures TotalLines(totals)
            == WhenPositive(Cr(totals[0].0, totals[0].1)) + WhenPositive(Cr(totals[1].0, totals[1].1))
               + WhenPositive(Cr(totals[2].0, totals[2].1)) + WhenPositive(Cr(totals[3].0, totals[3].1))
  {
    hide WhenPositive;
    assert totals[..3][..2] == totals[..2] && totals[..2][..1] == totals[..1] && totals[..1][..0] == [];
    assert TotalLines(totals[..1]) == WhenPositive(Cr(totals[0].0, totals[0].1));
    assert TotalLines(totals[..2]) == TotalLines(totals[..1]) + WhenPositive(Cr(totals[1].0, totals[1].1));
    assert TotalLines(totals[..3]) == TotalLines(totals[..2]) + WhenPositive(Cr(totals[2].0, totals[2].1));
  }

  lemma NothingYet()
    ensures SellerLines([]) == [] && forall p :: SumOf([], p) == 0
  {
  }

  /** The running totals stay within what the buyers paid, so they cannot overflow. */
  lemma OneMoreLine(items: seq<Item>, k: nat)
    requires P.ItemsOk(items) && SumOf(items, BuyerTotal) <= STORE_MAX && k < |items|
    ensures SellerLines(items[..k + 1])
            == SellerLines(items[..k]) + WhenPositive(Cr(Payable(items[k].seller), items[k].bd.sellerNet))
    ensures forall p :: SumOf(items[..k + 1], p) == SumOf(items[..k], p) + PartOf(items[k], p)
    ensures forall p :: 0 <= SumOf(items[..k], p) + PartOf(items[k], p) <= STORE_MAX
  {
    hide PartOf, P.ItemsOk, WhenPositive;
    var prefix := items[..k + 1];
    LastOfPrefix(prefix, items[..k], items[k]);
    PrefixWithin(items, k + 1);
    AllPartsWithin(prefix);
    hide SumOf;
  }

  lemma LastOfPrefix(prefix: seq<Item>, init: seq<Item>, it: Item)
    requires prefix == init + [it]
    ensures SellerLines(prefix) == SellerLines(init) + WhenPositive(Cr(Payable(it.seller), it.bd.sellerNet))
    ensures forall p :: SumOf(prefix, p) == SumOf(init, p) + PartOf(it, p)
  {
    hide PartOf, WhenPositive;
    assert prefix[..|prefix| - 1] == init;
  }

  lemma AllPartsWithin(items: seq<Item>)
    requires P.ItemsOk(items)
    ensures forall p :: 0 <= SumOf(items, p) <= SumOf(items, BuyerTotal)
  {
    hide SumOf, P.ItemsOk;
    forall p ensures 0 <= SumOf(items, p) <= SumOf(items, BuyerTotal) { P.PartsBounded(items, p); }
  }

  lemma {:induction false} PrefixWithin(items: seq<Item>, k: nat)
    requires P.ItemsOk(items) && k <= |items|
    ensures P.ItemsOk(items[..k]) && SumOf(items[..k], BuyerTotal) <= SumOf(items, BuyerTotal)
    decreases |items|
  {
    if k == |items| {
      assert items[..k] == items;
    } else {
      P.ItemsOkParts(items);
      assert items[..|items| - 1][..k] == items[..k];
      PrefixWithin(items[..|items| - 1], k);
    }
  }

  lemma NoLosses()
    ensures LossLines([]) == [] && LossOffsets([]) == [] && Recovered([]) == 0
  {
  }

  lemma OneMoreItem(items: seq<Item>, k: nat)
    requires k < |items|
    ensures var it := items[k];
            && LossLines(items[..k + 1])
               == LossLines(items[..k]) + WhenPositive(Dr(SellerRecovery(it, IsSettled(it)), it.bd.sellerNet))
            && LossOffsets(items[..k + 1])
               == LossOffsets(items[..k])
                  + (if it.bd.sellerNet > 0 && IsSettled(it)
                      then [Offset(it.seller, it.bd.sellerNet, 0, Outstanding)] else [])
            && Recovered(items[..k + 1]) == Recovered(items[..k]) + Positive(it.bd.sellerNet)
            && (it.bd.sellerNet <= 0 ==> LossItem(it) == it)
  {
    hide IsSettled;
    assert items[..k + 1][..k] == items[..k];
  }

  /** Posting looks at the journal alone. */
  lemma SamePosting(a: Db, b: Db, e: Entry)
    requires a.journal == b.journal
    ensures PostTo(a, e).Ok? == PostTo(b, e).Ok?
    ensures PostTo(a, e).Err? ==> PostTo(b, e) == Err(PostTo(a, e).error)
    ensures PostTo(a, e).Ok? ==>
              && PostTo(a, e).value == a.(journal := PostTo(a, e).value.journal)
              && PostTo(b, e).value == b.(journal := PostTo(a, e).value.journal)
  {
    hide PostSpec;
  }

  lemma OnlyTheJournal(db: Db, e: Entry)
    requires PostTo(db, e).Ok?
    ensures PostTo(db, e).value == db.(journal := PostTo(db, e).value.journal)
  {
    hide PostSpec;
  }

  /** The guards of a refund, in the order the code checks them. */
  lemma RefundGuards(db: Db, o: nat, i: nat, q: RefundRequest)
    ensures var spec := RefundSpec(db, o, i, q);
            if o >= |db.orders| then spec == Err(NotFound) else
            var ord := db.orders[o];
            if ord.status !in {Paid, Fulfilled, Completed, PartiallyRefunded, Disputed} then spec == Err(BadState) else
            if i >= |ord.items| then spec == Err(NotFound) else
            if !q.eligible then spec == Err(NotEligible) else
            var it := ord.items[i];
            var asked := RefundAmount(it, q.requested);
            if asked.Err? then spec == Err(asked.error) else
            if it.refunded + asked.value > it.bd.buyerTotal then spec == Err(TooMuch) else
            if !HasPayment(db, o) then spec == Err(NoPayment) else
            if q.answer.Declined? then spec == Err(ProviderFailed) else
            if RefTaken(db.refunds, RefOf(q.answer)) then spec == Err(DuplicateRef) else
            if !Scales(it, asked.value) then spec == Err(InMoney(Overflow)) else
            var posted := PostTo(db, RefundEntry(|db.refunds|, it, asked.value, IsSettled(it)));
            if posted.Err? then spec == Err(posted.error) else
            var moved := RefundStatus(ord.(items := ord.items[i := RefundItem(it, asked.value, q.reversal)]),
                                      asked.value);
            if moved.Err? then spec == Err(moved.error) else
            var share := ShareOf(it, SellerNet, asked.value);
            spec == Ok(posted.value.(
                       orders := db.orders[o := moved.value],
                       offsets := if IsSettled(it) && share > 0
                                  then db.offsets + [Offset(it.seller, share, 0, Outstanding)] else db.offsets,
                       refunds := db.refunds + [RefundRowFor(o, i, it, asked.value, RefOf(q.answer))]))
  {
    hide PostTo, RefundEntry, ShareOf, Scales, RefundItem, HasPayment, RefundStatus, IsSettled, RefundAmount,
         RefTaken;
  }

  /** What can be asked for: part of the line, or nothing of a line of no value. */
  predicate Askable(it: Item, amount: int) {
    0 <= amount <= it.bd.buyerTotal && (amount == 0 ==> it.bd.buyerTotal == 0)
  }

  lemma AskedWithin(it: Item, requested: Option<int>)
    requires P.ItemOk(it) && RefundAmount(it, requested).Ok?
    ensures Askable(it, RefundAmount(it, requested).value)
  {
  }

  lemma ShareWithin(it: Item, p: Part, amount: int)
    requires P.ItemOk(it) && R.IsComponent(p) && Askable(it, amount)
    ensures Scale(PartOf(it, p), amount, it.bd.buyerTotal) == Ok(ShareOf(it, p, amount))
    ensures 0 <= ShareOf(it, p, amount) <= STORE_MAX
  {
    if amount > 0 {
      R.ShareIsNearest(it, p, amount);
      P.PartStorable(it, p);
    }
  }

  /** The lines of the refund entry: the seller's share, the four components, the
      residue and the credit to clearing. */
  method RefundLines(refund: nat, it: Item, amount: int, settledAway: bool) returns (lines: seq<Line>, share: int)
    requires P.ItemOk(it) && Askable(it, amount)
    ensures Scales(it, amount) && share == ShareOf(it, SellerNet, amount)
    ensures Entry(RefundKey(refund), INR, lines) == RefundEntry(refund, it, amount, settledAway)
  {
    hide Scale, ShareOf, P.ItemOk, Askable, ComponentLines, Allocated, IsSettled;
    ShareWithin(it, SellerNet, amount);
    assert PartOf(it, SellerNet) == it.bd.sellerNet;
    share := Scale(it.bd.sellerNet, amount, it.bd.buyerTotal).value;
    lines := AppendIfPositive([], Dr(SellerRecovery(it, settledAway), share));
    var taken := Positive(share);
    NoComponents(it, amount);
    var k := 0;
    while k < |COMPONENTS|
      invariant 0 <= k <= |COMPONENTS|
      invariant forall x :: 0 <= x < k ==> Scale(PartOf(it, COMPONENTS[x].1), amount, it.bd.buyerTotal).Ok?
      invariant lines == WhenPositive(Dr(SellerRecovery(it, settledAway), share))
                + ComponentLines(it, amount, COMPONENTS[..k])
      invariant taken == Allocated(it, amount, COMPONENTS[..k])
      invariant 0 <= taken <= (k + 1) * STORE_MAX
    {
      var c := COMPONENTS[k];
      ShareWithin(it, c.1, amount);
      OneMoreComponent(it, amount, k);
      var part := Scale(PartOf(it, c.1), amount, it.bd.buyerTotal).value;
      lines := AppendIfPositive(lines, Dr(c.0, part));
      var sum := Add(taken, Positive(part));
      taken := sum.value;
      k := k + 1;
    }
    assert COMPONENTS[..k] == COMPONENTS;
    lines := lines + ResidueLine(amount - taken) + [Cr(Clearing, amount)];
  }

  lemma NoComponents(it: Item, amount: int)
    ensures ComponentLines(it, amount, COMPONENTS[..0]) == []
    ensures Allocated(it, amount, COMPONENTS[..0]) == Positive(ShareOf(it, SellerNet, amount))
  {
    hide ShareOf;
  }

  lemma OneMoreComponent(it: Item, amount: int, k: nat)
    requires k < |COMPONENTS|
    ensures ComponentLines(it, amount, COMPONENTS[..k + 1])
            == ComponentLines(it, amount, COMPONENTS[..k])
               + WhenPositive(Dr(COMPONENTS[k].0, ShareOf(it, COMPONENTS[k].1, amount)))
    ensures Allocated(it, amount, COMPONENTS[..k + 1])
            == Allocated(it, amount, COMPONENTS[..k]) + Positive(ShareOf(it, COMPONENTS[k].1, amount))
  {
    hide ShareOf;
    assert COMPONENTS[..k + 1][..k] == COMPONENTS[..k];
  }

  lemma NoTransfer(db: Db, o: nat, i: nat, reserveBps: nat, providerOk: bool)
    requires o >= |db.orders| || i >= |db.orders[o].items| || db.orders[o].items[i].transfer.None?
    ensures ReleaseSpec(db, o, i, reserveBps, providerOk) == Err(NotFound)
  {
  }

  lemma AlreadyHandled(db: Db, o: nat, i: nat, reserveBps: nat, providerOk: bool)
    requires o < |db.orders| && i < |db.orders[o].items| && db.orders[o].items[i].transfer.Some?
    requires db.orders[o].items[i].transfer.value.status !in {Pending, OnHold}
    ensures ReleaseSpec(db, o, i, reserveBps, providerOk) == Ok(db)
  {
  }

  /** The stages of a release, each with the error that ends it. */
  lemma ReleaseStages(db: Db, o: nat, i: nat, reserveBps: nat, providerOk: bool)
    requires o < |db.orders| && S.Releasable(db.orders[o], i)
    ensures var it := db.orders[o].items[i];
            var gross := it.transfer.value.amount;
            var reserve := ApplyBasisPoints(gross, reserveBps, Down);
            var spec := ReleaseSpec(db, o, i, reserveBps, providerOk);
            if reserve.Err? then spec == Err(InMoney(reserve.error)) else
            var held := S.MoveIfPositive(db, ReserveEntry(o, i, it.seller, reserve.value), reserve.value);
            if held.Err? then spec == Err(held.error) else
            var n := ApplySpec(held.value.journal, db.offsets, it.seller, gross - reserve.value, 0);
            if n.Err? then spec == Err(n.error) else
            if !providerOk && it.transfer.value.hasRef then spec == Err(ProviderFailed) else
            var row := S.ReleaseRowFor(o, i, it, reserve.value, n.value);
            spec == S.MoveIfPositive(held.value.(journal := n.value.journal, offsets := n.value.offsets,
                                                 orders := db.orders[o := S.ReleasedOrder(db.orders[o], i)],
                                                 releases := db.releases + [row]),
                                     SettleEntry(o, i, it.seller, row.net), row.net)
  {
    hide PostTo, ApplySpec, ApplyBasisPoints, ReserveEntry, SettleEntry;
  }
}
