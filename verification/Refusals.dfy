/** What each operation answers when it refuses: the error, by the facts it refuses
    for, in the order in which the program looks at them. */
module Refusals {
  import opened Money
  import opened Ledger
  import opened Orders
  import opened Books
  import opened Outcomes
  import opened Sales
  import T = Tax
  import S = ReleaseSteps
  import C = Captures

  // ---- checkout --------------------------------------------------------------------

  /** Once a line is refused, the lines after it are not looked at. */
  lemma {:induction false} PricingStops(p: T.Policy, b: T.Buyer, lines: seq<CatalogueLine>, n: nat)
    requires n <= |lines| && PriceAll(p, b, lines[..n]).Err?
    ensures PriceAll(p, b, lines) == PriceAll(p, b, lines[..n])
    decreases |lines|
  {
    if n == |lines| {
      assert lines[..n] == lines;
    } else {
      assert lines[..|lines| - 1][..n] == lines[..n];
      PricingStops(p, b, lines[..|lines| - 1], n);
    }
  }

  /** The line at which pricing stops: the first that cannot be decomposed, or with
      which the running total of the buyer leaves 64 bits. */
  lemma CheckoutStopsAt(db: Db, p: T.Policy, b: T.Buyer, lines: seq<CatalogueLine>, i: nat)
    requires Sensible(DoCheckout(p, b, lines)) && |lines| <= 50 && i < |lines|
    requires forall x :: 0 <= x < i ==> T.ComputeSpec(p, lines[x].attributes, b, lines[x].sale).Ok?
    requires TotalPaid(p, b, lines[..i]) <= MAX_INT64
    ensures var line := T.ComputeSpec(p, lines[i].attributes, b, lines[i].sale);
            && (line.Err? ==> CheckoutSpec(db, p, b, lines) == Err(InTax(line.error)))
            && (line.Ok? && TotalPaid(p, b, lines[..i + 1]) > MAX_INT64 ==>
                  CheckoutSpec(db, p, b, lines) == Err(InMoney(Overflow)))
  {
    hide T.ComputeSpec, SumOf, TotalPaid;
    var before, upTo := lines[..i], lines[..i + 1];
    assert upTo[..i] == before && upTo[i] == lines[i];
    forall l | l in before ensures l in lines { }
    forall x | 0 <= x < i ensures Decomposed(p, b, before[x]).Ok? { assert before[x] == lines[x]; }
    PricesWhen(p, b, before);
    if PriceAll(p, b, upTo).Ok? { ItemsStandForLines(p, b, upTo); FitsWhenPriced(p, b, upTo); }
    if PriceAll(p, b, upTo).Err? { PricingStops(p, b, lines, i + 1); }
  }

  lemma FitsWhenPriced(p: T.Policy, b: T.Buyer, lines: seq<CatalogueLine>)
    requires lines != [] && PriceAll(p, b, lines).Ok?
    ensures SumOf(PriceAll(p, b, lines).value, BuyerTotal) <= MAX_INT64
  {
    hide T.ComputeSpec, SumOf;
  }

  /** The other refusals of a cart: none or too many lines, or a total the column of
      amounts cannot hold. */
  lemma CartIsRefused(db: Db, p: T.Policy, b: T.Buyer, lines: seq<CatalogueLine>)
    ensures |lines| == 0 ==> CheckoutSpec(db, p, b, lines) == Err(Empty)
    ensures |lines| > 50 ==> CheckoutSpec(db, p, b, lines) == Err(TooMany)
    ensures Sensible(DoCheckout(p, b, lines)) && 1 <= |lines| <= 50
            && (forall x :: 0 <= x < |lines| ==> T.ComputeSpec(p, lines[x].attributes, b, lines[x].sale).Ok?)
            && STORE_MAX < TotalPaid(p, b, lines) <= MAX_INT64 ==>
              CheckoutSpec(db, p, b, lines) == Err(InLedger(OutOfRange))
  {
    hide T.ComputeSpec, PriceAll, TotalPaid;
    if Sensible(DoCheckout(p, b, lines)) && TotalPaid(p, b, lines) <= MAX_INT64
       && forall x :: 0 <= x < |lines| ==> T.ComputeSpec(p, lines[x].attributes, b, lines[x].sale).Ok?
    {
      forall x | 0 <= x < |lines| ensures Decomposed(p, b, lines[x]).Ok? {
        assert T.ComputeSpec(p, lines[x].attributes, b, lines[x].sale).Ok?;
      }
      PricesWhen(p, b, lines);
      ItemsStandForLines(p, b, lines);
    }
  }

  // ---- payment ---------------------------------------------------------------------

  /** Payment of an order starts from a draft or after a failed attempt, for a positive
      total. */
  lemma PaymentIsRefused(db: Db, o: nat)
    ensures o >= |db.orders| ==> BeginPaymentSpec(db, o) == Err(NotFound)
    ensures o < |db.orders| && db.orders[o].status != Draft && db.orders[o].status != PaymentFailed ==>
              BeginPaymentSpec(db, o) == Err(BadState)
    ensures (&& o < |db.orders| && (db.orders[o].status == Draft || db.orders[o].status == PaymentFailed)
             && db.orders[o].grandTotal <= 0) ==>
              BeginPaymentSpec(db, o) == Err(InvalidAmount)
    ensures o >= |db.orders| ==> Apply(db, DoComplete(o)) == Err(NotFound)
    ensures o < |db.orders| && db.orders[o].status != Fulfilled ==> Apply(db, DoComplete(o)) == Err(Concurrent)
  {
  }

  /** A payment of the right amount is refused by the checks on its row. */
  lemma PaymentRowIsRefused(db: Db, o: nat, c: Capture, ready: set<nat>)
    requires o < |db.orders| && db.orders[o].status == AwaitingPayment && c.amount == db.orders[o].grandTotal
    ensures (c.amount <= 0 || c.amount > STORE_MAX
             || (c.reportedFee.Some? && !(0 <= c.reportedFee.value <= STORE_MAX))
             || (c.reportedTax.Some? && !(0 <= c.reportedTax.value <= STORE_MAX))) ==>
              ConfirmSpec(db, o, c, ready) == Err(Unstorable)
  {
    hide CaptureEntry, ChargeFee, PostTo, CaptureItems;
  }

  // ---- refund ----------------------------------------------------------------------

  /** A refund, test by test. A disputed order passes them all and is refused at the
      end, its status having no way to a refund. */
  lemma RefundIsRefused(db: Db, o: nat, i: nat, q: RefundRequest)
    ensures var r := RefundSpec(db, o, i, q);
            if o >= |db.orders| then r == Err(NotFound) else
            var ord := db.orders[o];
            if ord.status != Paid && ord.status != Fulfilled && ord.status != Completed
               && ord.status != PartiallyRefunded && ord.status != Disputed then r == Err(BadState)
            else if i >= |ord.items| then r == Err(NotFound)
            else if !q.eligible then r == Err(NotEligible) else
            var whole := ord.items[i].bd.buyerTotal;
            if q.requested.Some? && q.requested.value <= 0 then r == Err(InvalidAmount)
            else if q.requested.Some? && q.requested.value > whole then r == Err(TooMuch) else
            var amount := if q.requested.Some? then q.requested.value else whole;
            if ord.items[i].refunded + amount > whole then r == Err(TooMuch)
            else if forall p :: p in db.payments ==> db.payments[p] != o then r == Err(NoPayment)
            else if q.answer == Declined then r == Err(ProviderFailed)
            else if q.answer.ref.Some?
                    && exists n :: 0 <= n < |db.refunds| && db.refunds[n].providerRef == q.answer.ref
            then r == Err(DuplicateRef)
            else ord.status == Disputed ==> r.Err?
  {
    hide RefundEntry, Scales, PostSpec, ShareOf, RefundItem;
  }

  /** What would go through on a fulfilled order is refused so on a disputed one. */
  lemma DisputedRefundIsRefused(db: Db, o: nat, i: nat, q: RefundRequest)
    requires Inv(db) && o < |db.orders| && i < |db.orders[o].items| && db.orders[o].status == Disputed
    requires RefundSpec(db.(orders := db.orders[o := db.orders[o].(status := Fulfilled)]), o, i, q).Ok?
    ensures RefundSpec(db, o, i, q) == Err(IllegalTransition)
  {
    hide RefundEntry, Scales, PostSpec, ShareOf, RefundItem, Inv;
  }

  // ---- release ---------------------------------------------------------------------

  /** A release of what is not there, or of what the provider refuses. */
  lemma ReleaseIsRefused(db: Db, o: nat, i: nat, reserveBps: nat, providerOk: bool)
    ensures o >= |db.orders| || i >= |db.orders[o].items| || db.orders[o].items[i].transfer.None? ==>
              ReleaseSpec(db, o, i, reserveBps, providerOk) == Err(NotFound)
    ensures ReleaseSpec(db, o, i, reserveBps, true).Ok? && !providerOk && S.Releasable(db.orders[o], i)
            && db.orders[o].items[i].transfer.value.hasRef ==>
              ReleaseSpec(db, o, i, reserveBps, providerOk) == Err(ProviderFailed)
  {
    hide ApplyBasisPoints, ApplySpec, PostTo, ReserveEntry, SettleEntry;
  }

  /** A transfer that is closed already is left alone, and nothing else changes. */
  lemma ClosedIsLeftAlone(db: Db, o: nat, i: nat, reserveBps: nat, providerOk: bool)
    requires o < |db.orders| && i < |db.orders[o].items| && db.orders[o].items[i].transfer.Some?
    requires db.orders[o].items[i].transfer.value.status != Pending
             && db.orders[o].items[i].transfer.value.status != OnHold
    ensures ReleaseSpec(db, o, i, reserveBps, providerOk) == Ok(db)
  {
    hide ApplyBasisPoints, ApplySpec, PostTo, ReserveEntry, SettleEntry;
  }

  // ---- disputes --------------------------------------------------------------------

  /** An opened dispute must carry an amount its row can hold, and concern an order that
      was paid and not refunded or charged back. */
  lemma DisputeIsRefused(db: Db, payment: nat, amount: int)
    requires payment in db.payments && db.payments[payment] < |db.orders|
    ensures amount <= 0 || amount > STORE_MAX ==> DisputeOpenedSpec(db, payment, amount) == Err(Unstorable)
    ensures var status := db.orders[db.payments[payment]].status;
            0 < amount <= STORE_MAX && status != Disputed && status != Paid && status != Fulfilled
            && status != Completed && status != PartiallyRefunded ==>
              DisputeOpenedSpec(db, payment, amount) == Err(IllegalTransition)
  {
    hide FreezeItems;
  }
}
