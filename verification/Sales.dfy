/** From the cart to the sellers' accounts: what checkout stores of every line, when
    it succeeds, and where the money of the recorded payment goes. */
module Sales {
  import opened Money
  import opened Ledger
  import opened Orders
  import opened Postings
  import opened Settlements
  import opened Books
  import opened Outcomes
  import opened SmallSale
  import Steps
  import T = Tax
  import C = Captures
  import L = LossSteps
  import Runs

  // ---- checkout ------------------------------------------------------------------

  /** What the line is decomposed into. */
  function Decomposed(p: T.Policy, b: T.Buyer, l: CatalogueLine): Result<T.Breakdown, T.TaxError> {
    T.ComputeSpec(p, l.attributes, b, l.sale)
  }

  /** What the buyer pays for the lines of a cart. */
  function TotalPaid(p: T.Policy, b: T.Buyer, lines: seq<CatalogueLine>): int {
    if lines == [] then 0 else
    var bd := Decomposed(p, b, lines[|lines| - 1]);
    TotalPaid(p, b, lines[..|lines| - 1]) + if bd.Ok? then bd.value.buyerTotal else 0
  }

  /** The nets of those lines of a cart that one seller sells. */
  function NetsFor(p: T.Policy, b: T.Buyer, lines: seq<CatalogueLine>, s: nat): int {
    if lines == [] then 0 else
    var l := lines[|lines| - 1];
    var bd := Decomposed(p, b, l);
    NetsFor(p, b, lines[..|lines| - 1], s) + if l.seller == s && bd.Ok? then bd.value.sellerNet else 0
  }

  /** The item stands for the line: its own seller, its own decomposition, and
      nothing paid, refunded or delivered yet. */
  predicate StandsFor(it: Item, p: T.Policy, b: T.Buyer, l: CatalogueLine) {
    && it.seller == l.seller && Decomposed(p, b, l) == Ok(it.bd)
    && it.status == ItemPending && it.refunded == 0 && it.licence.None? && it.transfer.None?
  }

  lemma {:induction false} ItemsStandForLines(p: T.Policy, b: T.Buyer, lines: seq<CatalogueLine>)
    requires PriceAll(p, b, lines).Ok?
    ensures var items := PriceAll(p, b, lines).value;
            && |items| == |lines|
            && (forall i :: 0 <= i < |items| ==> StandsFor(items[i], p, b, lines[i]))
            && SumOf(items, BuyerTotal) == TotalPaid(p, b, lines)
            && forall s :: OwedTo(items, s) == NetsFor(p, b, lines, s)
  {
    hide T.ComputeSpec;
    if lines == [] {
    } else {
      var init := lines[..|lines| - 1];
      ItemsStandForLines(p, b, init);
      var items := PriceAll(p, b, lines).value;
      assert items[..|items| - 1] == PriceAll(p, b, init).value;
    }
  }

  /** Checkout adds one draft order: an item for every line, in their order, each of
      its own seller and with its own decomposition, and the total the buyer pays.
      Nothing else changes. */
  lemma CheckoutStoresTheCart(db: Db, p: T.Policy, b: T.Buyer, lines: seq<CatalogueLine>)
    requires CheckoutSpec(db, p, b, lines).Ok?
    ensures var after := CheckoutSpec(db, p, b, lines).value;
            && |after.orders| == |db.orders| + 1
            && var ord := after.orders[|db.orders|];
            && after == db.(orders := db.orders + [ord])
            && ord.status == Draft && ord.refunded == 0 && ord.grandTotal == TotalPaid(p, b, lines)
            && |ord.items| == |lines|
            && forall i :: 0 <= i < |lines| ==>
                 var it, l := ord.items[i], lines[i];
                 && it.seller == l.seller && T.ComputeSpec(p, l.attributes, b, l.sale) == Ok(it.bd)
                 && it.status == ItemPending && it.refunded == 0 && it.licence.None? && it.transfer.None?
  {
    hide T.ComputeSpec;
    ItemsStandForLines(p, b, lines);
    var items := PriceAll(p, b, lines).value;
    assert forall i :: 0 <= i < |lines| ==> StandsFor(items[i], p, b, lines[i]);
    hide PriceAll;
  }

  lemma {:induction false} PartsWithinPaid(items: seq<Item>)
    requires forall i :: 0 <= i < |items| ==> Steps.PricedLine(items[i].bd)
    ensures 0 <= SumOf(items, ListPrice) && 0 <= SumOf(items, TaxTotal)
    ensures SumOf(items, BuyerTotal) == SumOf(items, ListPrice) + SumOf(items, TaxTotal)
  {
    if items == [] {
    } else {
      PartsWithinPaid(items[..|items| - 1]);
      assert Steps.PricedLine(items[|items| - 1].bd);
    }
  }

  lemma {:induction false} PaidNotNegative(p: T.Policy, b: T.Buyer, lines: seq<CatalogueLine>)
    requires Sensible(DoCheckout(p, b, lines))
    ensures TotalPaid(p, b, lines) >= 0
    ensures lines != [] ==> TotalPaid(p, b, lines[..|lines| - 1]) <= TotalPaid(p, b, lines)
  {
    hide T.ComputeSpec, Steps.PricedLine;
    if lines == [] {
    } else {
      var init, l := lines[..|lines| - 1], lines[|lines| - 1];
      assert l in lines && forall x <- init :: x in lines;
      PaidNotNegative(p, b, init);
      Steps.PricedIs(p, l.attributes, b, l.sale);
      PricedIsPaid(p, b, l);
    }
  }

  lemma PricedIsPaid(p: T.Policy, b: T.Buyer, l: CatalogueLine)
    requires Decomposed(p, b, l).Ok? ==> Steps.PricedLine(Decomposed(p, b, l).value)
    ensures Decomposed(p, b, l).Ok? ==> Decomposed(p, b, l).value.buyerTotal >= 0
  {
    hide T.ComputeSpec;
  }

  /** When every line can be decomposed and the buyer's total fits, no running total of
      the loop overflows. */
  lemma {:induction false} PricesWhen(p: T.Policy, b: T.Buyer, lines: seq<CatalogueLine>)
    requires Sensible(DoCheckout(p, b, lines)) && TotalPaid(p, b, lines) <= MAX_INT64
    requires forall i :: 0 <= i < |lines| ==> Decomposed(p, b, lines[i]).Ok?
    ensures PriceAll(p, b, lines).Ok?
  {
    hide T.ComputeSpec, Steps.PricedLine, SumOf;
    if lines == [] {
    } else {
      var init, l := lines[..|lines| - 1], lines[|lines| - 1];
      assert l in lines && forall x <- init :: x in lines;
      assert Decomposed(p, b, lines[|lines| - 1]).Ok?;
      forall i | 0 <= i < |init| ensures Decomposed(p, b, init[i]).Ok? { assert Decomposed(p, b, lines[i]).Ok?; }
      PaidNotNegative(p, b, lines);
      PricesWhen(p, b, init);
      Steps.PriceAllItems(p, b, init);
      Steps.PricedIs(p, l.attributes, b, l.sale);
      ItemsStandForLines(p, b, init);
      var before := PriceAll(p, b, init).value;
      var it := NewItem(l.seller, Decomposed(p, b, l).value);
      var items := before + [it];
      SumsOfOneMore(before, it);
      PartsWithinPaid(items);
      PaidForOneMore(p, b, lines);
    }
  }

  lemma SumsOfOneMore(items: seq<Item>, it: Item)
    ensures forall part :: SumOf(items + [it], part) == SumOf(items, part) + PartOf(it, part)
  {
    assert (items + [it])[..|items|] == items;
  }

  lemma PaidForOneMore(p: T.Policy, b: T.Buyer, lines: seq<CatalogueLine>)
    requires lines != [] && Decomposed(p, b, lines[|lines| - 1]).Ok?
    ensures TotalPaid(p, b, lines)
            == TotalPaid(p, b, lines[..|lines| - 1]) + Decomposed(p, b, lines[|lines| - 1]).value.buyerTotal
  {
    hide T.ComputeSpec;
  }

  /** A cart is turned into an order exactly when it has between one and fifty lines,
      every line can be decomposed, and the buyer's total can be stored. */
  lemma CheckoutSucceedsIff(db: Db, p: T.Policy, b: T.Buyer, lines: seq<CatalogueLine>)
    requires Sensible(DoCheckout(p, b, lines))
    ensures CheckoutSpec(db, p, b, lines).Ok?
            <==> 1 <= |lines| <= 50 && TotalPaid(p, b, lines) <= STORE_MAX
                 && forall i :: 0 <= i < |lines| ==> T.ComputeSpec(p, lines[i].attributes, b, lines[i].sale).Ok?
  {
    hide T.ComputeSpec, PriceAll;
    assert forall i :: 0 <= i < |lines| ==>
      Decomposed(p, b, lines[i]) == T.ComputeSpec(p, lines[i].attributes, b, lines[i].sale);
    if PriceAll(p, b, lines).Ok? {
      ItemsStandForLines(p, b, lines);
      var items := PriceAll(p, b, lines).value;
      forall i | 0 <= i < |lines| ensures Decomposed(p, b, lines[i]).Ok? { assert StandsFor(items[i], p, b, lines[i]); }
    } else if TotalPaid(p, b, lines) <= STORE_MAX && forall i :: 0 <= i < |lines| ==> Decomposed(p, b, lines[i]).Ok? {
      PricesWhen(p, b, lines);
    }
  }

  // ---- capture -------------------------------------------------------------------

  /** A cost is what the provider reports of it, or else its share at the blended
      rate, rounded half up. */
  function CostOf(reported: Option<int>, base: int, bps: nat): int {
    if reported.Some? then reported.value else (base * bps + BPS / 2) / BPS
  }

  lemma CostIsEstimate(reported: Option<int>, base: int, bps: nat)
    requires OrEstimate(reported, base, bps).Ok? && base >= 0 && StorableFee(reported)
    ensures OrEstimate(reported, base, bps).value == CostOf(reported, base, bps) >= 0
  {
    hide ApplyBasisPoints;
    if reported.None? { HalfUpIsFloor(base, bps); }
  }

  /** A payment for an order awaiting it is recorded exactly when it is of the order's
      total, that total is positive, no seller bears a processing cost, what the
      provider reports of its cost can be stored, and so can the whole cost. */
  lemma ConfirmSucceedsWhen(db: Db, o: nat, c: Capture, ready: set<nat>)
    requires Inv(db) && o < |db.orders| && db.orders[o].status == AwaitingPayment
    ensures var ord := db.orders[o];
            var fee := if c.reportedFee.Some? then c.reportedFee.value
                       else (ord.grandTotal * c.feeBps + BPS / 2) / BPS;
            var feeTax := if c.reportedTax.Some? then c.reportedTax.value else (fee * c.feeGstBps + BPS / 2) / BPS;
            ConfirmSpec(db, o, c, ready).Ok?
            <==> c.amount == ord.grandTotal && ord.grandTotal > 0 && BorneBySellers(ord.items) == 0
                 && (c.reportedFee.Some? ==> 0 <= c.reportedFee.value <= STORE_MAX)
                 && (c.reportedTax.Some? ==> 0 <= c.reportedTax.value <= STORE_MAX)
                 && fee + feeTax <= STORE_MAX
  {
    hide Inv, ConfirmSpec, BorneBySellers, CostOf, FeeBookable;
    ConfirmSucceedsIff(db, o, c, ready);
    var total := db.orders[o].grandTotal;
    if total > 0 && StorableFee(c.reportedFee) && StorableFee(c.reportedTax) {
      CostIsBookable(c, total);
    } else if !(StorableFee(c.reportedFee) && StorableFee(c.reportedTax)) {
      NotBookable(c, total);
    }
    CostIs(c.reportedFee, total, c.feeBps);
    CostIs(c.reportedTax, CostOf(c.reportedFee, total, c.feeBps), c.feeGstBps);
  }

  lemma CostIs(reported: Option<int>, base: int, bps: nat)
    ensures CostOf(reported, base, bps) == if reported.Some? then reported.value else (base * bps + BPS / 2) / BPS
  {
  }

  lemma NotBookable(c: Capture, total: int)
    requires !(StorableFee(c.reportedFee) && StorableFee(c.reportedTax))
    ensures !FeeBookable(c, total)
  {
    hide OrEstimate;
  }

  /** An estimate that leaves 64 bits cannot be stored either. */
  lemma CostIsBookable(c: Capture, total: int)
    requires total >= 0 && StorableFee(c.reportedFee) && StorableFee(c.reportedTax)
    ensures var fee := CostOf(c.reportedFee, total, c.feeBps);
            FeeBookable(c, total) <==> fee + CostOf(c.reportedTax, fee, c.feeGstBps) <= STORE_MAX
  {
    hide ApplyBasisPoints;
    if c.reportedFee.None? { HalfUpIsFloor(total, c.feeBps); }
    var fee := CostOf(c.reportedFee, total, c.feeBps);
    NotNegative(total, c.feeBps);
    if c.reportedTax.None? { HalfUpIsFloor(fee, c.feeGstBps); }
    NotNegative(fee, c.feeGstBps);
  }

  lemma NotNegative(base: nat, bps: nat)
    ensures (base * bps + BPS / 2) / BPS >= 0
  {
    MulMono(0, base, bps);
  }

  /** Where a recorded payment goes, account by account. */
  function SaleEffect(ord: Order, fee: int, feeTax: int, a: Account): int {
    match a
    case Clearing => ord.grandTotal - fee - feeTax
    case PspFeeExpense => fee
    case InputCredit => feeTax
    case CommissionIncome => -SumOf(ord.items, Commission)
    case GstOutput => -SumOf(ord.items, CommissionGst)
    case TcsPayable => -SumOf(ord.items, Tcs)
    case TdsPayable => -SumOf(ord.items, Tds)
    case Payable(s) => -OwedTo(ord.items, s)
    case _ => 0
  }

  /** The processing cost of a payment, as it is charged to the journal. */
  lemma ChargeMoves(db: Db, o: nat, c: Capture, grandTotal: int)
    requires Sound(db.journal) && grandTotal >= 0 && !HasKey(db.journal, PspFeeKey(o, c.payment))
    requires StorableFee(c.reportedFee) && StorableFee(c.reportedTax) && ChargeFee(db, o, c, grandTotal).Ok?
    ensures var after := ChargeFee(db, o, c, grandTotal).value;
            var fee := CostOf(c.reportedFee, grandTotal, c.feeBps);
            var feeTax := CostOf(c.reportedTax, fee, c.feeGstBps);
            && fee >= 0 && feeTax >= 0
            && (forall a: Account ::
                  Balance(after.journal, a)
                  == Balance(db.journal, a) + if a == PspFeeExpense then fee else if a == InputCredit then feeTax
                                              else if a == Clearing then -fee - feeTax else 0)
            && (forall k :: HasKey(after.journal, k)
                            <==> HasKey(db.journal, k) || (k == PspFeeKey(o, c.payment) && (fee > 0 || feeTax > 0)))
  {
    hide Sound, Balance, HasKey, CapturesOf, Net, PostTo, Accepted, ApplyBasisPoints, CostOf, FeeEntry, StorableFee;
    var fee := OrEstimate(c.reportedFee, grandTotal, c.feeBps).value;
    CostIsEstimate(c.reportedFee, grandTotal, c.feeBps);
    CostIsEstimate(c.reportedTax, fee, c.feeGstBps);
    var feeTax := OrEstimate(c.reportedTax, fee, c.feeGstBps).value;
    hide OrEstimate;
    if fee > 0 || feeTax > 0 {
      Steps.PostToEffect(db, FeeEntry(o, c.payment, fee, feeTax));
      Steps.FeeTouches(o, c.payment, fee, feeTax);
      FeeAccepted(o, c.payment, fee, feeTax);
      FeeAcceptedIff(o, c.payment, fee, feeTax);
    }
  }

  /** A recorded payment, in full: clearing holds what the buyer paid less the
      provider's cost, the cost is the reported one or the half-up share of the
      total, its tax the reported one or the half-up share of that cost, every
      destination of the order is credited, and no other account moves. The cost has
      an entry of its own exactly when there is any. */
  lemma CaptureMoves(db: Db, o: nat, c: Capture, ready: set<nat>)
    requires Inv(db) && o < |db.orders| && db.orders[o].status == AwaitingPayment
    requires ConfirmSpec(db, o, c, ready).Ok?
    ensures var after := ConfirmSpec(db, o, c, ready).value;
            var ord := db.orders[o];
            var fee := if c.reportedFee.Some? then c.reportedFee.value
                       else (ord.grandTotal * c.feeBps + BPS / 2) / BPS;
            var feeTax := if c.reportedTax.Some? then c.reportedTax.value else (fee * c.feeGstBps + BPS / 2) / BPS;
            && fee >= 0 && feeTax >= 0
            && (forall a: Account ::
                  Balance(after.journal, a) == Balance(db.journal, a) + SaleEffect(ord, fee, feeTax, a))
            && (forall k :: HasKey(after.journal, k)
                            <==> HasKey(db.journal, k) || k == CaptureKey(o, c.payment)
                                 || (k == PspFeeKey(o, c.payment) && (fee > 0 || feeTax > 0)))
            && after.payments == (if c.payment in db.payments then db.payments else db.payments[c.payment := o])
  {
    hide Inv, Sound, Balance, HasKey, CapturesOf, Net, PostTo, ChargeFee, Accepted, RecordCaptureSpec, CaptureEntry,
         OrderOk, KeysOk, SumOf, OwedTo, BorneBySellers;
    var ord := db.orders[o];
    var e := CaptureEntry(o, c.payment, ord);
    C.InvFacts(db, o);
    C.CaptureKeyIsNew(db, o, c.payment);
    FeeKeyIsNew(db, o, c.payment);
    C.CaptureEntryKey(o, c.payment, ord);
    C.RecordCaptureShape(db, o, c, ready);
    StorableWhenRecorded(db, o, c, ready);
    L.OrderIsConserving(ord);
    GrandTotalIs(ord);
    Steps.PostToEffect(db, e);
    CaptureAcceptedIff(o, c.payment, ord);
    CaptureEntryShape(o, c.payment, ord);
    ChargeMoves(PostTo(db, e).value, o, c, ord.grandTotal);
  }

  lemma StorableWhenRecorded(db: Db, o: nat, c: Capture, ready: set<nat>)
    requires RecordCaptureSpec(db, o, c, ready).Ok?
    ensures StorableFee(c.reportedFee) && StorableFee(c.reportedTax)
  {
    hide PostTo, ChargeFee, CaptureEntry;
  }

  // ---- a sale --------------------------------------------------------------------

  /** Checkout, the start of the payment, and the recorded payment. */
  function SaleOf(db: Db, p: T.Policy, b: T.Buyer, lines: seq<CatalogueLine>, c: Capture, ready: set<nat>): Outcome {
    var drafted :- CheckoutSpec(db, p, b, lines);
    var begun :- BeginPaymentSpec(drafted, |db.orders|);
    ConfirmSpec(begun, |db.orders|, c, ready)
  }

  lemma BegunIs(db: Db, o: nat)
    requires BeginPaymentSpec(db, o).Ok?
    ensures o < |db.orders|
    ensures BeginPaymentSpec(db, o).value == db.(orders := db.orders[o := db.orders[o].(status := AwaitingPayment)])
  {
  }

  /** After a sale every seller's payable holds exactly the nets of the lines that
      name the seller in the catalogue, more than before. */
  lemma SaleCreditsItsSellers(db: Db, p: T.Policy, b: T.Buyer, lines: seq<CatalogueLine>, c: Capture, ready: set<nat>,
                              s: nat)
    requires Inv(db) && Sensible(DoCheckout(p, b, lines)) && SaleOf(db, p, b, lines, c, ready).Ok?
    ensures Balance(SaleOf(db, p, b, lines, c, ready).value.journal, Payable(s))
            == Balance(db.journal, Payable(s)) - NetsFor(p, b, lines, s)
  {
    hide Inv, Sensible, T.ComputeSpec, PriceAll, ConfirmSpec, BeginPaymentSpec, CheckoutSpec, Balance, HasKey, OwedTo,
         NetsFor, Captured;
    var drafted := CheckoutSpec(db, p, b, lines).value;
    var o := |db.orders|;
    var begun := BeginPaymentSpec(drafted, o).value;
    DraftIs(db, p, b, lines);
    BegunIs(drafted, o);
    Steps.CheckoutKeepsInv(db, p, b, lines);
    BegunKeepsInv(drafted, o);
    CaptureMoves(begun, o, c, ready);
  }

  lemma DraftIs(db: Db, p: T.Policy, b: T.Buyer, lines: seq<CatalogueLine>)
    requires CheckoutSpec(db, p, b, lines).Ok?
    ensures var after := CheckoutSpec(db, p, b, lines).value;
            && |after.orders| == |db.orders| + 1 && after.journal == db.journal
            && forall s :: OwedTo(after.orders[|db.orders|].items, s) == NetsFor(p, b, lines, s)
  {
    hide T.ComputeSpec, PriceAll, OwedTo, NetsFor;
    ItemsStandForLines(p, b, lines);
  }

  lemma BegunKeepsInv(db: Db, o: nat)
    requires Inv(db) && BeginPaymentSpec(db, o).Ok?
    ensures Inv(BeginPaymentSpec(db, o).value)
  {
    hide Inv, Move;
    Steps.MoveKeepsInv(db, o, db.orders[o].status, AwaitingPayment);
  }

  // ---- two sellers in one cart ---------------------------------------------------

  const TWO_SELLERS: seq<CatalogueLine> := [CatalogueLine(7, SELLER, LINE.sale), CatalogueLine(9, SELLER, LINE.sale)]
  const PAID_IN_FULL: Capture := Capture(0, 8, Some(0), Some(0), 0, 0)

  lemma SumsOfTwo(p: T.Policy, b: T.Buyer, x: CatalogueLine, y: CatalogueLine)
    requires Decomposed(p, b, x).Ok? && Decomposed(p, b, y).Ok?
    ensures TotalPaid(p, b, [x, y]) == Decomposed(p, b, x).value.buyerTotal + Decomposed(p, b, y).value.buyerTotal
    ensures forall s :: NetsFor(p, b, [x, y], s)
                        == (if x.seller == s then Decomposed(p, b, x).value.sellerNet else 0)
                           + (if y.seller == s then Decomposed(p, b, y).value.sellerNet else 0)
  {
    hide T.ComputeSpec;
    assert [x, y][..1] == [x] && [x][..0] == [];
    assert TotalPaid(p, b, [x]) == Decomposed(p, b, x).value.buyerTotal;
    assert forall s :: NetsFor(p, b, [x], s) == if x.seller == s then Decomposed(p, b, x).value.sellerNet else 0;
    assert [x, y][1] == y;
  }

  lemma TwoLines()
    ensures Sensible(DoCheckout(NO_RATES, BUYER, TWO_SELLERS))
    ensures forall i :: 0 <= i < |TWO_SELLERS| ==>
              T.ComputeSpec(NO_RATES, TWO_SELLERS[i].attributes, BUYER, TWO_SELLERS[i].sale) == Ok(PRICED)
    ensures TotalPaid(NO_RATES, BUYER, TWO_SELLERS) == 8
    ensures NetsFor(NO_RATES, BUYER, TWO_SELLERS, 7) == 2 && NetsFor(NO_RATES, BUYER, TWO_SELLERS, 9) == 2
    ensures NetsFor(NO_RATES, BUYER, TWO_SELLERS, 0) == 0
  {
    hide T.ComputeSpec, TotalPaid, NetsFor;
    ZeroRated();
    SumsOfTwo(NO_RATES, BUYER, TWO_SELLERS[0], TWO_SELLERS[1]);
    assert forall l <- TWO_SELLERS :: l == TWO_SELLERS[0] || l == TWO_SELLERS[1];
  }

  lemma TwoItems(items: seq<Item>)
    requires |items| == 2 && items[0].bd == PRICED && items[1].bd == PRICED
    ensures BorneBySellers(items) == 0
  {
    assert items[..|items| - 1] == [items[0]];
    OneItem(items[0]);
  }

  lemma DraftCanBePaid(drafted: Db, o: nat, c: Capture, ready: set<nat>)
    requires Inv(drafted) && o < |drafted.orders| && drafted.orders[o].status == Draft
    requires drafted.orders[o].grandTotal == c.amount == 8 && BorneBySellers(drafted.orders[o].items) == 0
    requires c == PAID_IN_FULL
    ensures var begun := BeginPaymentSpec(drafted, o);
            begun.Ok? && ConfirmSpec(begun.value, o, c, ready).Ok?
  {
    hide Inv, ConfirmSpec, BorneBySellers;
    BegunIs(drafted, o);
    BegunKeepsInv(drafted, o);
    ConfirmSucceedsIff(BeginPaymentSpec(drafted, o).value, o, c, ready);
  }

  /** A cart of one line of seller 7 and one of seller 9, on empty tables: the sale
      goes through and each of them is credited with the net of the own line. */
  lemma TwoSellersAreBothPaid()
    ensures var sold := SaleOf(EMPTY, NO_RATES, BUYER, TWO_SELLERS, PAID_IN_FULL, {});
            && sold.Ok?
            && Balance(sold.value.journal, Payable(7)) == -2 && Balance(sold.value.journal, Payable(9)) == -2
            && Balance(sold.value.journal, Payable(0)) == 0
  {
    hide Inv, Sensible, T.ComputeSpec, PriceAll, ConfirmSpec, BeginPaymentSpec, CheckoutSpec, BorneBySellers,
         NetsFor, TotalPaid;
    TwoLines();
    Runs.EmptyInv();
    CheckoutSucceedsIff(EMPTY, NO_RATES, BUYER, TWO_SELLERS);
    CheckoutStoresTheCart(EMPTY, NO_RATES, BUYER, TWO_SELLERS);
    Steps.CheckoutKeepsInv(EMPTY, NO_RATES, BUYER, TWO_SELLERS);
    var drafted := CheckoutSpec(EMPTY, NO_RATES, BUYER, TWO_SELLERS).value;
    TwoItems(drafted.orders[0].items);
    DraftCanBePaid(drafted, 0, PAID_IN_FULL, {});
    SaleCreditsItsSellers(EMPTY, NO_RATES, BUYER, TWO_SELLERS, PAID_IN_FULL, {}, 7);
    SaleCreditsItsSellers(EMPTY, NO_RATES, BUYER, TWO_SELLERS, PAID_IN_FULL, {}, 9);
    SaleCreditsItsSellers(EMPTY, NO_RATES, BUYER, TWO_SELLERS, PAID_IN_FULL, {}, 0);
  }
}
