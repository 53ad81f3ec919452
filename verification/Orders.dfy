/** The tables of internal/modules/orders and the effect of each committed unit
    of work on them. A unit of work that returns an error is rolled back, so an
    operation is a function from the tables to either new tables or an error.

    An order carries its items; an item carries the one licence and the one
    transfer its unique keys allow. Row ids are positions. Everything is in one
    currency. */
module Orders {
  import opened Money
  import opened Ledger
  import T = Tax

  const INR: Currency := "INR"

  datatype Status =
    | Draft | AwaitingPayment | PaymentFailed | Paid | Fulfilled | Completed | Cancelled | Expired
    | RefundPending | PartiallyRefunded | Refunded | Disputed | ChargebackLost

  /** order_transitions_allowed. */
  predicate Allowed(from: Status, to: Status) {
    match from
    case Draft => to in {AwaitingPayment, Cancelled, Expired}
    case AwaitingPayment => to in {Paid, PaymentFailed, Cancelled, Expired}
    case PaymentFailed => to in {AwaitingPayment, Cancelled}
    case Paid => to in {Fulfilled, RefundPending, Disputed}
    case Fulfilled => to in {Completed, RefundPending, Disputed}
    case Completed => to in {RefundPending, Disputed}
    case RefundPending => to in {Refunded, PartiallyRefunded, Fulfilled}
    case PartiallyRefunded => to in {RefundPending, Refunded, Disputed}
    case Disputed => to in {ChargebackLost, Fulfilled, Refunded}
    case _ => false
  }

  /** The statuses an order can have once its payment was captured. */
  predicate Captured(s: Status) {
    s in {Paid, Fulfilled, Completed, RefundPending, PartiallyRefunded, Refunded, Disputed, ChargebackLost}
  }

  datatype ItemStatus =
    ItemPending | ItemPaid | ItemFulfilled | ItemRefunded | ItemPartlyRefunded | ItemChargedBack

  datatype Licence = Active | Withdrawn

  datatype TransferStatus = Pending | OnHold | Processed | Reversed | Failed | Revoked

  datatype Transfer = Transfer(amount: int, status: TransferStatus, hasRef: bool)

  datatype Item = Item(
    seller: nat, bd: T.Breakdown, status: ItemStatus, refunded: int,
    licence: Option<Licence>, transfer: Option<Transfer>)

  datatype Order = Order(status: Status, grandTotal: int, refunded: int, items: seq<Item>)

  datatype OffsetStatus = Outstanding | PartiallyApplied | Settled | WrittenOff

  datatype Offset = Offset(seller: nat, amount: int, applied: int, status: OffsetStatus)

  /** One row per refund, with the seller's share of it and the provider's own id
      of it, which the provider may leave empty. */
  datatype RefundRow = RefundRow(
    order: nat, item: nat, seller: nat, amount: int, share: int, settledAway: bool, providerRef: Option<nat>)

  /** What the release announces: gross is split into reserve, applied offsets and
      the net paid out. `replayed` is the part of `applied` whose posting found
      its key taken. */
  datatype ReleaseRow = ReleaseRow(
    order: nat, item: nat, seller: nat, gross: int, reserve: int, applied: int, net: int, replayed: int)

  /** One row per charged-back item of a lost dispute; `posted` is false when the
      dispute's entry was already in the journal. */
  datatype LossRow = LossRow(order: nat, item: nat, seller: nat, net: int, settledAway: bool, posted: bool)

  datatype Db = Db(
    journal: seq<Entry>, orders: seq<Order>, payments: map<nat, nat>, offsets: seq<Offset>,
    refunds: seq<RefundRow>, releases: seq<ReleaseRow>, losses: seq<LossRow>)

  const EMPTY: Db := Db([], [], map[], [], [], [], [])

  datatype OrderError =
    | NotFound | BadState | IllegalTransition | Concurrent | AmountMismatch | InvalidAmount | TooMuch
    | NotEligible | NoPayment | ProviderFailed | DuplicateRef | Unstorable | Empty | TooMany
    | InLedger(l: LedgerError) | InTax(t: T.TaxError) | InMoney(m: MoneyError)

  type Outcome = Result<Db, OrderError>

  // ---- amounts of an item ---------------------------------------------------

  datatype Part = SellerNet | Commission | CommissionGst | Tcs | Tds | BuyerTotal | ListPrice | TaxTotal | RefundedSoFar

  function PartOf(it: Item, p: Part): int {
    match p
    case SellerNet => it.bd.sellerNet
    case Commission => it.bd.commission
    case CommissionGst => it.bd.commissionGst
    case Tcs => it.bd.tcs
    case Tds => it.bd.tds
    case BuyerTotal => it.bd.buyerTotal
    case ListPrice => it.bd.listPrice
    case TaxTotal => it.bd.taxTotal
    case RefundedSoFar => it.refunded
  }

  function SumOf(items: seq<Item>, p: Part): int {
    if items == [] then 0 else SumOf(items[..|items| - 1], p) + PartOf(items[|items| - 1], p)
  }

  // ---- postings -------------------------------------------------------------

  function PostTo(db: Db, e: Entry): Outcome {
    match PostSpec(db.journal, e)
    case Ok(j) => Ok(db.(journal := j))
    case Err(l) => Err(InLedger(l))
  }

  function Dr(a: Account, amount: int): Line { Line(a, Debit, amount, INR) }

  function Cr(a: Account, amount: int): Line { Line(a, Credit, amount, INR) }

  /** The code appends a line only when its amount is positive. */
  function WhenPositive(l: Line): seq<Line> {
    if l.amount > 0 then [l] else []
  }

  /** Credits to the sellers, one line per item that earns anything. */
  function SellerLines(items: seq<Item>): seq<Line> {
    if items == [] then [] else
    var it := items[|items| - 1];
    SellerLines(items[..|items| - 1]) + WhenPositive(Cr(Payable(it.seller), it.bd.sellerNet))
  }

  function CaptureEntry(o: nat, payment: nat, ord: Order): Entry {
    Entry(CaptureKey(o, payment), INR,
          [Dr(Clearing, ord.grandTotal)]
          + SellerLines(ord.items)
          + WhenPositive(Cr(CommissionIncome, SumOf(ord.items, Commission)))
          + WhenPositive(Cr(GstOutput, SumOf(ord.items, CommissionGst)))
          + WhenPositive(Cr(TcsPayable, SumOf(ord.items, Tcs)))
          + WhenPositive(Cr(TdsPayable, SumOf(ord.items, Tds))))
  }

  function FeeEntry(o: nat, payment: nat, fee: int, feeTax: int): Entry {
    Entry(PspFeeKey(o, payment), INR,
          WhenPositive(Dr(PspFeeExpense, fee)) + WhenPositive(Dr(InputCredit, feeTax))
          + [Cr(Clearing, fee + feeTax)])
  }

  // ---- transitions ----------------------------------------------------------

  /** The compare-and-set on the status column, then the state-machine trigger. */
  function Transition(ord: Order, from: Status, to: Status): Result<Order, OrderError> {
    if ord.status != from then Err(Concurrent)
    else if from != to && !Allowed(from, to) then Err(IllegalTransition)
    else Ok(ord.(status := to))
  }

  function Move(db: Db, o: nat, from: Status, to: Status): Outcome {
    if o >= |db.orders| then Err(NotFound) else
    var ord :- Transition(db.orders[o], from, to);
    Ok(db.(orders := db.orders[o := ord]))
  }

  // ---- checkout -------------------------------------------------------------

  /** A line read from the catalogue: the seller's row and tax attributes, and the price. */
  datatype CatalogueLine = CatalogueLine(seller: nat, attributes: T.Seller, sale: T.Sale)

  function NewItem(seller: nat, bd: T.Breakdown): Item {
    Item(seller, bd, ItemPending, 0, None, None)
  }

  function PriceAll(p: T.Policy, b: T.Buyer, lines: seq<CatalogueLine>): Result<seq<Item>, OrderError> {
    if lines == [] then Ok([]) else
    var before :- PriceAll(p, b, lines[..|lines| - 1]);
    var l := lines[|lines| - 1];
    match T.ComputeSpec(p, l.attributes, b, l.sale)
    case Err(t) => Err(InTax(t))
    case Ok(bd) =>
      var items := before + [NewItem(l.seller, bd)];
      if !Fits(SumOf(items, ListPrice)) || !Fits(SumOf(items, TaxTotal)) || !Fits(SumOf(items, BuyerTotal))
      then Err(InMoney(Overflow)) else Ok(items)
  }

  function CheckoutSpec(db: Db, p: T.Policy, b: T.Buyer, lines: seq<CatalogueLine>): Outcome {
    if lines == [] then Err(Empty)
    else if |lines| > 50 then Err(TooMany)
    else
      var items :- PriceAll(p, b, lines);
      // The money_minor domain of the totals.
      if SumOf(items, BuyerTotal) > STORE_MAX then Err(InLedger(OutOfRange))
      else Ok(db.(orders := db.orders + [Order(Draft, SumOf(items, BuyerTotal), 0, items)]))
  }

  /** Payment can start only for a positive total. */
  function BeginPaymentSpec(db: Db, o: nat): Outcome {
    if o >= |db.orders| then Err(NotFound)
    else if db.orders[o].status !in {Draft, PaymentFailed} then Err(BadState)
    else if db.orders[o].grandTotal <= 0 then Err(InvalidAmount)
    else Move(db, o, db.orders[o].status, AwaitingPayment)
  }

  // ---- capture --------------------------------------------------------------

  /** The provider's record of the payment, and the blended rates that estimate a
      fee it has not reported. */
  datatype Capture = Capture(
    payment: nat, amount: int, reportedFee: Option<int>, reportedTax: Option<int>, feeBps: nat, feeGstBps: nat)

  function OrEstimate(reported: Option<int>, base: int, bps: nat): Result<int, OrderError> {
    match reported
    case Some(v) => Ok(v)
    case None =>
      match ApplyBasisPoints(base, bps, HalfUp)
      case Ok(v) => Ok(v)
      case Err(m) => Err(InMoney(m))
  }

  /** The processing cost is a second entry, skipped when there is none. */
  function ChargeFee(db: Db, o: nat, c: Capture, grandTotal: int): Outcome {
    var fee :- OrEstimate(c.reportedFee, grandTotal, c.feeBps);
    var feeTax :- OrEstimate(c.reportedTax, fee, c.feeGstBps);
    if fee <= 0 && feeTax <= 0 then Ok(db) else PostTo(db, FeeEntry(o, c.payment, fee, feeTax))
  }

  function CaptureItem(it: Item, ready: set<nat>): Item {
    it.(status := ItemFulfilled,
        licence := if it.licence == None then Some(Active) else it.licence,
        transfer := if it.bd.sellerNet > 0 && it.transfer == None
                    then Some(Transfer(it.bd.sellerNet, if it.seller in ready then OnHold else Pending, false))
                    else it.transfer)
  }

  function CaptureItems(items: seq<Item>, ready: set<nat>): (r: seq<Item>)
    ensures |r| == |items|
    ensures forall i :: 0 <= i < |items| ==> r[i] == CaptureItem(items[i], ready)
  {
    if items == [] then [] else
    CaptureItems(items[..|items| - 1], ready) + [CaptureItem(items[|items| - 1], ready)]
  }

  predicate StorableFee(reported: Option<int>) {
    reported.Some? ==> 0 <= reported.value <= STORE_MAX
  }

  /** The checks on a row of payments: a positive amount, and a reported fee and tax
      that are not negative. They are made whether or not the row is new. */
  predicate StorablePayment(c: Capture) {
    0 < c.amount <= STORE_MAX && StorableFee(c.reportedFee) && StorableFee(c.reportedTax)
  }

  /** recordCapture: the payment's row, both entries, the two status moves, licences
      and transfers. */
  function RecordCaptureSpec(db: Db, o: nat, c: Capture, ready: set<nat>): Outcome {
    if o >= |db.orders| then Err(NotFound) else
    if !StorablePayment(c) then Err(Unstorable) else
    var ord := db.orders[o];
    var posted :- PostTo(db, CaptureEntry(o, c.payment, ord));
    var charged :- ChargeFee(posted, o, c, ord.grandTotal);
    var paid :- Transition(ord, ord.status, Paid);
    var done :- Transition(paid.(items := CaptureItems(ord.items, ready)), Paid, Fulfilled);
    Ok(charged.(orders := db.orders[o := done],
                payments := if c.payment in db.payments then db.payments else db.payments[c.payment := o]))
  }

  /** The browser callback and the webhook share recordCapture behind the same
      guards: an order not awaiting payment is left alone, a different amount is
      refused. */
  function ConfirmSpec(db: Db, o: nat, c: Capture, ready: set<nat>): Outcome {
    if o >= |db.orders| then Err(NotFound)
    else if db.orders[o].status in {Paid, Fulfilled, Completed} then Ok(db)
    else if db.orders[o].status != AwaitingPayment then Err(BadState)
    else if c.amount != db.orders[o].grandTotal then Err(AmountMismatch)
    else RecordCaptureSpec(db, o, c, ready)
  }

  // ---- refund ---------------------------------------------------------------

  /** scaleToRefund. */
  function Scale(component: int, refunded: int, lineTotal: int): Result<int, OrderError> {
    if lineTotal == 0 then Ok(0)
    else if refunded == lineTotal then Ok(component)
    else match MulRatio(component, refunded, lineTotal, HalfUp)
         case Ok(v) => Ok(v)
         case Err(m) => Err(InMoney(m))
  }

  function ShareOf(it: Item, p: Part, amount: int): int {
    var r := Scale(PartOf(it, p), amount, it.bd.buyerTotal);
    if r.Ok? then r.value else 0
  }

  const COMPONENTS: seq<(Account, Part)> :=
    [(CommissionIncome, Commission), (GstOutput, CommissionGst), (TcsPayable, Tcs), (TdsPayable, Tds)]

  predicate Scales(it: Item, amount: int) {
    && Scale(it.bd.sellerNet, amount, it.bd.buyerTotal).Ok?
    && forall c <- COMPONENTS :: Scale(PartOf(it, c.1), amount, it.bd.buyerTotal).Ok?
  }

  function ComponentLines(it: Item, amount: int, cs: seq<(Account, Part)>): seq<Line> {
    if cs == [] then [] else
    var c := cs[|cs| - 1];
    ComponentLines(it, amount, cs[..|cs| - 1]) + WhenPositive(Dr(c.0, ShareOf(it, c.1, amount)))
  }

  function Positive(x: int): nat {
    if x > 0 then x else 0
  }

  function Allocated(it: Item, amount: int, cs: seq<(Account, Part)>): int {
    if cs == [] then Positive(ShareOf(it, SellerNet, amount)) else
    Allocated(it, amount, cs[..|cs| - 1]) + Positive(ShareOf(it, cs[|cs| - 1].1, amount))
  }

  /** What independent rounding of the shares leaves over, or takes too much. */
  function Residue(it: Item, amount: int): int {
    amount - Allocated(it, amount, COMPONENTS)
  }

  function ResidueLine(residue: int): seq<Line> {
    if residue > 0 then [Dr(RefundAbsorbed, residue)]
    else if residue < 0 then [Cr(RefundAbsorbed, -residue)]
    else []
  }

  function SellerRecovery(it: Item, settledAway: bool): Account {
    if settledAway then SellerOffset else Payable(it.seller)
  }

  function RefundEntry(refund: nat, it: Item, amount: int, settledAway: bool): Entry {
    Entry(RefundKey(refund), INR,
          WhenPositive(Dr(SellerRecovery(it, settledAway), ShareOf(it, SellerNet, amount)))
          + ComponentLines(it, amount, COMPONENTS)
          + ResidueLine(Residue(it, amount))
          + [Cr(Clearing, amount)])
  }

  predicate IsSettled(it: Item) {
    it.transfer.Some? && it.transfer.value.status == Processed
  }

  /** A refund before settlement stops the whole transfer. */
  function StopTransfer(it: Item, reversal: bool): Item {
    if it.transfer.None? || IsSettled(it) then it
    else if it.transfer.value.hasRef && reversal then it.(transfer := Some(it.transfer.value.(status := Reversed)))
    else if it.transfer.value.status in {Pending, OnHold} then
      it.(transfer := Some(it.transfer.value.(status := Revoked)))
    else it
  }

  function RefundItem(it: Item, amount: int, reversal: bool): Item {
    var newRefunded := it.refunded + amount;
    StopTransfer(it, reversal).(
      refunded := newRefunded,
      status := if newRefunded >= it.bd.buyerTotal then ItemRefunded else ItemPartlyRefunded,
      licence := if it.licence == Some(Active) then Some(Withdrawn) else it.licence)
  }

  /** applyRefundStatuses: through refund_pending to refunded or partially refunded. */
  function RefundStatus(ord: Order, amount: int): Result<Order, OrderError> {
    var newRefunded := ord.refunded + amount;
    var target := if newRefunded >= ord.grandTotal then Refunded else PartiallyRefunded;
    var pending :- if ord.status != RefundPending then Transition(ord, ord.status, RefundPending) else Ok(ord);
    Transition(pending.(refunded := newRefunded), RefundPending, target)
  }

  predicate HasPayment(db: Db, o: nat) {
    exists p :: p in db.payments && db.payments[p] == o
  }

  /** The amount asked for, defaulting to the whole line. */
  function RefundAmount(it: Item, requested: Option<int>): Result<int, OrderError> {
    match requested
    case None => Ok(it.bd.buyerTotal)
    case Some(a) =>
      if a <= 0 then Err(InvalidAmount) else if a > it.bd.buyerTotal then Err(TooMuch) else Ok(a)
  }

  /** What the provider says to a refund. */
  datatype Answer = Declined | Accepts(ref: Option<nat>)

  /** A request to refund an item: an amount or the whole line, whether the buyer may
      have it, whether the provider reverses transfers, and its answer. */
  datatype RefundRequest = RefundRequest(requested: Option<int>, eligible: bool, reversal: bool, answer: Answer)

  function RefOf(a: Answer): Option<nat> {
    if a.Accepts? then a.ref else None
  }

  /** refunds_provider_uq: no two rows hold the same id of the provider. */
  predicate RefTaken(rows: seq<RefundRow>, ref: Option<nat>) {
    ref.Some? && exists n :: 0 <= n < |rows| && rows[n].providerRef == ref
  }

  function RefundRowFor(o: nat, i: nat, it: Item, amount: int, ref: Option<nat>): RefundRow {
    RefundRow(o, i, it.seller, amount, ShareOf(it, SellerNet, amount), IsSettled(it), ref)
  }

  function RefundSpec(db: Db, o: nat, i: nat, q: RefundRequest): Outcome {
    if o >= |db.orders| then Err(NotFound) else
    var ord := db.orders[o];
    if ord.status !in {Paid, Fulfilled, Completed, PartiallyRefunded, Disputed} then Err(BadState)
    else if i >= |ord.items| then Err(NotFound)
    else if !q.eligible then Err(NotEligible)
    else
      var it := ord.items[i];
      var amount :- RefundAmount(it, q.requested);
      if it.refunded + amount > it.bd.buyerTotal then Err(TooMuch)
      else if !HasPayment(db, o) then Err(NoPayment)
      else if q.answer.Declined? then Err(ProviderFailed)
      else if RefTaken(db.refunds, RefOf(q.answer)) then Err(DuplicateRef)
      else if !Scales(it, amount) then Err(InMoney(Overflow))
      else
        var settled := IsSettled(it);
        var posted :- PostTo(db, RefundEntry(|db.refunds|, it, amount, settled));
        var share := ShareOf(it, SellerNet, amount);
        var moved :- RefundStatus(ord.(items := ord.items[i := RefundItem(it, amount, q.reversal)]), amount);
        Ok(posted.(
           orders := db.orders[o := moved],
           offsets := if settled && share > 0
                      then db.offsets + [Offset(it.seller, share, 0, Outstanding)] else db.offsets,
           refunds := db.refunds + [RefundRowFor(o, i, it, amount, RefOf(q.answer))]))
  }

  // ---- settlement -----------------------------------------------------------

  datatype Netting = Netting(journal: seq<Entry>, offsets: seq<Offset>, applied: int, replayed: int)

  predicate IsOpen(f: Offset, seller: nat) {
    f.seller == seller && f.status in {Outstanding, PartiallyApplied} && f.amount - f.applied > 0
  }

  function Min(a: int, b: int): int {
    if a <= b then a else b
  }

  function OffsetEntry(k: nat, take: int, seller: nat): Entry {
    Entry(OffsetKey(k, take), INR, [Dr(Payable(seller), take), Cr(SellerOffset, take)])
  }

  function ApplyTo(f: Offset, take: int): Offset {
    f.(applied := f.applied + take, status := if f.applied + take >= f.amount then Settled else PartiallyApplied)
  }

  /** applyOffsets, from the k-th row on, with `remaining` still available. */
  function ApplySpec(j: seq<Entry>, offsets: seq<Offset>, seller: nat, remaining: int, k: nat)
    : Result<Netting, OrderError>
    decreases |offsets| - k
  {
    if k >= |offsets| then Ok(Netting(j, offsets, 0, 0))
    else if !IsOpen(offsets[k], seller) then ApplySpec(j, offsets, seller, remaining, k + 1)
    else
      var take := Min(offsets[k].amount - offsets[k].applied, remaining);
      if take <= 0 then Ok(Netting(j, offsets, 0, 0))
      else match PostSpec(j, OffsetEntry(k, take, seller))
           case Err(l) => Err(InLedger(l))
           case Ok(posted) =>
             var rest :- ApplySpec(posted, offsets[k := ApplyTo(offsets[k], take)], seller, remaining - take, k + 1);
             Ok(rest.(applied := take + rest.applied,
                      replayed := rest.replayed + if HasKey(j, OffsetKey(k, take)) then take else 0))
  }

  function ReserveEntry(o: nat, i: nat, seller: nat, reserve: int): Entry {
    Entry(ReserveKey(o, i), INR, [Dr(Payable(seller), reserve), Cr(Reserve(seller), reserve)])
  }

  function SettleEntry(o: nat, i: nat, seller: nat, net: int): Entry {
    Entry(SettleKey(o, i), INR, [Dr(Payable(seller), net), Cr(Clearing, net)])
  }

  /** releaseOne for one transfer of a seller with the given rolling reserve. */
  function ReleaseSpec(db: Db, o: nat, i: nat, reserveBps: nat, providerOk: bool): Outcome {
    if o >= |db.orders| || i >= |db.orders[o].items| then Err(NotFound) else
    var it := db.orders[o].items[i];
    if it.transfer.None? then Err(NotFound)
    else if it.transfer.value.status !in {Pending, OnHold} then Ok(db)
    else
      var gross := it.transfer.value.amount;
      match ApplyBasisPoints(gross, reserveBps, Down)
      case Err(m) => Err(InMoney(m))
      case Ok(reserve) =>
        var held :- if reserve > 0 then PostTo(db, ReserveEntry(o, i, it.seller, reserve)) else Ok(db);
        var netting :- ApplySpec(held.journal, db.offsets, it.seller, gross - reserve, 0);
        var net := gross - reserve - netting.applied;
        if !providerOk && it.transfer.value.hasRef then Err(ProviderFailed)
        else
          var done := db.orders[o].(items := db.orders[o].items[i :=
                        it.(transfer := Some(it.transfer.value.(status := Processed)))]);
          var row := ReleaseRow(o, i, it.seller, gross, reserve, netting.applied, net, netting.replayed);
          var netted := held.(journal := netting.journal, offsets := netting.offsets,
                              orders := db.orders[o := done],
                              releases := db.releases + [row]);
          if net > 0 then PostTo(netted, SettleEntry(o, i, it.seller, net)) else Ok(netted)
  }

  // ---- chargebacks ----------------------------------------------------------

  function LossItem(it: Item): Item {
    if it.bd.sellerNet <= 0 then it
    else it.(status := ItemChargedBack,
             transfer := if it.transfer.Some? && !IsSettled(it)
                         then Some(it.transfer.value.(status := Revoked)) else it.transfer)
  }

  function LossItems(items: seq<Item>): (r: seq<Item>)
    ensures |r| == |items|
    ensures forall i :: 0 <= i < |items| ==> r[i] == LossItem(items[i])
  {
    if items == [] then [] else LossItems(items[..|items| - 1]) + [LossItem(items[|items| - 1])]
  }

  function LossLines(items: seq<Item>): seq<Line> {
    if items == [] then [] else
    var it := items[|items| - 1];
    LossLines(items[..|items| - 1]) + WhenPositive(Dr(SellerRecovery(it, IsSettled(it)), it.bd.sellerNet))
  }

  function LossOffsets(items: seq<Item>): seq<Offset> {
    if items == [] then [] else
    var it := items[|items| - 1];
    LossOffsets(items[..|items| - 1])
    + if it.bd.sellerNet > 0 && IsSettled(it) then [Offset(it.seller, it.bd.sellerNet, 0, Outstanding)] else []
  }

  function LossRows(o: nat, items: seq<Item>, posted: bool): seq<LossRow> {
    if items == [] then [] else
    var it := items[|items| - 1];
    LossRows(o, items[..|items| - 1], posted)
    + if it.bd.sellerNet > 0 then [LossRow(o, |items| - 1, it.seller, it.bd.sellerNet, IsSettled(it), posted)] else []
  }

  function Recovered(items: seq<Item>): int {
    if items == [] then 0 else Recovered(items[..|items| - 1]) + Positive(items[|items| - 1].bd.sellerNet)
  }

  function AbsorbedLine(absorbed: int): seq<Line> {
    if absorbed > 0 then [Dr(ChargebackLoss, absorbed)]
    else if absorbed < 0 then [Cr(ChargebackLoss, -absorbed)]
    else []
  }

  function LossEntry(dispute: nat, items: seq<Item>, amount: int): Entry {
    Entry(ChargebackKey(dispute), INR,
          LossLines(items) + AbsorbedLine(amount - Recovered(items)) + [Cr(Clearing, amount)])
  }

  /** The order a dispute event refers to, through its payment. */
  function DisputedOrder(db: Db, payment: nat): Option<nat> {
    if payment in db.payments && db.payments[payment] < |db.orders| then Some(db.payments[payment]) else None
  }

  /** A dispute event for an unknown payment is ignored. The row of an opened one must
      carry a positive amount; an event without any is read as zero. */
  function DisputeOpenedSpec(db: Db, payment: nat, amount: int): Outcome {
    match DisputedOrder(db, payment)
    case None => Ok(db)
    case Some(o) =>
      if !(0 < amount <= STORE_MAX) then Err(Unstorable) else
      var ord := db.orders[o];
      var moved :- if ord.status != Disputed then Transition(ord, ord.status, Disputed) else Ok(ord);
      Ok(db.(orders := db.orders[o := moved.(items := FreezeItems(ord.items))]))
  }

  function FreezeItems(items: seq<Item>): (r: seq<Item>)
    ensures |r| == |items|
    ensures forall i :: 0 <= i < |items| ==> r[i] == FreezeItem(items[i])
  {
    if items == [] then [] else FreezeItems(items[..|items| - 1]) + [FreezeItem(items[|items| - 1])]
  }

  function FreezeItem(it: Item): Item {
    if it.transfer.Some? && it.transfer.value.status in {Pending, OnHold}
    then it.(transfer := Some(it.transfer.value.(status := OnHold))) else it
  }

  function DisputeWonSpec(db: Db, payment: nat): Outcome {
    match DisputedOrder(db, payment)
    case None => Ok(db)
    case Some(o) => if db.orders[o].status == Disputed then Move(db, o, Disputed, Fulfilled) else Ok(db)
  }

  function DisputeLostSpec(db: Db, payment: nat, dispute: nat, amount: int): Outcome {
    match DisputedOrder(db, payment)
    case None => Ok(db)
    case Some(o) =>
      var ord := db.orders[o];
      var firstTime := !HasKey(db.journal, ChargebackKey(dispute));
      var posted :- PostTo(db, LossEntry(dispute, ord.items, amount));
      var status := if ord.status == Disputed then ChargebackLost else ord.status;
      Ok(posted.(orders := db.orders[o := ord.(status := status, items := LossItems(ord.items))],
                 offsets := db.offsets + LossOffsets(ord.items),
                 losses := db.losses + LossRows(o, ord.items, firstTime)))
  }

  // ---- transfer events ------------------------------------------------------

  datatype TransferEvent = ReferenceAssigned | ProviderProcessed | ProviderFailure

  /** What happens to a transfer outside releaseOne: it gets a provider reference,
      or the provider's webhook overwrites its status, with no posting. */
  function TransferEventItem(it: Item, e: TransferEvent): Item {
    if it.transfer.None? then it else
    var t := it.transfer.value;
    match e
    case ReferenceAssigned => it.(transfer := Some(t.(hasRef := true)))
    case ProviderProcessed => if t.hasRef then it.(transfer := Some(t.(status := Processed))) else it
    case ProviderFailure => if t.hasRef then it.(transfer := Some(t.(status := Failed))) else it
  }

  function TransferEventSpec(db: Db, o: nat, i: nat, e: TransferEvent): Outcome {
    if o >= |db.orders| || i >= |db.orders[o].items| then Ok(db) else
    var ord := db.orders[o];
    Ok(db.(orders := db.orders[o := ord.(items := ord.items[i := TransferEventItem(ord.items[i], e)])]))
  }

  // ---- runs -----------------------------------------------------------------

  datatype Op =
    | DoCheckout(policy: T.Policy, buyer: T.Buyer, lines: seq<CatalogueLine>)
    | DoBeginPayment(order: nat)
    | DoFailPayment(order: nat)
    | DoExpire(order: nat)
    | DoConfirm(order: nat, capture: Capture, ready: set<nat>)
    | DoRefund(order: nat, item: nat, request: RefundRequest)
    | DoRelease(order: nat, item: nat, reserveBps: nat, providerOk: bool)
    | DoOpenDispute(payment: nat, amount: int)
    | DoWinDispute(payment: nat)
    | DoLoseDispute(payment: nat, dispute: nat, amount: int)
    | DoComplete(order: nat)
    | DoTransferEvent(order: nat, item: nat, event: TransferEvent)

  /** The platform's sale terms that checkout itself does not check. */
  predicate Sensible(op: Op) {
    op.DoCheckout? ==>
      forall l <- op.lines :: l.sale.listPrice <= MAX_INT64 && l.sale.pspFeeBps >= 0 && l.sale.pspFeeGstBps >= 0
  }

  function Apply(db: Db, op: Op): Outcome {
    match op
    case DoCheckout(p, b, ls) => CheckoutSpec(db, p, b, ls)
    case DoBeginPayment(o) => BeginPaymentSpec(db, o)
    case DoFailPayment(o) =>
      if o < |db.orders| && db.orders[o].status == AwaitingPayment
      then Move(db, o, AwaitingPayment, PaymentFailed) else Ok(db)
    case DoExpire(o) =>
      if o < |db.orders| && db.orders[o].status in {Draft, AwaitingPayment}
      then Move(db, o, db.orders[o].status, Expired) else Ok(db)
    case DoConfirm(o, c, ready) => ConfirmSpec(db, o, c, ready)
    case DoRefund(o, i, q) => RefundSpec(db, o, i, q)
    case DoRelease(o, i, bps, ok) => ReleaseSpec(db, o, i, bps, ok)
    case DoOpenDispute(p, a) => DisputeOpenedSpec(db, p, a)
    case DoWinDispute(p) => DisputeWonSpec(db, p)
    case DoLoseDispute(p, d, a) => DisputeLostSpec(db, p, d, a)
    case DoComplete(o) => Move(db, o, Fulfilled, Completed)
    case DoTransferEvent(o, i, e) => TransferEventSpec(db, o, i, e)
  }

  function Step(db: Db, op: Op): Db {
    var r := Apply(db, op);
    if r.Ok? then r.value else db
  }

  /** The tables after a sequence of units of work, in commit order. */
  function Run(ops: seq<Op>): Db {
    if ops == [] then EMPTY else Step(Run(ops[..|ops| - 1]), ops[|ops| - 1])
  }
}
